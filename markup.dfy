/**
 * The three `re.sub` rewrites that open `validate_and_fix_html` (telegram_bot.py, and
 * both paths of the utils.py copy): `\*\*(.*?)\*\*` to `<b>\1</b>`, then `\*(.*?)\*`
 * to `<i>\1</i>`, then `###\s*(.*?)\n` to `<b>\1</b>\n`. Each is written out as
 * Python's leftmost, non-overlapping matching with a lazy group that `.` keeps from
 * crossing a newline.
 */
module Markup {
  import opened Wrappers
  import opened Text

  /** `delim` occurs at position `q` of `s`. */
  predicate At(s: string, q: nat, delim: string) {
    q <= |s| && delim <= s[q..]
  }

  /**
   * The lazy group `(.*?)` followed by `delim`: the first position of `delim` in `s`
   * with no newline before it.
   */
  function FindCloser(s: string, delim: string): (r: Option<nat>)
    requires |delim| > 0
    ensures r.Some? ==> r.value + |delim| <= |s|
    decreases |s|
  {
    if delim <= s then Some(0)
    else if s == [] || s[0] == '\n' then None
    else
      match FindCloser(s[1..], delim)
      case Some(q) => Some(q + 1)
      case None => None
  }

  /**
   * What the lazy group finds: a closer with no newline before it and no earlier closer;
   * and when it finds nothing, no closer occurs before the first newline.
   */
  lemma {:induction false} FindCloserIsFirst(s: string, delim: string)
    requires |delim| > 0
    ensures var r := FindCloser(s, delim);
      && (r.Some? ==> At(s, r.value, delim) && '\n' !in s[..r.value])
      && (r.Some? ==> forall q :: 0 <= q < r.value ==> !At(s, q, delim))
      && (r.None? ==> forall q :: 0 <= q <= |s| && '\n' !in s[..q] ==> !At(s, q, delim))
    decreases |s|
  {
    assert s[0..] == s;
    if delim <= s {
    } else if s == [] || s[0] == '\n' {
      assert forall q :: 0 < q <= |s| ==> s[0] in s[..q];
    } else {
      FindCloserIsFirst(s[1..], delim);
      assert forall q :: 1 <= q <= |s| ==> s[q..] == s[1..][q - 1..] && s[1..][..q - 1] == s[1..q];
      forall q | 1 <= q <= |s| ensures At(s, q, delim) == At(s[1..], q - 1, delim) && (('\n' in s[..q]) == ('\n' in s[1..][..q - 1])) {
        assert s[..q] == [s[0]] + s[1..][..q - 1];
      }
    }
  }

  /** `re.sub(delim (.*?) delim, open \1 close, s)` for a delimiter without newlines. */
  function RewritePair(s: string, delim: string, open: string, close: string): string
    requires |delim| > 0
    decreases |s|
  {
    if s == [] then []
    else if delim <= s then
      match FindCloser(s[|delim|..], delim)
      case Some(q) =>
        open + s[|delim|..|delim| + q] + close + RewritePair(s[|delim| + q + |delim|..], delim, open, close)
      case None => [s[0]] + RewritePair(s[1..], delim, open, close)
    else [s[0]] + RewritePair(s[1..], delim, open, close)
  }

  /** A delimiter without a newline is a prefix of `x + "\n" + rest` exactly when it is one of `x`. */
  lemma PrefixBeforeNewline(x: string, rest: string, delim: string)
    requires '\n' !in delim
    ensures delim <= x + "\n" + rest <==> delim <= x
  {
    var s := x + "\n" + rest;
    if |x| < |delim| {
      assert delim[|x|] in delim;
      assert s[|x|] == '\n';
    } else {
      assert s[..|delim|] == x[..|delim|];
    }
  }

  /** The search for a closer stops at the first newline. */
  lemma {:induction false} FindCloserStopsAtNewline(x: string, rest: string, delim: string)
    requires |delim| > 0 && '\n' !in delim
    ensures FindCloser(x + "\n" + rest, delim) == FindCloser(x, delim)
    decreases |x|
  {
    var s := x + "\n" + rest;
    PrefixBeforeNewline(x, rest, delim);
    if x != [] && !(delim <= x) && x[0] != '\n' {
      assert s[1..] == x[1..] + "\n" + rest;
      FindCloserStopsAtNewline(x[1..], rest, delim);
    } else if x == [] {
      assert delim[0] != '\n';
      assert !(delim <= s);
    }
  }

  /** Text without the delimiter's first character is left alone. */
  lemma {:induction false} RewritePairAbsent(s: string, delim: string, open: string, close: string)
    requires |delim| > 0 && delim[0] !in s
    ensures RewritePair(s, delim, open, close) == s
    decreases |s|
  {
    if s != [] {
      assert !(delim <= s);
      RewritePairAbsent(s[1..], delim, open, close);
    }
  }

  /** One step of the rewrite where a delimited span matches. */
  lemma RewritePairMatch(s: string, delim: string, open: string, close: string, q: nat)
    requires |delim| > 0 && delim <= s && FindCloser(s[|delim|..], delim) == Some(q)
    ensures RewritePair(s, delim, open, close)
            == open + s[|delim|..|delim| + q] + close + RewritePair(s[|delim| + q + |delim|..], delim, open, close)
  {
  }

  /** `**x**` on one line becomes `<b>x</b>` when `x` holds no `**`. */
  lemma BoldSpan(x: string, rest: string)
    requires '\n' !in x && forall q :: 0 <= q < |x| ==> !At(x + "**" + rest, q, "**")
    ensures RewritePair("**" + x + "**" + rest, "**", "<b>", "</b>") == "<b>" + x + "</b>" + RewritePair(rest, "**", "<b>", "</b>")
  {
    var s := "**" + x + "**" + rest;
    BoldCloser(x, rest);
    RewritePairMatch(s, "**", "<b>", "</b>", |x|);
    assert s[2..2 + |x|] == x;
    assert s[2 + |x| + 2..] == rest;
  }

  /** In `**x**rest` the lazy group stops at the end of `x`. */
  lemma BoldCloser(x: string, rest: string)
    requires '\n' !in x && forall q :: 0 <= q < |x| ==> !At(x + "**" + rest, q, "**")
    ensures "**" <= "**" + x + "**" + rest
    ensures FindCloser(("**" + x + "**" + rest)[2..], "**") == Some(|x|)
  {
    var t := x + "**" + rest;
    assert ("**" + x + "**" + rest)[2..] == t;
    assert At(t, |x|, "**") by { assert t[|x|..] == "**" + rest; }
    assert t[..|x|] == x;
    FindCloserIsFirst(t, "**");
  }

  /** Length of the run of whitespace at the start of `s`. */
  function SpaceRun(s: string): (n: nat)
    ensures n <= |s|
    ensures forall i :: 0 <= i < n ==> IsSpace(s[i])
    ensures n < |s| ==> !IsSpace(s[n])
    decreases |s|
  {
    if s != [] && IsSpace(s[0]) then 1 + SpaceRun(s[1..]) else 0
  }

  /** Index of the last newline in `s`. */
  function LastNewline(s: string): (r: Option<nat>)
    ensures r.Some? ==> r.value < |s| && s[r.value] == '\n' && '\n' !in s[r.value + 1..]
    ensures r.None? ==> '\n' !in s
    decreases |s|
  {
    if s == [] then None
    else if s[|s| - 1] == '\n' then Some(|s| - 1)
    else
      var r := LastNewline(s[..|s| - 1]);
      assert r.Some? ==> s[r.value + 1..] == s[..|s| - 1][r.value + 1..] + [s[|s| - 1]];
      assert r.None? ==> s == s[..|s| - 1] + [s[|s| - 1]];
      r
  }

  /** A match of `###\s*(.*?)\n`: its group and its length. */
  datatype HeadingHit = HeadingHit(group: string, len: nat)

  /**
   * The match of `###\s*(.*?)\n` at the start of `s`. The greedy `\s*` takes the whole
   * whitespace run when a newline follows it; otherwise it gives back characters until
   * the group can start at the last newline inside the run, leaving the group empty.
   */
  function HeadingMatch(s: string): (r: Option<HeadingHit>)
    requires "###" <= s
    ensures r.Some? ==> 4 <= r.value.len <= |s| && s[r.value.len - 1] == '\n'
    ensures r.Some? ==> '\n' !in r.value.group
  {
    var e := 3 + SpaceRun(s[3..]);
    match IndexOf(s[e..], '\n')
    case Some(d) => Some(HeadingHit(s[e..e + d], e + d + 1))
    case None =>
      match LastNewline(s[3..e])
      case Some(m) => Some(HeadingHit("", 3 + m + 1))
      case None => None
  }

  /** `re.sub(r'###\s*(.*?)\n', r'<b>\1</b>\n', s)` */
  function HeadingRewrite(s: string): string
    decreases |s|
  {
    if s == [] then []
    else if "###" <= s then
      match HeadingMatch(s)
      case Some(h) => "<b>" + h.group + "</b>\n" + HeadingRewrite(s[h.len..])
      case None => [s[0]] + HeadingRewrite(s[1..])
    else [s[0]] + HeadingRewrite(s[1..])
  }

  /** Text without `#` is left alone by the heading rewrite. */
  lemma {:induction false} HeadingRewriteAbsent(s: string)
    requires '#' !in s
    ensures HeadingRewrite(s) == s
    decreases |s|
  {
    if s != [] {
      assert s[0] in s;
      assert !("###" <= s);
      HeadingRewriteAbsent(s[1..]);
    }
  }

  /** One step of the heading rewrite where the pattern matches. */
  lemma HeadingRewriteMatch(s: string, h: HeadingHit)
    requires "###" <= s && HeadingMatch(s) == Some(h)
    ensures HeadingRewrite(s) == "<b>" + h.group + "</b>\n" + HeadingRewrite(s[h.len..])
  {
  }

  /** A heading line: `###`, blanks, a title that starts with no blank, a newline. */
  lemma HeadingLine(blanks: string, title: string, rest: string)
    requires (forall i :: 0 <= i < |blanks| ==> IsSpace(blanks[i])) && '\n' !in blanks
    requires '\n' !in title && title != [] && !IsSpace(title[0])
    ensures HeadingRewrite("###" + blanks + title + "\n" + rest) == "<b>" + title + "</b>\n" + HeadingRewrite(rest)
  {
    var s := "###" + blanks + title + "\n" + rest;
    var h := HeadingHit(title, 3 + |blanks| + |title| + 1);
    HeadingLineMatch(blanks, title, rest);
    HeadingRewriteMatch(s, h);
    assert s[h.len..] == rest;
  }

  lemma HeadingLineMatch(blanks: string, title: string, rest: string)
    requires (forall i :: 0 <= i < |blanks| ==> IsSpace(blanks[i])) && '\n' !in blanks
    requires '\n' !in title && title != [] && !IsSpace(title[0])
    ensures "###" <= "###" + blanks + title + "\n" + rest
    ensures HeadingMatch("###" + blanks + title + "\n" + rest) == Some(HeadingHit(title, 3 + |blanks| + |title| + 1))
  {
    var line := title + "\n" + rest;
    HeadingLineSlices(blanks, title, rest);
    SpaceRunOver(blanks, line);
    NewlineEndsLine(title, rest);
  }

  lemma HeadingLineSlices(blanks: string, title: string, rest: string)
    ensures var s, e := "###" + blanks + title + "\n" + rest, 3 + |blanks|;
      && s[3..] == blanks + (title + "\n" + rest) && s[e..] == title + "\n" + rest && s[e..e + |title|] == title
  {
    var s := "###" + blanks + title + "\n" + rest;
    assert s == "###" + blanks + (title + "\n" + rest);
  }

  /** The first newline of `title + "\n" + rest` is the one after a title without newlines. */
  lemma NewlineEndsLine(title: string, rest: string)
    requires '\n' !in title
    ensures IndexOf(title + "\n" + rest, '\n') == Some(|title|)
  {
    assert (title + "\n" + rest)[..|title|] == title;
    IndexOfUnique(title + "\n" + rest, '\n', |title|);
  }

  /**
   * A heading marker followed only by blanks up to a line break, with no line break later,
   * makes the engine backtrack: the group is empty and the match ends at that line break.
   */
  lemma EmptyHeadingBacktracks(blanks: string, tail: string)
    requires (forall i :: 0 <= i < |blanks| ==> IsSpace(blanks[i]))
    requires '\n' !in tail && (tail != [] ==> !IsSpace(tail[0]))
    ensures HeadingRewrite("###" + blanks + "\n" + tail) == "<b></b>\n" + HeadingRewrite(tail)
  {
    var s := "###" + blanks + "\n" + tail;
    EmptyHeadingMatch(blanks, tail);
    HeadingRewriteMatch(s, HeadingHit("", 3 + |blanks| + 1));
    assert s[3 + |blanks| + 1..] == tail;
  }

  lemma EmptyHeadingMatch(blanks: string, tail: string)
    requires (forall i :: 0 <= i < |blanks| ==> IsSpace(blanks[i]))
    requires '\n' !in tail && (tail != [] ==> !IsSpace(tail[0]))
    ensures "###" <= "###" + blanks + "\n" + tail
    ensures HeadingMatch("###" + blanks + "\n" + tail) == Some(HeadingHit("", 3 + |blanks| + 1))
  {
    var run := blanks + "\n";
    var s := "###" + blanks + "\n" + tail;
    assert s == "###" + run + tail;
    assert s[3..] == run + tail;
    SpaceRunOver(run, tail);
    var e := 3 + |run|;
    assert s[e..] == tail;
    assert IndexOf(tail, '\n') == None;
    assert s[3..e] == run;
    assert run[|run| - 1] == '\n';
    assert LastNewline(run) == Some(|blanks|);
  }

  lemma {:induction false} SpaceRunOver(blanks: string, rest: string)
    requires forall i :: 0 <= i < |blanks| ==> IsSpace(blanks[i])
    requires rest != [] ==> !IsSpace(rest[0])
    ensures SpaceRun(blanks + rest) == |blanks|
    decreases |blanks|
  {
    if blanks != [] {
      assert (blanks + rest)[1..] == blanks[1..] + rest;
      SpaceRunOver(blanks[1..], rest);
    } else {
      assert blanks + rest == rest;
    }
  }

  /** The three rewrites in the order the source applies them. */
  function Rewrite(text: string): string {
    HeadingRewrite(RewritePair(RewritePair(text, "**", "<b>", "</b>"), "*", "<i>", "</i>"))
  }

  /** Text without `*` and `#` passes the rewrites unchanged. */
  lemma RewritePlain(text: string)
    requires '*' !in text && '#' !in text
    ensures Rewrite(text) == text
  {
    RewritePairAbsent(text, "**", "<b>", "</b>");
    RewritePairAbsent(text, "*", "<i>", "</i>");
    HeadingRewriteAbsent(text);
  }
}
