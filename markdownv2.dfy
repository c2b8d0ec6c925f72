/**
 * `clean_markdown` (test_bot.py): the prototype's escaper for Telegram's MarkdownV2. The
 * text is split into lines; a line whose stripped form starts with a fence toggles the
 * code-block flag and is kept, lines inside a code block are kept, and every other line
 * gets a backslash before each of 18 special characters. The lines are joined again,
 * cut to 4000 characters, and a closing fence is added when the fences do not pair up.
 */
module MarkdownV2 {
  import opened Wrappers
  import opened Text

  /** The characters escaped outside code blocks, in the order they are replaced. */
  const SpecialChars: seq<char> := ['_', '*', '[', ']', '(', ')', '~', '`', '>', '#', '+', '-', '=', '|', '{', '}', '.', '!']

  const Fence: string := "```"

  /** The length `clean_markdown` cuts to. */
  const MaxLength: nat := 4000

  // ---------------------------------------------------------------- lines

  /** `s.split('\n')`: always at least one line, none containing a newline. */
  function SplitLines(s: string): (r: seq<string>)
    ensures |r| >= 1
    ensures forall k :: 0 <= k < |r| ==> '\n' !in r[k]
    decreases |s|
  {
    match IndexOf(s, '\n')
    case None => [s]
    case Some(k) => [s[..k]] + SplitLines(s[k + 1..])
  }

  /** `'\n'.join(lines)` */
  function JoinLines(lines: seq<string>): string {
    if lines == [] then []
    else if |lines| == 1 then lines[0]
    else lines[0] + "\n" + JoinLines(lines[1..])
  }

  /** Joining the lines of a text gives the text back. */
  lemma {:induction false} JoinSplit(s: string)
    ensures JoinLines(SplitLines(s)) == s
    decreases |s|
  {
    match IndexOf(s, '\n')
    case None =>
    case Some(k) =>
      var rest := SplitLines(s[k + 1..]);
      JoinSplit(s[k + 1..]);
      assert SplitLines(s)[1..] == rest;
      assert s == s[..k] + "\n" + s[k + 1..];
  }

  /** Length of a joined text: the lines plus one newline between each two. */
  lemma {:induction false} JoinLength(lines: seq<string>)
    requires lines != []
    ensures |JoinLines(lines)| == TotalLength(lines) + |lines| - 1
  {
    if |lines| > 1 {
      JoinLength(lines[1..]);
    }
  }

  function TotalLength(lines: seq<string>): nat {
    if lines == [] then 0 else |lines[0]| + TotalLength(lines[1..])
  }

  // ---------------------------------------------------------------- escaping

  /** The escaped form of one character: a backslash in front of a special one. */
  function EscapeChar(c: char): string {
    if c in SpecialChars then ['\\', c] else [c]
  }

  /** Every special character preceded by a backslash, every other character kept. */
  function EscapeLine(s: string): (r: string)
    ensures |s| <= |r| <= 2 * |s|
    decreases |s|
  {
    if s == [] then [] else EscapeChar(s[0]) + EscapeLine(s[1..])
  }

  /** Drops the backslash in front of each special character, reading left to right. */
  function Unescape(s: string): string
    decreases |s|
  {
    if |s| >= 2 && s[0] == '\\' && s[1] in SpecialChars then [s[1]] + Unescape(s[2..])
    else if s == [] then []
    else [s[0]] + Unescape(s[1..])
  }

  /** Escaping loses nothing: the original line can be read back, backslashes included. */
  lemma {:induction false} UnescapeEscape(s: string)
    ensures Unescape(EscapeLine(s)) == s
    decreases |s|
  {
    if s != [] {
      var c := s[0];
      var rest := EscapeLine(s[1..]);
      UnescapeEscape(s[1..]);
      var e := EscapeChar(c) + rest;
      assert EscapeLine(s) == e;
      if c in SpecialChars {
        assert e[2..] == rest;
      } else if c == '\\' && rest != [] {
        assert rest[0] == '\\' || rest[0] == s[1];
        EscapeFirst(s[1..]);
        assert e[1..] == rest;
      } else {
        assert e[1..] == rest;
      }
    }
    assert s == [] ==> s == Unescape([]);
  }

  /** An escaped text begins with a backslash or with the original first character, which then is not special. */
  lemma EscapeFirst(s: string)
    requires s != []
    ensures EscapeLine(s)[0] == '\\' || (EscapeLine(s)[0] == s[0] && s[0] !in SpecialChars)
  {
  }

  /**
   * The successive `line.replace(char, '\\' + char)` calls, one per character of `chars`:
   * each character of `chars` gets its backslash, every other character is kept.
   */
  function EscapeWith(s: string, chars: seq<char>): string
    decreases |s|
  {
    if s == [] then [] else (if s[0] in chars then ['\\', s[0]] else [s[0]]) + EscapeWith(s[1..], chars)
  }

  /** With all 18 characters, the successive replacements are the per-character escape. */
  lemma {:induction false} EscapeWithAll(s: string)
    ensures EscapeWith(s, SpecialChars) == EscapeLine(s)
    decreases |s|
  {
    if s != [] {
      EscapeWithAll(s[1..]);
    }
  }

  /** `ReplaceAll` with a one-character pattern distributes over concatenation. */
  lemma {:induction false} ReplaceCharAppend(a: string, b: string, d: char, rep: string)
    ensures ReplaceAll(a + b, [d], rep) == ReplaceAll(a, [d], rep) + ReplaceAll(b, [d], rep)
    decreases |a|
  {
    if a != [] {
      assert (a + b)[1..] == a[1..] + b;
      ReplaceCharAppend(a[1..], b, d, rep);
      if [d] <= a + b {
        assert (a + b)[0] == a[0];
        assert [d] <= a;
      } else {
        assert !([d] <= a) by { assert (a + b)[..1] == a[..1]; }
      }
    } else {
      assert a + b == b;
    }
  }

  /**
   * Replacing one more character `d`, not yet handled and not a backslash, extends the
   * escape to `chars + [d]`: the backslashes inserted so far are never escaped again.
   */
  lemma {:induction false} ReplaceOneMore(s: string, chars: seq<char>, d: char)
    requires d !in chars && d != '\\'
    ensures ReplaceAll(EscapeWith(s, chars), [d], ['\\', d]) == EscapeWith(s, chars + [d])
    decreases |s|
  {
    if s != [] {
      var c := s[0];
      var head := if c in chars then ['\\', c] else [c];
      ReplaceCharAppend(head, EscapeWith(s[1..], chars), d, ['\\', d]);
      ReplaceOneMore(s[1..], chars, d);
      if c in chars {
        assert !([d] <= head) && head[1..] == [c];
        assert !([d] <= head[1..]);
        assert head[1..][1..] == [];
      } else if c == d {
        assert [d] <= head && head[1..] == [];
      } else {
        assert !([d] <= head) && head[1..] == [];
      }
    }
  }

  /** The `for char in [...]` loop of replacements on one line. */
  method EscapeMarkdownLine(line: string) returns (escaped: string)
    ensures escaped == EscapeLine(line)
  {
    escaped := line;
    assert escaped == EscapeWith(line, SpecialChars[..0]) by { EscapeWithNone(line); }
    for k := 0 to |SpecialChars|
      invariant escaped == EscapeWith(line, SpecialChars[..k])
    {
      var c := SpecialChars[k];
      assert c !in SpecialChars[..k] && c != '\\' by { SpecialCharsDistinct(k); }
      ReplaceOneMore(line, SpecialChars[..k], c);
      assert SpecialChars[..k] + [c] == SpecialChars[..k + 1];
      escaped := ReplaceAll(escaped, [c], ['\\', c]);
    }
    assert SpecialChars[..|SpecialChars|] == SpecialChars;
    EscapeWithAll(line);
  }

  lemma {:induction false} EscapeWithNone(s: string)
    ensures EscapeWith(s, []) == s
    decreases |s|
  {
    if s != [] {
      EscapeWithNone(s[1..]);
    }
  }

  /** The 18 characters are distinct, and none is a backslash. */
  lemma SpecialCharsDistinct(k: nat)
    requires k < |SpecialChars|
    ensures SpecialChars[k] !in SpecialChars[..k] && SpecialChars[k] != '\\'
  {
  }

  // ---------------------------------------------------------------- the lines

  /** `line.strip().startswith('```')` */
  predicate IsFenceLine(line: string) {
    Fence <= Strip(line)
  }

  /** The code-block flag after a line: a fence line flips it. */
  function FlagAfter(line: string, inCodeBlock: bool): bool {
    if IsFenceLine(line) then !inCodeBlock else inCodeBlock
  }

  /** One cleaned line: fence lines and lines inside a code block are kept, others escaped. */
  function CleanLine(line: string, inCodeBlock: bool): string {
    if IsFenceLine(line) || inCodeBlock then line else EscapeLine(line)
  }

  /** The cleaned lines from `lines` on, starting inside a code block or not. */
  function CleanFrom(lines: seq<string>, inCodeBlock: bool): (r: seq<string>)
    ensures |r| == |lines|
    decreases |lines|
  {
    if lines == [] then []
    else [CleanLine(lines[0], inCodeBlock)] + CleanFrom(lines[1..], FlagAfter(lines[0], inCodeBlock))
  }

  /** Whether line `k` is inside a code block: an odd number of fence lines come before it. */
  function InCodeBefore(lines: seq<string>, k: nat, inCodeBlock: bool): bool
    requires k <= |lines|
  {
    if k == 0 then inCodeBlock else InCodeBefore(lines, k - 1, inCodeBlock) != IsFenceLine(lines[k - 1])
  }

  /**
   * Line by line: fence lines and lines inside a code block are copied as they are, and
   * every other line is escaped; the code-block flag flips at each fence line.
   */
  lemma {:induction false} CleanFromLines(lines: seq<string>, inCodeBlock: bool, k: nat)
    requires k < |lines|
    ensures CleanFrom(lines, inCodeBlock)[k] == CleanLine(lines[k], InCodeBefore(lines, k, inCodeBlock))
    decreases k
  {
    var flag := FlagAfter(lines[0], inCodeBlock);
    if k > 0 {
      var tail := CleanFrom(lines[1..], flag);
      assert tail[k - 1] == CleanLine(lines[k], InCodeBefore(lines, k, inCodeBlock)) by {
        CleanFromLines(lines[1..], flag, k - 1);
        InCodeShift(lines, inCodeBlock, k);
        assert lines[1..][k - 1] == lines[k];
      }
      assert CleanFrom(lines, inCodeBlock)[k] == tail[k - 1] by {
        CleanFromCons(lines, inCodeBlock);
        assert CleanFrom(lines, inCodeBlock)[k] == CleanFrom(lines, inCodeBlock)[1..][k - 1];
      }
    } else {
      CleanFromCons(lines, inCodeBlock);
    }
  }

  /** The first cleaned line, and the rest cleaned with the flag the first line leaves. */
  lemma CleanFromCons(lines: seq<string>, inCodeBlock: bool)
    requires lines != []
    ensures CleanFrom(lines, inCodeBlock)[0] == CleanLine(lines[0], inCodeBlock)
    ensures CleanFrom(lines, inCodeBlock)[1..] == CleanFrom(lines[1..], FlagAfter(lines[0], inCodeBlock))
  {
  }

  /** Counting fences from the second line on, with the flag after the first line. */
  lemma {:induction false} InCodeShift(lines: seq<string>, inCodeBlock: bool, k: nat)
    requires 0 < k <= |lines|
    ensures InCodeBefore(lines[1..], k - 1, FlagAfter(lines[0], inCodeBlock)) == InCodeBefore(lines, k, inCodeBlock)
    decreases k
  {
    if k > 1 {
      InCodeShift(lines, inCodeBlock, k - 1);
      assert lines[1..][k - 2] == lines[k - 1];
    }
  }

  /** The text before the closing fence is considered: the lines cleaned, joined and cut. */
  function Truncated(text: string): (r: string)
    ensures |r| <= MaxLength
  {
    var joined := JoinLines(CleanFrom(SplitLines(text), false));
    if |joined| <= MaxLength then joined else joined[..MaxLength]
  }

  // ---------------------------------------------------------------- fences

  /** `s.count('```')`: non-overlapping occurrences, left to right. */
  function FenceCount(s: string): nat
    decreases |s|
  {
    if |s| < 3 then 0
    else if Fence <= s then 1 + FenceCount(s[3..])
    else FenceCount(s[1..])
  }

  /** No occurrence crosses a character that is not a backtick, so counts add up across it. */
  lemma {:induction false} FenceCountAppend(t: string, u: string)
    requires u != [] && u[0] != '`'
    ensures FenceCount(t + u) == FenceCount(t) + FenceCount(u)
    decreases |t|
  {
    if t == [] {
      assert t + u == u;
    } else {
      var s := t + u;
      if |t| >= 3 && Fence <= t {
        assert s[..3] == t[..3];
        assert s[3..] == t[3..] + u;
        FenceCountAppend(t[3..], u);
      } else {
        assert !(Fence <= s) by {
          if |t| >= 3 {
            assert s[..3] == t[..3];
          } else {
            assert s[|t|] == u[0];
          }
        }
        assert s[1..] == t[1..] + u;
        FenceCountAppend(t[1..], u);
        assert |t| < 3 ==> FenceCount(t) == 0;
        if |t| >= 3 {
          assert FenceCount(t) == FenceCount(t[1..]);
        } else {
          FenceCountShort(t[1..]);
        }
      }
    }
  }

  lemma FenceCountShort(t: string)
    requires |t| < 3
    ensures FenceCount(t) == 0
  {
  }

  /** A newline and a fence add exactly one occurrence to any text. */
  lemma ClosingFenceAddsOne(t: string)
    ensures FenceCount(t + "\n```") == FenceCount(t) + 1
  {
    var u := "\n```";
    FenceCountAppend(t, u);
    assert u[1..] == Fence && Fence[3..] == [];
    assert FenceCount(u[1..]) == 1;
  }

  /** The closing step: a newline and a fence are added when the fences do not pair up. */
  function CloseFences(t: string): string {
    if FenceCount(t) % 2 != 0 then t + "\n```" else t
  }

  /** `clean_markdown` as a function of its input. */
  function CleanMarkdownText(text: string): string {
    CloseFences(Truncated(text))
  }

  /**
   * After closing, the fences pair up; the text is kept as a prefix, and the fence is
   * added exactly when the count was odd.
   */
  lemma ClosedFencesPair(t: string)
    ensures FenceCount(CloseFences(t)) % 2 == 0
    ensures t <= CloseFences(t) && |CloseFences(t)| <= |t| + 4
    ensures FenceCount(t) % 2 == 0 <==> CloseFences(t) == t
  {
    ClosingFenceAddsOne(t);
  }

  /**
   * The answer always holds an even number of fences, is at most 4004 characters long,
   * and begins with the cut text, to which at most the closing fence is added.
   */
  lemma CleanMarkdownShape(text: string)
    ensures FenceCount(CleanMarkdownText(text)) % 2 == 0
    ensures |CleanMarkdownText(text)| <= MaxLength + 4
    ensures Truncated(text) <= CleanMarkdownText(text)
  {
    ClosedFencesPair(Truncated(text));
  }

  /** Plain text without special characters, fences or newlines, and short enough, comes back as it is. */
  lemma PlainLineUnchanged(text: string)
    requires '\n' !in text && |text| <= MaxLength
    requires forall k :: 0 <= k < |text| ==> text[k] !in SpecialChars
    ensures CleanMarkdownText(text) == text
  {
    assert SplitLines(text) == [text] by { assert IndexOf(text, '\n').None?; }
    assert '`' in SpecialChars;
    assert !IsFenceLine(text) by { NoBacktickNoFenceLine(text); }
    assert CleanLine(text, false) == text by { PlainEscape(text); }
    assert CleanFrom([text], false) == [text];
    assert Truncated(text) == text;
    NoBacktickNoFence(text);
  }

  /** Stripping only removes characters, so a line without backticks is no fence line. */
  lemma NoBacktickNoFenceLine(s: string)
    requires forall k :: 0 <= k < |s| ==> s[k] != '`'
    ensures !IsFenceLine(s)
  {
    var l := TrimLeft(s);
    var r := TrimRight(l);
    if l != [] {
      assert l[0] == s[|s| - |l|];
    }
    if r != [] {
      assert r[0] == l[0];
    }
  }

  lemma {:induction false} PlainEscape(s: string)
    requires forall k :: 0 <= k < |s| ==> s[k] !in SpecialChars
    ensures EscapeLine(s) == s
    decreases |s|
  {
    if s != [] {
      PlainEscape(s[1..]);
    }
  }

  lemma {:induction false} NoBacktickNoFence(s: string)
    requires forall k :: 0 <= k < |s| ==> s[k] != '`'
    ensures FenceCount(s) == 0
    decreases |s|
  {
    if |s| >= 3 {
      assert !(Fence <= s) by { assert s[0] != Fence[0]; }
      NoBacktickNoFence(s[1..]);
    }
  }

  // ---------------------------------------------------------------- the procedure

  /** `clean_markdown`: the loop over the lines with the code-block flag, then join, cut and close. */
  method CleanMarkdown(text: string) returns (cleanedText: string)
    ensures cleanedText == CleanMarkdownText(text)
  {
    var lines := SplitLines(text);
    var inCodeBlock := false;
    var cleanedLines: seq<string> := [];
    ghost var all := CleanFrom(lines, false);
    for i := 0 to |lines|
      invariant cleanedLines + CleanFrom(lines[i..], inCodeBlock) == all
    {
      var line := lines[i];
      assert lines[i..][0] == line && lines[i..][1..] == lines[i + 1..];
      ghost var before := cleanedLines;
      var cleaned: string;
      if IsFenceLine(line) {
        inCodeBlock := !inCodeBlock;
        cleaned := line;
      } else if inCodeBlock {
        cleaned := line;
      } else {
        cleaned := EscapeMarkdownLine(line);
      }
      cleanedLines := cleanedLines + [cleaned];
      ConcatAssoc(before, [cleaned], CleanFrom(lines[i + 1..], inCodeBlock));
    }
    assert lines[|lines|..] == [];
    assert cleanedLines + [] == cleanedLines;
    var joined := JoinLines(cleanedLines);
    cleanedText := if |joined| <= MaxLength then joined else joined[..MaxLength];
    assert cleanedText == Truncated(text);
    if FenceCount(cleanedText) % 2 != 0 {
      cleanedText := cleanedText + "\n```";
    }
  }
}
