/**
 * The tag repair of `validate_and_fix_html` (telegram_bot.py; the same scanner is
 * copied twice in utils.py): a left-to-right scan with a stack of open tags that keeps
 * well-nested `b`, `i` and `a` tags, escapes other opening tags, drops stray closing
 * tags and closes what is still open at the end; then a final `re.sub` that deletes
 * any remaining `<...>` span that is not a `b`, `i` or `a` tag.
 *
 * The scan is specified by the pieces it emits (`Scan`), which are proved well nested;
 * the method `ScanTags` is the loop itself, proved to emit exactly their rendering.
 */
module Html {
  import opened Wrappers
  import opened Text
  import opened Markup

  /** `supported_tags = ['b', 'i', 'a']` (case-sensitive). */
  predicate IsSupported(name: string) {
    name == "b" || name == "i" || name == "a"
  }

  /** Length of the run of ASCII letters at the start of `s`. */
  function LetterRun(s: string): (n: nat)
    ensures n <= |s|
    ensures forall i :: 0 <= i < n ==> IsAsciiLetter(s[i])
    ensures n < |s| ==> !IsAsciiLetter(s[n])
    decreases |s|
  {
    if s != [] && IsAsciiLetter(s[0]) then 1 + LetterRun(s[1..]) else 0
  }

  /** A tag recognised at the start of the remaining text: its name and the length of the whole match. */
  datatype TagMatch = TagMatch(name: string, len: nat)

  /** `re.match(r'</([a-zA-Z]+)>', s)` */
  function MatchClose(s: string): (r: Option<TagMatch>)
    ensures r.Some? ==> r.value.len == |r.value.name| + 3 <= |s| && |r.value.name| > 0
    ensures r.Some? ==> s[..r.value.len] == "</" + r.value.name + ">"
  {
    if |s| >= 2 && s[0] == '<' && s[1] == '/' then
      var n := LetterRun(s[2..]);
      if n > 0 && 2 + n < |s| && s[2 + n] == '>' then
        assert s[..n + 3] == "</" + s[2..2 + n] + ">";
        Some(TagMatch(s[2..2 + n], n + 3))
      else None
    else None
  }

  /**
   * `re.match(r'<([a-zA-Z]+)(?:\s+[^>]*)?>', s)`: a letter run, then either `>` at once
   * or whitespace and everything up to the first `>`. A shorter letter run never helps,
   * since a letter is neither `>` nor whitespace.
   */
  function MatchOpen(s: string): (r: Option<TagMatch>)
    ensures r.Some? ==> 2 + |r.value.name| <= r.value.len <= |s| && |r.value.name| > 0
    ensures r.Some? ==> s[0] == '<' && s[1..1 + |r.value.name|] == r.value.name
    ensures r.Some? ==> s[r.value.len - 1] == '>' && '>' !in s[..r.value.len - 1]
    ensures r.Some? ==> s[1 + |r.value.name|] == '>' || IsSpace(s[1 + |r.value.name|])
  {
    if |s| >= 2 && s[0] == '<' then
      var n := LetterRun(s[1..]);
      if n == 0 || 1 + n >= |s| then None
      else if s[1 + n] == '>' then
        assert forall k :: 1 <= k < 1 + n ==> s[k] == s[1..][k - 1];
        Some(TagMatch(s[1..1 + n], n + 2))
      else if IsSpace(s[1 + n]) then
        match IndexOf(s[1 + n..], '>')
        case Some(d) =>
          assert forall k :: 1 <= k < 1 + n ==> s[k] == s[1..][k - 1];
          assert s[..1 + n + d] == s[..1 + n] + s[1 + n..][..d];
          Some(TagMatch(s[1..1 + n], 1 + n + d + 1))
        case None => None
      else None
    else None
  }

  /** What the scanner emits, one step at a time. */
  datatype Piece =
    | Plain(c: char)                     // a character copied as it is
    | OpenTag(name: string, raw: string) // a supported opening tag, copied verbatim
    | CloseTag(name: string)             // a closing tag that matched the top of the stack
    | Escaped(raw: string)               // an unsupported opening tag, to be escaped

  /** `raw.replace('<', '&lt;').replace('>', '&gt;')` */
  function EscapeAngles(raw: string): (r: string)
    ensures '<' !in r && '>' !in r
  {
    ReplaceRemoves(raw, '<', "&lt;");
    ReplaceKeepsAbsent(ReplaceAll(raw, "<", "&lt;"), ">", "&gt;", '<');
    ReplaceRemoves(ReplaceAll(raw, "<", "&lt;"), '>', "&gt;");
    ReplaceAll(ReplaceAll(raw, "<", "&lt;"), ">", "&gt;")
  }

  function Render(p: Piece): string {
    match p
    case Plain(c) => [c]
    case OpenTag(_, raw) => raw
    case CloseTag(name) => "</" + name + ">"
    case Escaped(raw) => EscapeAngles(raw)
  }

  function RenderAll(ps: seq<Piece>): string {
    if ps == [] then [] else Render(ps[0]) + RenderAll(ps[1..])
  }

  lemma RenderAllSingle(p: Piece)
    ensures RenderAll([p]) == Render(p)
  {
    assert [p][1..] == [];
  }

  lemma {:induction false} RenderAllAppend(a: seq<Piece>, b: seq<Piece>)
    ensures RenderAll(a + b) == RenderAll(a) + RenderAll(b)
  {
    if a != [] {
      assert (a + b)[1..] == a[1..] + b;
      RenderAllAppend(a[1..], b);
    } else {
      assert a + b == b;
    }
  }

  /** The effect of one scanner step: what it emits, where it continues, and the new stack. */
  datatype StepResult = StepResult(pieces: seq<Piece>, next: nat, stack: seq<string>)

  /** A `<` followed by `/`: a matching closing tag is emitted and popped, any other one is skipped. */
  function CloseStep(t: string, i: nat, stack: seq<string>): (r: StepResult)
    requires i < |t|
    ensures i < r.next <= |t|
  {
    match MatchClose(t[i..])
    case Some(m) =>
      if IsSupported(m.name) && stack != [] && stack[|stack| - 1] == m.name then
        StepResult([CloseTag(m.name)], i + m.len, stack[..|stack| - 1])
      else
        StepResult([], i + m.len, stack)
    case None => StepResult([Plain(t[i])], i + 1, stack)
  }

  /** A `<` followed by anything else: a supported tag is copied and pushed, another tag escaped. */
  function OpenStep(t: string, i: nat, stack: seq<string>): (r: StepResult)
    requires i < |t|
    ensures i < r.next <= |t|
  {
    match MatchOpen(t[i..])
    case Some(m) =>
      if IsSupported(m.name) then
        StepResult([OpenTag(m.name, t[i..i + m.len])], i + m.len, stack + [m.name])
      else
        StepResult([Escaped(t[i..i + m.len])], i + m.len, stack)
    case None => StepResult([Plain(t[i])], i + 1, stack)
  }

  /** One iteration of the `while i < len(text)` loop. */
  function Step(t: string, i: nat, stack: seq<string>): (r: StepResult)
    requires i < |t|
    ensures i < r.next <= |t|
  {
    if t[i] == '<' && i + 1 < |t| then
      if t[i + 1] == '/' then CloseStep(t, i, stack) else OpenStep(t, i, stack)
    else StepResult([Plain(t[i])], i + 1, stack)
  }

  /** The closing tags appended for the tags still open, innermost first. */
  function Closing(stack: seq<string>): seq<Piece>
    decreases |stack|
  {
    if stack == [] then [] else [CloseTag(stack[|stack| - 1])] + Closing(stack[..|stack| - 1])
  }

  /** Everything the scanner emits from position `i` on with `stack` open. */
  function ScanFrom(t: string, i: nat, stack: seq<string>): seq<Piece>
    decreases |t| - i
  {
    if i >= |t| then Closing(stack)
    else
      var r := Step(t, i, stack);
      r.pieces + ScanFrom(t, r.next, r.stack)
  }

  function Scan(t: string): seq<Piece> {
    ScanFrom(t, 0, [])
  }

  /** Replays the tag pieces on a stack of open names; `None` when a closing tag does not match. */
  function Replay(stack: seq<string>, ps: seq<Piece>): Option<seq<string>>
    decreases |ps|
  {
    if ps == [] then Some(stack)
    else match ps[0]
      case OpenTag(name, _) => Replay(stack + [name], ps[1..])
      case CloseTag(name) =>
        if stack != [] && stack[|stack| - 1] == name then Replay(stack[..|stack| - 1], ps[1..]) else None
      case _ => Replay(stack, ps[1..])
  }

  /** Every closing tag closes the innermost open tag, and nothing is left open. */
  predicate WellNested(ps: seq<Piece>) {
    Replay([], ps) == Some([])
  }

  /**
   * `raw` is `<`, the tag name, then `>` at once or whitespace and anything but `>` up to
   * a final `>`: the shape of a complete match of the opening-tag pattern.
   */
  predicate OpenTagText(name: string, raw: string) {
    |raw| >= |name| + 2 && raw[0] == '<' && raw[1..1 + |name|] == name
    && (raw[1 + |name|] == '>' || IsSpace(raw[1 + |name|]))
    && raw[|raw| - 1] == '>' && '>' !in raw[..|raw| - 1]
  }

  /** Every tag piece names a supported tag, and an opening tag's text is a complete match of the tag pattern. */
  predicate PieceOk(p: Piece) {
    match p
    case OpenTag(name, raw) => IsSupported(name) && OpenTagText(name, raw)
    case CloseTag(name) => IsSupported(name)
    case _ => true
  }

  predicate PiecesOk(ps: seq<Piece>) {
    forall k :: 0 <= k < |ps| ==> PieceOk(ps[k])
  }

  lemma {:induction false} ReplayAppend(stack: seq<string>, a: seq<Piece>, b: seq<Piece>)
    ensures Replay(stack, a + b) == match Replay(stack, a) case Some(s) => Replay(s, b) case None => None
    decreases |a|
  {
    if a == [] {
      assert a + b == b;
    } else {
      assert (a + b)[0] == a[0] && (a + b)[1..] == a[1..] + b;
      match a[0]
      case OpenTag(name, _) => ReplayAppend(stack + [name], a[1..], b);
      case CloseTag(name) =>
        if stack != [] && stack[|stack| - 1] == name {
          ReplayAppend(stack[..|stack| - 1], a[1..], b);
        }
      case Plain(_) => ReplayAppend(stack, a[1..], b);
      case Escaped(_) => ReplayAppend(stack, a[1..], b);
    }
  }

  /** The forced closing tags empty any stack. */
  lemma {:induction false} ReplayClosing(stack: seq<string>)
    ensures Replay(stack, Closing(stack)) == Some([])
    decreases |stack|
  {
    if stack != [] {
      ReplayClosing(stack[..|stack| - 1]);
    }
  }

  /** Replaying a step's pieces yields exactly the stack the step leaves. */
  lemma StepReplay(t: string, i: nat, stack: seq<string>)
    requires i < |t|
    ensures Replay(stack, Step(t, i, stack).pieces) == Some(Step(t, i, stack).stack)
  {
  }

  /** From any position and any stack, what the scanner emits replays to the empty stack. */
  lemma {:induction false} ScanFromReplay(t: string, i: nat, stack: seq<string>)
    ensures Replay(stack, ScanFrom(t, i, stack)) == Some([])
    decreases |t| - i
  {
    if i >= |t| {
      ReplayClosing(stack);
    } else {
      var r := Step(t, i, stack);
      StepReplay(t, i, stack);
      ReplayAppend(stack, r.pieces, ScanFrom(t, r.next, r.stack));
      ScanFromReplay(t, r.next, r.stack);
    }
  }

  /** The scanner's output is well nested: balance holds before the final regex pass. */
  lemma ScanWellNested(t: string)
    ensures WellNested(Scan(t))
  {
    ScanFromReplay(t, 0, []);
  }

  lemma StepPiecesOk(t: string, i: nat, stack: seq<string>)
    requires i < |t| && forall k :: 0 <= k < |stack| ==> IsSupported(stack[k])
    ensures PiecesOk(Step(t, i, stack).pieces)
    ensures forall k :: 0 <= k < |Step(t, i, stack).stack| ==> IsSupported(Step(t, i, stack).stack[k])
  {
    if t[i] == '<' && i + 1 < |t| && t[i + 1] != '/' {
      OpenStepOk(t, i, stack);
    }
  }

  lemma OpenStepOk(t: string, i: nat, stack: seq<string>)
    requires i < |t| && forall k :: 0 <= k < |stack| ==> IsSupported(stack[k])
    ensures PiecesOk(OpenStep(t, i, stack).pieces)
    ensures forall k :: 0 <= k < |OpenStep(t, i, stack).stack| ==> IsSupported(OpenStep(t, i, stack).stack[k])
  {
    var m := MatchOpen(t[i..]);
    if m.Some? && IsSupported(m.value.name) {
      var raw := t[i..i + m.value.len];
      OpenTagCutOut(t, i);
      assert PiecesOk([OpenTag(m.value.name, raw)]);
      var st := stack + [m.value.name];
      assert forall k :: 0 <= k < |st| ==> st[k] == if k < |stack| then stack[k] else m.value.name;
    }
  }

  /** The opening tag matched at `i` has the shape of a whole tag once cut out of the text. */
  lemma OpenTagCutOut(t: string, i: nat)
    requires i < |t| && MatchOpen(t[i..]).Some?
    ensures OpenTagText(MatchOpen(t[i..]).value.name, t[i..i + MatchOpen(t[i..]).value.len])
  {
    var u := t[i..];
    var m := MatchOpen(u).value;
    var raw := t[i..i + m.len];
    assert raw == u[..m.len];
    assert raw[..|raw| - 1] == u[..m.len - 1];
    assert raw[1..1 + |m.name|] == u[1..1 + |m.name|];
  }

  lemma {:induction false} ClosingOk(stack: seq<string>)
    requires forall k :: 0 <= k < |stack| ==> IsSupported(stack[k])
    ensures PiecesOk(Closing(stack))
    decreases |stack|
  {
    if stack != [] {
      ClosingOk(stack[..|stack| - 1]);
    }
  }

  lemma {:induction false} ScanFromOk(t: string, i: nat, stack: seq<string>)
    requires forall k :: 0 <= k < |stack| ==> IsSupported(stack[k])
    ensures PiecesOk(ScanFrom(t, i, stack))
    decreases |t| - i
  {
    if i >= |t| {
      ClosingOk(stack);
    } else {
      var r := Step(t, i, stack);
      StepPiecesOk(t, i, stack);
      ScanFromOk(t, r.next, r.stack);
    }
  }

  /** Only `b`, `i` and `a` tags come out of the scanner, and each opening tag is a whole tag. */
  lemma ScanOnlySupported(t: string)
    ensures PiecesOk(Scan(t))
  {
    ScanFromOk(t, 0, []);
  }

  /** The branch of the loop body for `</`. */
  method ScanClose(text: string, i: nat, tagStack: seq<string>) returns (emitted: string, next: nat, newStack: seq<string>)
    requires i < |text|
    ensures var r := CloseStep(text, i, tagStack); emitted == RenderAll(r.pieces) && next == r.next && newStack == r.stack
  {
    var m := MatchClose(text[i..]);
    if m.Some? {
      var tag := m.value.name;
      if IsSupported(tag) && tagStack != [] && tagStack[|tagStack| - 1] == tag {
        newStack := tagStack[..|tagStack| - 1];
        emitted := text[i..][..m.value.len];
        next := i + m.value.len;
      } else {
        emitted, next, newStack := "", i + m.value.len, tagStack;
      }
    } else {
      emitted, next, newStack := [text[i]], i + 1, tagStack;
    }
  }

  /** The branch of the loop body for `<` not followed by `/`. */
  method ScanOpen(text: string, i: nat, tagStack: seq<string>) returns (emitted: string, next: nat, newStack: seq<string>)
    requires i < |text|
    ensures var r := OpenStep(text, i, tagStack); emitted == RenderAll(r.pieces) && next == r.next && newStack == r.stack
  {
    var m := MatchOpen(text[i..]);
    if m.Some? {
      var tag := m.value.name;
      var whole := text[i..i + m.value.len];
      if IsSupported(tag) {
        newStack := tagStack + [tag];
        emitted := whole;
      } else {
        newStack := tagStack;
        emitted := EscapeAngles(whole);
      }
      next := i + m.value.len;
    } else {
      emitted, next, newStack := [text[i]], i + 1, tagStack;
    }
  }

  /** One iteration of the loop body: a `<` that may open a tag, or a character copied as it is. */
  method ScanOne(text: string, i: nat, tagStack: seq<string>) returns (emitted: string, next: nat, newStack: seq<string>)
    requires i < |text|
    ensures var r := Step(text, i, tagStack); emitted == RenderAll(r.pieces) && next == r.next && newStack == r.stack
  {
    if text[i] == '<' && i + 1 < |text| {
      if text[i + 1] == '/' {
        emitted, next, newStack := ScanClose(text, i, tagStack);
      } else {
        emitted, next, newStack := ScanOpen(text, i, tagStack);
      }
    } else {
      emitted, next, newStack := [text[i]], i + 1, tagStack;
    }
  }

  /** `ScanFrom` renders one step at a time. */
  lemma ScanFromStepRender(t: string, i: nat, stack: seq<string>)
    requires i < |t|
    ensures var r := Step(t, i, stack); RenderAll(ScanFrom(t, i, stack)) == RenderAll(r.pieces) + RenderAll(ScanFrom(t, r.next, r.stack))
  {
    var r := Step(t, i, stack);
    RenderAllAppend(r.pieces, ScanFrom(t, r.next, r.stack));
  }

  /**
   * The scanning loop of `validate_and_fix_html`, including the `while tag_stack` loop
   * that closes what is still open.
   */
  method ScanTags(text: string) returns (fixedText: string)
    ensures fixedText == RenderAll(Scan(text))
  {
    var tagStack: seq<string> := [];
    fixedText := "";
    var i := 0;
    ghost var all := RenderAll(Scan(text));
    assert fixedText + RenderAll(ScanFrom(text, i, tagStack)) == all;
    while i < |text|
      invariant i <= |text|
      invariant fixedText + RenderAll(ScanFrom(text, i, tagStack)) == all
      decreases |text| - i
    {
      ScanFromStepRender(text, i, tagStack);
      var emitted: string;
      ghost var before := fixedText;
      emitted, i, tagStack := ScanOne(text, i, tagStack);
      fixedText := fixedText + emitted;
      ConcatAssoc(before, emitted, RenderAll(ScanFrom(text, i, tagStack)));
    }
    assert ScanFrom(text, i, tagStack) == Closing(tagStack);
    fixedText := CloseOpenTags(fixedText, tagStack);
  }

  /** The `while tag_stack` loop: append a closing tag for each tag still open, innermost first. */
  method CloseOpenTags(text: string, tagStack: seq<string>) returns (fixedText: string)
    ensures fixedText == text + RenderAll(Closing(tagStack))
  {
    fixedText := text;
    var stack := tagStack;
    while stack != []
      invariant fixedText + RenderAll(Closing(stack)) == text + RenderAll(Closing(tagStack))
      decreases |stack|
    {
      var tag := stack[|stack| - 1];
      stack := stack[..|stack| - 1];
      RenderAllAppend([CloseTag(tag)], Closing(stack));
      fixedText := fixedText + "</" + tag + ">";
    }
  }
}
