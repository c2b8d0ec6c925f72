/**
 * The whole of `validate_and_fix_html` (telegram_bot.py): the three markdown rewrites,
 * the tag scanner, and the final `re.sub(r'<[^>]+>', ...)` pass that deletes every
 * `<...>` span that is not a `b`, `i` or `a` tag. Also the utils.py copy, whose
 * BeautifulSoup pre-pass is taken as an outcome given from outside.
 */
module Sanitizer {
  import opened Wrappers
  import opened Text
  import opened Markup
  import opened Html

  /**
   * The length of the `<[^>]+>` match at the start of `s`: a `<`, at least one
   * character other than `>`, then the first `>`.
   */
  function SpanAt(s: string): (r: Option<nat>)
    ensures r.Some? ==> 3 <= r.value <= |s| && s[0] == '<' && s[r.value - 1] == '>' && '>' !in s[..r.value - 1]
  {
    if |s| >= 2 && s[0] == '<' && s[1] != '>' then
      match IndexOf(s[1..], '>')
      case Some(d) =>
        assert s[..d + 1] == [s[0]] + s[1..][..d];
        Some(d + 2)
      case None => None
    else None
  }

  /**
   * `re.match(r'</?(b|i|a)(?:\s+[^>]*)?>', span)` for a span whose only `>` is its last
   * character: an optional `/`, one of `b`, `i`, `a`, then `>` or whitespace.
   */
  predicate KeepSpan(span: string) {
    var body := if |span| > 1 && span[1] == '/' then span[2..] else if span != [] then span[1..] else [];
    |body| >= 2 && (body[0] == 'b' || body[0] == 'i' || body[0] == 'a') && (body[1] == '>' || IsSpace(body[1]))
  }

  /** The final `re.sub`: a span is kept when it is a `b`, `i` or `a` tag and deleted otherwise. */
  function FinalPass(s: string): string
    decreases |s|
  {
    if s == [] then []
    else match SpanAt(s)
      case Some(n) => (if KeepSpan(s[..n]) then s[..n] else []) + FinalPass(s[n..])
      case None => [s[0]] + FinalPass(s[1..])
  }

  /** The final pass only ever removes characters. */
  lemma {:induction false} FinalPassShrinks(s: string)
    ensures |FinalPass(s)| <= |s|
    decreases |s|
  {
    if s != [] {
      match SpanAt(s)
      case Some(n) => FinalPassShrinks(s[n..]);
      case None => FinalPassShrinks(s[1..]);
    }
  }

  /** A character other than `<` starts no span and is copied. */
  lemma FinalPassCopies(c: char, rest: string)
    requires c != '<'
    ensures FinalPass([c] + rest) == [c] + FinalPass(rest)
  {
    assert ([c] + rest)[1..] == rest;
  }

  /** Text without `<` in front of the rest passes through unchanged. */
  lemma {:induction false} FinalPassPlainPrefix(x: string, rest: string)
    requires '<' !in x
    ensures FinalPass(x + rest) == x + FinalPass(rest)
    decreases |x|
  {
    if x != [] {
      assert x + rest == [x[0]] + (x[1..] + rest);
      FinalPassCopies(x[0], x[1..] + rest);
      FinalPassPlainPrefix(x[1..], rest);
    } else {
      assert x + rest == rest;
    }
  }

  /** Text without `<` is left as it is by the final pass. */
  lemma FinalPassNoAngle(s: string)
    requires '<' !in s
    ensures FinalPass(s) == s
  {
    FinalPassPlainPrefix(s, []);
    assert s + [] == s;
  }

  /** A kept tag in front of the rest is one whole span, and it is kept. */
  lemma FinalPassKeepsTag(raw: string, rest: string)
    requires |raw| >= 3 && raw[0] == '<' && raw[1] != '>' && raw[|raw| - 1] == '>' && '>' !in raw[..|raw| - 1]
    requires KeepSpan(raw)
    ensures FinalPass(raw + rest) == raw + FinalPass(rest)
  {
    var s := raw + rest;
    var d := |raw| - 2;
    assert s[1..][..d] == raw[1..|raw| - 1];
    assert '>' !in raw[1..|raw| - 1] by {
      assert raw[1..|raw| - 1] == raw[..|raw| - 1][1..];
    }
    IndexOfUnique(s[1..], '>', d);
    assert SpanAt(s) == Some(|raw|);
    assert s[..|raw|] == raw;
    assert s[|raw|..] == rest;
  }

  /** The scanner never copies `<` as a plain character. */
  predicate NoStrayAngle(ps: seq<Piece>) {
    forall k :: 0 <= k < |ps| ==> ps[k] != Plain('<')
  }

  /** One emitted piece in front of the rest passes the final pass unchanged. */
  lemma FinalPassKeepsPiece(p: Piece, rest: string)
    requires PieceOk(p) && p != Plain('<')
    ensures FinalPass(Render(p) + rest) == Render(p) + FinalPass(rest)
  {
    match p
    case Plain(c) => FinalPassCopies(c, rest);
    case Escaped(raw) => FinalPassPlainPrefix(EscapeAngles(raw), rest);
    case OpenTag(name, raw) =>
      assert raw[..|raw| - 1][1] == raw[1];
      assert raw[1..2] == name;
      FinalPassKeepsTag(raw, rest);
    case CloseTag(name) =>
      var raw := "</" + name + ">";
      assert raw[..|raw| - 1] == "</" + name;
      FinalPassKeepsTag(raw, rest);
  }

  /** When the scanner copied no stray `<`, the final pass changes nothing it emitted. */
  lemma {:induction false} FinalPassKeepsScan(ps: seq<Piece>)
    requires PiecesOk(ps) && NoStrayAngle(ps)
    ensures FinalPass(RenderAll(ps)) == RenderAll(ps)
    decreases |ps|
  {
    if ps != [] {
      assert PiecesOk(ps[1..]) && NoStrayAngle(ps[1..]) by {
        assert forall k :: 0 <= k < |ps| - 1 ==> ps[1..][k] == ps[k + 1];
      }
      FinalPassKeepsPiece(ps[0], RenderAll(ps[1..]));
      FinalPassKeepsScan(ps[1..]);
    }
  }

  /** `validate_and_fix_html` as a function of its input. */
  function Sanitize(text: string): string {
    FinalPass(RenderAll(Scan(Rewrite(text))))
  }

  /** `validate_and_fix_html`: the rewrites, the scanning loop, then the final pass. */
  method ValidateAndFixHtml(text: string) returns (fixedText: string)
    ensures fixedText == Sanitize(text)
    ensures |fixedText| <= |RenderAll(Scan(Rewrite(text)))|
  {
    var rewritten := Rewrite(text);
    fixedText := ScanTags(rewritten);
    FinalPassShrinks(fixedText);
    fixedText := FinalPass(fixedText);
  }

  /**
   * When the scanner copied no stray `<`, the answer is exactly what the scanner emitted:
   * only `b`, `i` and `a` tags, each closing tag closing the innermost open one, and none
   * left open.
   */
  lemma SanitizeIsScanOutput(text: string)
    requires NoStrayAngle(Scan(Rewrite(text)))
    ensures Sanitize(text) == RenderAll(Scan(Rewrite(text)))
    ensures WellNested(Scan(Rewrite(text))) && PiecesOk(Scan(Rewrite(text)))
  {
    ScanOnlySupported(Rewrite(text));
    ScanWellNested(Rewrite(text));
    FinalPassKeepsScan(Scan(Rewrite(text)));
  }

  /** Without `<` in the text, the scanner copies it character by character and opens nothing. */
  lemma {:induction false} ScanNoAngle(t: string, i: nat)
    requires i <= |t| && '<' !in t
    ensures RenderAll(ScanFrom(t, i, [])) == t[i..]
    decreases |t| - i
  {
    if i < |t| {
      assert t[i] in t;
      assert Step(t, i, []) == StepResult([Plain(t[i])], i + 1, []);
      ScanNoAngle(t, i + 1);
      RenderAllAppend([Plain(t[i])], ScanFrom(t, i + 1, []));
      RenderAllSingle(Plain(t[i]));
      assert t[i..] == [t[i]] + t[i + 1..];
    }
  }

  /** Text with no `<`, `*` or `#` comes back unchanged. */
  lemma SanitizePlain(text: string)
    requires '<' !in text && '*' !in text && '#' !in text
    ensures Sanitize(text) == text
  {
    RewritePlain(text);
    ScanNoAngle(text, 0);
    assert text[0..] == text;
    FinalPassNoAngle(text);
  }

  /**
   * A `<` that starts no tag swallows the next tag in the final pass: `1 < 2 <b>x</b>`
   * loses `< 2 <b>` and becomes `1 x</b>`, a closing tag that closes nothing.
   */
  lemma StrayAngleSwallowsTag(s: string)
    requires s == "1 < 2 <b>x</b>"
    ensures FinalPass(s) == s[..2] + s[9..]
  {
    var t := s[2..];
    assert s == s[..2] + t && s[..2] == "1 " && t[7..] == s[9..];
    FinalPassPlainPrefix(s[..2], t);
    StrayAngleSpan(t);
    DanglingCloseKept(t[7..]);
  }

  lemma StrayAngleSpan(t: string)
    requires t == "< 2 <b>x</b>"
    ensures FinalPass(t) == FinalPass(t[7..]) && t[7..] == "x</b>"
  {
    assert t[1..][5] == '>' && '>' !in t[1..][..5];
    IndexOfUnique(t[1..], '>', 5);
    assert !KeepSpan(t[..7]);
  }

  lemma DanglingCloseKept(u: string)
    requires u == "x</b>"
    ensures FinalPass(u) == u
  {
    var tag := u[1..];
    assert u == [u[0]] + tag && u[0] != '<';
    FinalPassCopies(u[0], tag);
    assert tag[..3] == "</b";
    FinalPassKeepsTag(tag, []);
    assert tag + [] == tag;
    FinalPassNoAngle([]);
  }

  /** What BeautifulSoup made of the text in the utils.py copy. */
  datatype SoupOutcome =
    | NoTag                     // `soup.find()` found no tag
    | Serialized(markup: string) // `str(soup)`
    | ParserError               // the parser raised

  /**
   * The utils.py `validate_and_fix_html`: text in which the parser finds no tag is
   * returned as it is (its markdown is not rewritten); otherwise the serialized markup is
   * sanitized, or, when the parser raised, the original text is sanitized.
   */
  function UtilsSanitize(text: string, soup: SoupOutcome): (r: string)
    ensures soup.NoTag? ==> r == text
    ensures soup.Serialized? ==> r == Sanitize(soup.markup)
    ensures soup.ParserError? ==> r == Sanitize(text)
  {
    match soup
    case NoTag => text
    case Serialized(markup) => Sanitize(markup)
    case ParserError => Sanitize(text)
  }

  /** On plain text the two copies agree whatever the parser reports, as long as it keeps plain text as it is. */
  lemma UtilsAgreesOnPlainText(text: string, soup: SoupOutcome)
    requires '<' !in text && '*' !in text && '#' !in text
    requires soup.Serialized? ==> soup.markup == text
    ensures UtilsSanitize(text, soup) == Sanitize(text)
  {
    SanitizePlain(text);
  }

  /**
   * The two copies part ways on markdown without tags: the utils.py copy hands `**x**`
   * back untouched, while the reference turns it into `<b>x</b>`.
   */
  lemma UtilsNoTagKeepsMarkdown(text: string)
    requires text == "**x**"
    ensures UtilsSanitize(text, NoTag) == text
    ensures Sanitize(text) == "<b>x</b>" != text
  {
    assert text == "**" + "x" + "**";
    SanitizeBoldX(text, "x");
  }

  /** The reference on `**x**`: the bold rewrite, then a scan that keeps the one `b` element. */
  lemma SanitizeBoldX(text: string, x: string)
    requires x == "x" && text == "**" + x + "**"
    ensures Sanitize(text) == "<b>x</b>"
  {
    var t := Rewrite(text);
    assert t == "<b>x</b>" by { RewriteBoldX(text, x); }
    var ps := Scan(t);
    assert ps == [OpenTag("b", "<b>"), Plain('x'), CloseTag("b")] by { ScanBoldX(t); }
    assert NoStrayAngle(ps);
    SanitizeIsScanOutput(text);
    assert RenderAll(ps) == "<b>x</b>" by { RenderBoldX(); }
  }

  /** The bold rewrite of `**x**`. */
  lemma RewriteBoldX(text: string, x: string)
    requires x == "x" && text == "**" + x + "**"
    ensures Rewrite(text) == "<b>x</b>"
  {
    assert '*' !in x && '#' !in x && '\n' !in x by { assert x == ['x']; }
    RewriteBold(text, x);
  }

  /** A bold span around text with no `*`, `#` or line break becomes a `b` element. */
  lemma RewriteBold(text: string, x: string)
    requires text == "**" + x + "**" && '*' !in x && '#' !in x && '\n' !in x
    ensures Rewrite(text) == "<b>" + x + "</b>"
  {
    var t := "<b>" + x + "</b>";
    assert forall q :: 0 <= q < |x| ==> !At(x + "**" + "", q, "**") by {
      forall q | 0 <= q < |x|
        ensures !At(x + "**" + "", q, "**")
      {
        assert (x + "**" + "")[q..][0] == x[q];
      }
    }
    BoldSpan(x, "");
    assert "**" + x + "**" + "" == text;
    var a := RewritePair(text, "**", "<b>", "</b>");
    assert a == t by {
      RewritePairAbsent("", "**", "<b>", "</b>");
      assert t + "" == t;
    }
    assert '*' !in t && '#' !in t by {
      assert forall k :: 0 <= k < |x| ==> t[3 + k] == x[k];
    }
    RewritePairAbsent(t, "*", "<i>", "</i>");
    HeadingRewriteAbsent(t);
  }

  /** The scanner on `<b>x</b>`: the tag is copied and pushed, `x` copied, the close tag popped. */
  lemma ScanBoldX(t: string)
    requires t == "<b>x</b>"
    ensures Scan(t) == [OpenTag("b", "<b>"), Plain('x'), CloseTag("b")]
  {
    OpenBoldX();
    CloseBoldX();
    assert Step(t, 3, ["b"]) == StepResult([Plain('x')], 4, ["b"]);
    assert ScanFrom(t, 8, []) == [];
    assert ScanFrom(t, 4, ["b"]) == [CloseTag("b")];
    assert ScanFrom(t, 3, ["b"]) == [Plain('x'), CloseTag("b")];
  }

  /** The opening step on `<b>x</b>`. */
  lemma OpenBoldX()
    ensures Step("<b>x</b>", 0, []) == StepResult([OpenTag("b", "<b>")], 3, ["b"])
  {
    var t := "<b>x</b>";
    assert LetterRun(t[1..]) == 1 by { assert t[1..][1..][0] == '>'; }
    assert t[1..2] == "b";
    assert t[0..3] == "<b>";
  }

  /** The closing step on `<b>x</b>`. */
  lemma CloseBoldX()
    ensures Step("<b>x</b>", 4, ["b"]) == StepResult([CloseTag("b")], 8, [])
  {
    var t := "<b>x</b>";
    var u := t[4..];
    assert u == "</b>";
    assert LetterRun(u[2..]) == 1 by { assert u[2..][1..][0] == '>'; }
    assert u[2..3] == "b";
  }

  /** The pieces of `<b>x</b>` render back to it. */
  lemma RenderBoldX()
    ensures RenderAll([OpenTag("b", "<b>"), Plain('x'), CloseTag("b")]) == "<b>x</b>"
  {
    var ps := [OpenTag("b", "<b>"), Plain('x'), CloseTag("b")];
    assert ps[2..] == [CloseTag("b")];
    RenderAllSingle(CloseTag("b"));
    assert ps[1..][1..] == ps[2..];
  }
}
