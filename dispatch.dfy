/**
 * `send_long_message` (telegram_bot.py; the same in utils.py): the reply is cleaned of
 * the model's sentence markers and sanitized, stored, and sent either whole or as
 * consecutive fixed-width slices, the first of which carries the keyboard. Sending and
 * storing are recorded as outputs; the clock is the `millis` parameter.
 */
module Dispatch {
  import opened Wrappers
  import opened Text
  import opened Sanitizer

  /** The markers some models leave in their output: fullwidth bars around `begin▁of▁sentence`. */
  const BeginMarker: string := "\U{FF5C}begin\U{2581}of\U{2581}sentence\U{FF5C}"
  const EndMarker: string := "\U{FF5C}end\U{2581}of\U{2581}sentence\U{FF5C}"

  /** Telegram's message limit less the parse mode and a margin of 50. */
  function MaxLength(parseMode: string): int {
    4096 - |parseMode| - 50
  }

  /** The keyboard attached to a message: the caller's own, or the button that opens the mini-app. */
  datatype Keyboard = Supplied(name: string) | MiniAppButton(caption: string, url: string)

  /** One `message.answer` call. */
  datatype Outgoing = Outgoing(text: string, markup: Option<Keyboard>)

  /** The text that is stored and sent: markers removed, then sanitized. */
  function Cleaned(text: string): string {
    Sanitize(ReplaceAll(ReplaceAll(text, BeginMarker, ""), EndMarker, ""))
  }

  /** `f"{user_id}_{int(time.time() * 1000)}"` */
  function MessageId(userId: nat, millis: nat): string {
    NatToString(userId) + "_" + NatToString(millis)
  }

  function WebAppUrl(miniAppUrl: string, userId: nat, millis: nat): string {
    miniAppUrl + "?message_id=" + MessageId(userId, millis) + "&user_id=" + NatToString(userId)
  }

  /** The mini-app button, offered when the mini-app is configured and its URL fits in 200 characters. */
  function AppMarkup(miniAppUrl: string, caption: string, userId: nat, millis: nat): (r: Option<Keyboard>)
    ensures r.Some? <==> miniAppUrl != [] && |WebAppUrl(miniAppUrl, userId, millis)| <= 200
    ensures r.Some? ==> r.value == MiniAppButton(caption, WebAppUrl(miniAppUrl, userId, millis))
  {
    if miniAppUrl != [] && |WebAppUrl(miniAppUrl, userId, millis)| <= 200 then
      Some(MiniAppButton(caption, WebAppUrl(miniAppUrl, userId, millis)))
    else None
  }

  /** A keyboard given by the caller wins over the mini-app button. */
  function EffectiveMarkup(replyMarkup: Option<Keyboard>, app: Option<Keyboard>): (r: Option<Keyboard>)
    ensures replyMarkup.Some? ==> r == replyMarkup
    ensures replyMarkup.None? ==> r == app
  {
    if replyMarkup.Some? then replyMarkup else app
  }

  /** `[s[i:i + m] for i in range(0, len(s), m)]` */
  function Chunks(s: string, m: nat): (r: seq<string>)
    requires m > 0
    ensures forall k :: 0 <= k < |r| ==> 0 < |r[k]| <= m
    decreases |s|
  {
    if s == [] then [] else if |s| <= m then [s] else [s[..m]] + Chunks(s[m..], m)
  }

  function Concat(parts: seq<string>): string {
    if parts == [] then [] else parts[0] + Concat(parts[1..])
  }

  /** The slices put back together give the text. */
  lemma {:induction false} ChunksConcat(s: string, m: nat)
    requires m > 0
    ensures Concat(Chunks(s, m)) == s
    decreases |s|
  {
    if |s| > m {
      var r := Chunks(s, m);
      assert r[1..] == Chunks(s[m..], m);
      ChunksConcat(s[m..], m);
      assert s == s[..m] + s[m..];
    } else if s != [] {
      assert Concat([s]) == s + Concat([]);
    }
  }

  /**
   * There are `ceil(|s| / m)` slices: `m` times their number is at least `|s|` and less
   * than `|s| + m`. Every slice but the last is full.
   */
  lemma {:induction false} ChunksCount(s: string, m: nat)
    requires m > 0
    ensures (|Chunks(s, m)| - 1) * m < |s| <= |Chunks(s, m)| * m
    ensures forall k :: 0 <= k < |Chunks(s, m)| - 1 ==> |Chunks(s, m)[k]| == m
    decreases |s|
  {
    var r := Chunks(s, m);
    if |s| > m {
      ChunksCount(s[m..], m);
      var n := |Chunks(s[m..], m)|;
      assert r[1..] == Chunks(s[m..], m);
      assert |r| == n + 1;
      assert (n + 1) * m == n * m + m;
    }
  }

  /** Each slice as it is sent: the keyboard on the first one only. */
  function WithMarkup(parts: seq<string>, markup: Option<Keyboard>): (r: seq<Outgoing>)
    ensures |r| == |parts|
    ensures forall k :: 0 <= k < |r| ==> r[k].text == parts[k]
    ensures forall k :: 0 < k < |r| ==> r[k].markup.None?
    ensures |r| > 0 ==> r[0].markup == markup
  {
    seq(|parts|, k requires 0 <= k < |parts| => Outgoing(parts[k], if k == 0 then markup else None))
  }

  /**
   * The texts sent for a cleaned reply: the whole text when it fits, otherwise the slices.
   * A limit of zero makes `range` raise (`None`); a negative one makes it empty.
   */
  function Parts(cleaned: string, maxLength: int): (r: Option<seq<string>>)
    ensures r.None? <==> maxLength == 0 && cleaned != []
  {
    if |cleaned| <= maxLength then Some([cleaned])
    else if maxLength == 0 then None
    else if maxLength < 0 then Some([])
    else Some(Chunks(cleaned, maxLength))
  }

  /** What one call stores and sends, and whether it raised. */
  datatype Delivery = Delivery(saved: Option<string>, sent: seq<Outgoing>, raised: bool)

  function Deliver(text: string, parseMode: string, replyMarkup: Option<Keyboard>,
                   miniAppUrl: string, caption: string, userId: nat, millis: nat): Delivery
  {
    if text == [] then Delivery(None, [], false)
    else
      var cleaned := Cleaned(text);
      var markup := EffectiveMarkup(replyMarkup, AppMarkup(miniAppUrl, caption, userId, millis));
      match Parts(cleaned, MaxLength(parseMode))
      case None => Delivery(Some(cleaned), [], true)
      case Some(ps) => Delivery(Some(cleaned), WithMarkup(ps, markup), false)
  }

  /** `send_long_message`, with the sending loop over the parts. */
  method SendLongMessage(text: string, parseMode: string, replyMarkup: Option<Keyboard>,
                         miniAppUrl: string, caption: string, userId: nat, millis: nat)
    returns (saved: Option<string>, sent: seq<Outgoing>, raised: bool)
    ensures Delivery(saved, sent, raised) == Deliver(text, parseMode, replyMarkup, miniAppUrl, caption, userId, millis)
  {
    if text == [] {
      return None, [], false;
    }
    var cleaned := Cleaned(text);
    var maxLength := MaxLength(parseMode);
    saved := Some(cleaned);
    var appMarkup := AppMarkup(miniAppUrl, caption, userId, millis);
    var markup := EffectiveMarkup(replyMarkup, appMarkup);
    if |cleaned| <= maxLength {
      return saved, [Outgoing(cleaned, markup)], false;
    }
    if maxLength == 0 {
      return saved, [], true;
    }
    var parts: seq<string> := if maxLength < 0 then [] else Chunks(cleaned, maxLength);
    sent := SendParts(parts, markup);
    raised := false;
  }

  /** `for i, part in enumerate(parts)`: each part sent in turn, the keyboard with the first. */
  method SendParts(parts: seq<string>, markup: Option<Keyboard>) returns (sent: seq<Outgoing>)
    ensures sent == WithMarkup(parts, markup)
  {
    sent := [];
    for i := 0 to |parts|
      invariant sent == WithMarkup(parts, markup)[..i]
    {
      var partMarkup := if i == 0 then markup else None;
      sent := sent + [Outgoing(parts[i], partMarkup)];
    }
  }

  /** Empty text returns before anything is stored or sent. */
  lemma EmptyTextSendsNothing(parseMode: string, replyMarkup: Option<Keyboard>, miniAppUrl: string,
                              caption: string, userId: nat, millis: nat)
    ensures Deliver([], parseMode, replyMarkup, miniAppUrl, caption, userId, millis) == Delivery(None, [], false)
  {
  }

  /** A cleaned reply that fits is sent as one message carrying the keyboard. */
  lemma ShortReplyIsOneMessage(text: string, parseMode: string, replyMarkup: Option<Keyboard>,
                               miniAppUrl: string, caption: string, userId: nat, millis: nat)
    requires text != [] && |Cleaned(text)| <= MaxLength(parseMode)
    ensures var d := Deliver(text, parseMode, replyMarkup, miniAppUrl, caption, userId, millis);
            d.saved == Some(Cleaned(text)) && !d.raised && |d.sent| == 1 && d.sent[0].text == Cleaned(text)
            && d.sent[0].markup == EffectiveMarkup(replyMarkup, AppMarkup(miniAppUrl, caption, userId, millis))
  {
  }

  /**
   * A longer reply is sent as `ceil(L / max_length)` slices of at most `max_length`
   * characters that put together give the stored text; only the first carries the keyboard.
   */
  lemma LongReplyIsSliced(text: string, parseMode: string, replyMarkup: Option<Keyboard>,
                          miniAppUrl: string, caption: string, userId: nat, millis: nat)
    requires text != [] && 0 < MaxLength(parseMode) < |Cleaned(text)|
    ensures var d := Deliver(text, parseMode, replyMarkup, miniAppUrl, caption, userId, millis);
            var m := MaxLength(parseMode);
            && d.saved == Some(Cleaned(text)) && !d.raised
            && |d.sent| >= 2 && (|d.sent| - 1) * m < |Cleaned(text)| <= |d.sent| * m
            && (forall k :: 0 <= k < |d.sent| ==> 0 < |d.sent[k].text| <= m)
            && Concat(Texts(d.sent)) == Cleaned(text)
            && d.sent[0].markup == EffectiveMarkup(replyMarkup, AppMarkup(miniAppUrl, caption, userId, millis))
            && (forall k :: 0 < k < |d.sent| ==> d.sent[k].markup.None?)
  {
    var cleaned := Cleaned(text);
    var m: nat := MaxLength(parseMode);
    var markup := EffectiveMarkup(replyMarkup, AppMarkup(miniAppUrl, caption, userId, millis));
    assert Deliver(text, parseMode, replyMarkup, miniAppUrl, caption, userId, millis)
        == Delivery(Some(cleaned), WithMarkup(Chunks(cleaned, m), markup), false);
    SlicesSent(cleaned, m, markup);
  }

  /** The slices of a text longer than the limit, as sent. */
  lemma SlicesSent(cleaned: string, m: nat, markup: Option<Keyboard>)
    requires 0 < m < |cleaned|
    ensures var sent := WithMarkup(Chunks(cleaned, m), markup);
            && |sent| >= 2 && (|sent| - 1) * m < |cleaned| <= |sent| * m
            && (forall k :: 0 <= k < |sent| ==> 0 < |sent[k].text| <= m)
            && Concat(Texts(sent)) == cleaned
            && sent[0].markup == markup
            && (forall k :: 0 < k < |sent| ==> sent[k].markup.None?)
  {
    var ps := Chunks(cleaned, m);
    ChunksConcat(cleaned, m);
    ChunksCount(cleaned, m);
    assert Texts(WithMarkup(ps, markup)) == ps;
  }

  /** The texts of the sent messages, in order. */
  function Texts(sent: seq<Outgoing>): (r: seq<string>)
    ensures |r| == |sent| && forall k :: 0 <= k < |r| ==> r[k] == sent[k].text
  {
    seq(|sent|, k requires 0 <= k < |sent| => sent[k].text)
  }

  /** With the HTML parse mode the limit is 4042 and the call never raises. */
  lemma HtmlModeNeverRaises(text: string, replyMarkup: Option<Keyboard>, miniAppUrl: string,
                            caption: string, userId: nat, millis: nat)
    ensures MaxLength("HTML") == 4042
    ensures !Deliver(text, "HTML", replyMarkup, miniAppUrl, caption, userId, millis).raised
  {
  }
}
