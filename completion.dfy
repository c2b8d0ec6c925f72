/**
 * Assembly of the chat-completion request and the retry policy around the call
 * (telegram_bot.py `get_unlim_response`; its copy in utils.py and the prototype in
 * test_bot.py). The completion endpoint is replaced by `api`, which gives the outcome
 * of each numbered attempt for the request sent, and each `asyncio.sleep` is recorded
 * as a delay in seconds.
 */
module Completion {
  import opened Wrappers
  import opened Text
  import opened Search

  datatype Role = System | User | Assistant

  /** One `{"role": ..., "content": ...}` entry of the message list. */
  datatype Message = Message(role: Role, content: string)

  /** The arguments of `chat.completions.create` that the bot chooses (the model name is configuration). */
  datatype ChatRequest = ChatRequest(messages: seq<Message>, temperature: real, maxTokens: nat)

  /**
   * What one attempt produced: a reply whose content may be missing, or an exception
   * carrying its text.
   */
  datatype ApiOutcome = Completed(content: Option<string>) | Failed(error: string)

  /** Questions about the bot itself, answered without search data. */
  const MetaQuestions: seq<string> := ["сколько тебе лет", "как тебя зовут", "что ты помнишь обо мне"]

  const SearchHeader: string := "Данные поиска (для агрегации и проверки):\n"
  const PrototypeSearchHeader: string := "Данные поиска:\n"

  /** The fixed reply when the completion cannot be obtained. */
  const Apology: string := "Извини, что-то пошло не так. 😔 Попробуй ещё раз или спроси что-то другое! 😊"

  /** `f"{i}. Заголовок: {title}\nОписание: {snippet}\nСсылка: {link}\n\n"` */
  function Entry(i: nat, r: SearchResult): string {
    NatToString(i) + ". Заголовок: " + r.title + "\nОписание: " + r.snippet + "\nСсылка: " + r.link + "\n\n"
  }

  /** The entries of `results`, numbered from `from` on. */
  function Entries(results: seq<SearchResult>, from: nat): string
    decreases |results|
  {
    if results == [] then "" else Entry(from, results[0]) + Entries(results[1..], from + 1)
  }

  /** The `search_content +=` loop: the header followed by the entries numbered from 1. */
  method BuildSearchBlock(header: string, results: seq<SearchResult>) returns (content: string)
    ensures content == header + Entries(results, 1)
    ensures forall k :: 0 <= k < |results| ==> Contains(content, Entry(k + 1, results[k]))
  {
    content := header;
    for i := 0 to |results|
      invariant content + Entries(results[i..], i + 1) == header + Entries(results, 1)
    {
      assert results[i..][1..] == results[i + 1..];
      content := content + Entry(i + 1, results[i]);
    }
    assert results[|results|..] == [];
    assert content == header + Entries(results, 1);
    forall k | 0 <= k < |results| ensures Contains(content, Entry(k + 1, results[k])) {
      EntriesMention(results, 1, k);
      ContainsExtendLeft(header, Entries(results, 1), Entry(k + 1, results[k]));
    }
  }

  /** Entry `k` of the block is there, with its number. */
  lemma {:induction false} EntriesMention(results: seq<SearchResult>, from: nat, k: nat)
    requires k < |results|
    ensures Contains(Entries(results, from), Entry(from + k, results[k]))
    decreases k
  {
    var first := Entry(from, results[0]);
    var rest := Entries(results[1..], from + 1);
    if k == 0 {
      assert Contains(first, first) by { assert first <= first; }
      ContainsExtendRight(first, rest, first);
    } else {
      EntriesMention(results[1..], from + 1, k - 1);
      ContainsExtendLeft(first, rest, Entry(from + k, results[k]));
    }
  }

  /** `search_data and isinstance(search_data, list)`: a non-empty result list. */
  predicate HasSearchData(searchData: Option<seq<SearchResult>>) {
    searchData.Some? && searchData.value != []
  }

  /** The search data that survives the meta-question check. */
  function EffectiveSearchData(userText: string, searchData: Option<seq<SearchResult>>): Option<seq<SearchResult>> {
    if ContainsAny(Lower(userText), MetaQuestions) then None else searchData
  }

  /**
   * The message list: the system prompt, the last `window` history turns, the user's
   * turn and, when there is search data, one more user turn holding the numbered block.
   */
  function BuildMessages(systemPrompt: string, history: seq<Message>, window: nat, userText: string,
                         searchData: Option<seq<SearchResult>>, header: string): (msgs: seq<Message>)
    requires window > 0
    ensures |msgs| == 2 + |LastN(history, window)| + (if HasSearchData(searchData) then 1 else 0)
    ensures |msgs| <= window + 3
    ensures msgs[0] == Message(System, systemPrompt)
    ensures msgs[1 + |LastN(history, window)|] == Message(User, userText)
    ensures msgs[1..1 + |LastN(history, window)|] == history[|history| - |LastN(history, window)|..]
    ensures HasSearchData(searchData) ==> msgs[|msgs| - 1] == Message(User, header + Entries(searchData.value, 1))
  {
    [Message(System, systemPrompt)] + LastN(history, window) + [Message(User, userText)]
    + (if HasSearchData(searchData) then [Message(User, header + Entries(searchData.value, 1))] else [])
  }

  /** The request `get_unlim_response` sends: temperature 0.3, at most 2000 tokens, 20 turns of history. */
  function ReferenceRequest(systemPrompt: string, history: seq<Message>, userText: string,
                            searchData: Option<seq<SearchResult>>): ChatRequest
  {
    ChatRequest(BuildMessages(systemPrompt, history, 20, userText, EffectiveSearchData(userText, searchData), SearchHeader),
                0.3, 2000)
  }

  /** A meta-question is sent without search data, whatever the search returned. */
  lemma MetaQuestionDropsSearch(systemPrompt: string, history: seq<Message>, userText: string,
                                searchData: Option<seq<SearchResult>>, k: nat)
    requires k < |MetaQuestions| && Contains(Lower(userText), MetaQuestions[k])
    ensures var msgs := ReferenceRequest(systemPrompt, history, userText, searchData).messages;
            |msgs| == 2 + |LastN(history, 20)| && msgs[|msgs| - 1] == Message(User, userText)
  {
    ContainsAnyIff(Lower(userText), MetaQuestions);
  }

  /**
   * The prototype's request (test_bot.py): 10 turns of history, a shorter header, no
   * meta-question check, and 1500 tokens for code requests but 200 otherwise.
   */
  function PrototypeRequest(systemPrompt: string, history: seq<Message>, userText: string, isCodeRequest: bool,
                            searchData: Option<seq<SearchResult>>): (req: ChatRequest)
    ensures |req.messages| <= 13
    ensures req.maxTokens == if isCodeRequest then 1500 else 200
  {
    ChatRequest(BuildMessages(systemPrompt, history, 10, userText, searchData, PrototypeSearchHeader),
                0.3, if isCodeRequest then 1500 else 200)
  }

  /** The prototype makes one attempt and hands back whatever content came, or the apology on an exception. */
  function PrototypeReply(outcome: ApiOutcome): (r: Option<string>)
    ensures outcome.Failed? ==> r == Some(Apology)
    ensures r.None? <==> outcome == Completed(None)
  {
    match outcome
    case Completed(content) => content
    case Failed(_) => Some(Apology)
  }

  function Pow2(k: nat): (p: nat)
    ensures p >= 1
  {
    if k == 0 then 1 else 2 * Pow2(k - 1)
  }

  /** A failure whose text mentions HTTP status 429. */
  predicate RateLimited(outcome: ApiOutcome) {
    outcome.Failed? && Contains(outcome.error, "429")
  }

  /** What the retry loop ends with: the reply and the delays slept before it. */
  datatype Outcome = Outcome(reply: string, delays: seq<nat>)

  /** The reply an attempt's outcome gives when the loop stops there. */
  function StopReply(outcome: ApiOutcome): string {
    match outcome
    case Completed(Some(c)) => c
    case _ => Apology
  }

  /**
   * The retry loop from `attempt` on. A missing content makes the logging of the reply
   * raise, which is caught like any failure without "429". The loop stops at attempt
   * `attempt + |delays|`: every earlier attempt was rate limited and was followed by a
   * sleep of `2^k`, and the stopping attempt is rate limited only when it is the last one.
   */
  function RetryFrom(req: ChatRequest, api: (ChatRequest, nat) -> ApiOutcome, attempt: nat, maxRetries: nat): (o: Outcome)
    requires attempt <= maxRetries
    ensures |o.delays| <= maxRetries - attempt
    ensures forall j :: 0 <= j < |o.delays| ==> o.delays[j] == Pow2(attempt + j) && RateLimited(api(req, attempt + j))
    ensures o.reply == StopReply(api(req, attempt + |o.delays|))
    ensures RateLimited(api(req, attempt + |o.delays|)) ==> attempt + |o.delays| == maxRetries
    decreases maxRetries - attempt
  {
    match api(req, attempt)
    case Completed(Some(c)) => Outcome(c, [])
    case Completed(None) => Outcome(Apology, [])
    case Failed(e) =>
      if attempt < maxRetries && Contains(e, "429") then
        var rest := RetryFrom(req, api, attempt + 1, maxRetries);
        Outcome(rest.reply, [Pow2(attempt)] + rest.delays)
      else Outcome(Apology, [])
  }

  /** A rate-limited failure with retries left costs one sleep of `2^attempt` and moves on to the next attempt. */
  lemma RetryAfterRateLimit(req: ChatRequest, api: (ChatRequest, nat) -> ApiOutcome, attempt: nat, maxRetries: nat)
    requires attempt < maxRetries && RateLimited(api(req, attempt))
    ensures var rest := RetryFrom(req, api, attempt + 1, maxRetries);
            RetryFrom(req, api, attempt, maxRetries) == Outcome(rest.reply, [Pow2(attempt)] + rest.delays)
  {
  }

  /** Any other outcome ends the loop at this attempt, without a sleep. */
  lemma RetryStops(req: ChatRequest, api: (ChatRequest, nat) -> ApiOutcome, attempt: nat, maxRetries: nat)
    requires attempt <= maxRetries && !(attempt < maxRetries && RateLimited(api(req, attempt)))
    ensures RetryFrom(req, api, attempt, maxRetries) == Outcome(StopReply(api(req, attempt)), [])
  {
  }

  /**
   * `get_unlim_response`: build the request, then try at most `maxRetries + 1` times,
   * sleeping `2^attempt` seconds after a rate-limited failure that is not the last attempt.
   */
  method GetUnlimResponse(systemPrompt: string, history: seq<Message>, userText: string,
                          searchData: Option<seq<SearchResult>>, maxRetries: nat,
                          api: (ChatRequest, nat) -> ApiOutcome)
    returns (reply: string, delays: seq<nat>, request: ChatRequest)
    ensures request == ReferenceRequest(systemPrompt, history, userText, searchData)
    ensures Outcome(reply, delays) == RetryFrom(request, api, 0, maxRetries)
  {
    request := ReferenceRequest(systemPrompt, history, userText, searchData);
    reply, delays := RetryLoop(request, api, maxRetries);
  }

  /** The `for attempt in range(max_retries + 1)` loop around one request. */
  method RetryLoop(request: ChatRequest, api: (ChatRequest, nat) -> ApiOutcome, maxRetries: nat)
    returns (reply: string, delays: seq<nat>)
    ensures Outcome(reply, delays) == RetryFrom(request, api, 0, maxRetries)
  {
    ghost var all := RetryFrom(request, api, 0, maxRetries);
    delays := [];
    var attempt := 0;
    while true
      invariant attempt <= maxRetries
      invariant all.reply == RetryFrom(request, api, attempt, maxRetries).reply
      invariant all.delays == delays + RetryFrom(request, api, attempt, maxRetries).delays
      decreases maxRetries - attempt
    {
      var outcome := api(request, attempt);
      if outcome.Completed? && outcome.content.Some? {
        RetryStops(request, api, attempt, maxRetries);
        return outcome.content.value, delays;
      }
      // A missing content raises while being logged; that exception's text has no "429".
      if outcome.Failed? && attempt < maxRetries && Contains(outcome.error, "429") {
        RetryAfterRateLimit(request, api, attempt, maxRetries);
        ghost var rest := RetryFrom(request, api, attempt + 1, maxRetries).delays;
        ConcatAssoc(delays, [Pow2(attempt)], rest);
        delays := delays + [Pow2(attempt)];
        attempt := attempt + 1;
        continue;
      }
      RetryStops(request, api, attempt, maxRetries);
      assert delays + [] == delays;
      return Apology, delays;
    }
  }

  /** What the utils.py copy of the loop ends with: a reply, or an exception that escapes it. */
  datatype UtilsOutcome = Replied(reply: string) | Raised

  /**
   * The utils.py copy of the loop as written: that module never imports `asyncio`, so
   * `asyncio.sleep` raises a `NameError` inside the handler, which escapes the loop at the
   * first rate-limited failure that still has retries left.
   */
  function UtilsRetryAsWritten(req: ChatRequest, api: (ChatRequest, nat) -> ApiOutcome, maxRetries: nat): UtilsOutcome {
    if 0 < maxRetries && RateLimited(api(req, 0)) then Raised else Replied(StopReply(api(req, 0)))
  }

  /** Where the copy sleeps, the loop of telegram_bot.py sleeps one second and tries again instead of raising. */
  lemma UtilsRetryRaisesOnRateLimit(req: ChatRequest, api: (ChatRequest, nat) -> ApiOutcome, maxRetries: nat)
    requires 0 < maxRetries && RateLimited(api(req, 0))
    ensures UtilsRetryAsWritten(req, api, maxRetries) == Raised
    ensures var o := RetryFrom(req, api, 0, maxRetries); |o.delays| >= 1 && o.delays[0] == 1
  {
    RetryAfterRateLimit(req, api, 0, maxRetries);
  }

  /** In every other case the copy answers exactly as the loop of telegram_bot.py does. */
  lemma UtilsRetryAgreesOtherwise(req: ChatRequest, api: (ChatRequest, nat) -> ApiOutcome, maxRetries: nat)
    requires !(0 < maxRetries && RateLimited(api(req, 0)))
    ensures UtilsRetryAsWritten(req, api, maxRetries) == Replied(RetryFrom(req, api, 0, maxRetries).reply)
    ensures RetryFrom(req, api, 0, maxRetries).delays == []
  {
    RetryStops(req, api, 0, maxRetries);
  }

  /** Total seconds slept. */
  function TotalDelay(delays: seq<nat>): nat {
    if delays == [] then 0 else TotalDelay(delays[..|delays| - 1]) + delays[|delays| - 1]
  }

  /** Sleeping 1, 2, 4, ... seconds `n` times adds up to `2^n - 1` seconds. */
  lemma {:induction false} DoublingDelays(delays: seq<nat>)
    requires forall j :: 0 <= j < |delays| ==> delays[j] == Pow2(j)
    ensures TotalDelay(delays) == Pow2(|delays|) - 1
  {
    if delays != [] {
      DoublingDelays(delays[..|delays| - 1]);
    }
  }

  lemma {:induction false} Pow2Monotone(a: nat, b: nat)
    requires a <= b
    ensures Pow2(a) <= Pow2(b)
    decreases b
  {
    if a < b {
      Pow2Monotone(a, b - 1);
    }
  }

  /** However the endpoint behaves, the loop sleeps at most `maxRetries` times and at most `2^maxRetries - 1` seconds. */
  lemma WaitIsBounded(req: ChatRequest, api: (ChatRequest, nat) -> ApiOutcome, maxRetries: nat)
    ensures var o := RetryFrom(req, api, 0, maxRetries);
            |o.delays| <= maxRetries && TotalDelay(o.delays) <= Pow2(maxRetries) - 1
  {
    var o := RetryFrom(req, api, 0, maxRetries);
    DoublingDelays(o.delays);
    Pow2Monotone(|o.delays|, maxRetries);
  }

  /** An endpoint that keeps answering 429 costs every retry and ends in the apology. */
  lemma PersistentRateLimit(req: ChatRequest, api: (ChatRequest, nat) -> ApiOutcome, maxRetries: nat)
    requires forall j :: 0 <= j <= maxRetries ==> RateLimited(api(req, j))
    ensures var o := RetryFrom(req, api, 0, maxRetries);
            o.reply == Apology && |o.delays| == maxRetries && TotalDelay(o.delays) == Pow2(maxRetries) - 1
  {
    var o := RetryFrom(req, api, 0, maxRetries);
    DoublingDelays(o.delays);
  }

  /** The first attempt that is not rate limited decides the reply, after one sleep per earlier attempt. */
  lemma {:induction false} FirstUsableAttemptDecides(req: ChatRequest, api: (ChatRequest, nat) -> ApiOutcome,
                                                     attempt: nat, maxRetries: nat, k: nat)
    requires attempt <= k <= maxRetries && !RateLimited(api(req, k))
    requires forall j :: attempt <= j < k ==> RateLimited(api(req, j))
    ensures var o := RetryFrom(req, api, attempt, maxRetries);
            o.reply == StopReply(api(req, k)) && |o.delays| == k - attempt
    decreases k - attempt
  {
    if attempt < k {
      assert RateLimited(api(req, attempt));
      FirstUsableAttemptDecides(req, api, attempt + 1, maxRetries, k);
    }
  }
}
