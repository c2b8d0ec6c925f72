/**
 * The per-user state that telegram_bot.py keeps in `user_data` and the three handlers
 * that change it: `handle_message`, `clear_history` and `process_successful_payment`.
 * Time is integer seconds from the epoch, read once per call (`now`); the search
 * provider, the link probe, the completion endpoint and the feedback chat are given in
 * `Services`. Firestore writes and Telegram sends are left out; the reply a handler
 * would send is its result.
 */
module Session {
  import opened Wrappers
  import opened Text
  import opened Topic
  import opened Relevance
  import opened Search
  import opened Completion

  /** `24 * 3600`: the length of the request-counting window. */
  const Day: int := 86400
  /** Requests answered per window. */
  const DailyLimit: nat := 50
  /** History entries kept (`history[-20:]`). */
  const HistoryWindow: nat := 20
  /** `get_unlim_response`'s default `max_retries`. */
  const MaxRetries: nat := 5

  /** Substrings of the lower-cased text that mark a code request, which is answered without search. */
  const CodeKeywords: seq<string> := ["код ", "программ", "коди", "python", "javascript", "html", "css"]

  /** One tariff of `TARIFF_PLANS` (the title and description are only shown on the invoice). */
  datatype Plan = Plan(payload: string, amount: nat, durationDays: nat, periodLabel: string)

  /** `TARIFF_PLANS`, in the order the dictionary lists them. */
  const TariffPlans: seq<Plan> := [
    Plan("emma_premium_1month", 250, 30, "Месячная подписка"),
    Plan("emma_premium_3months", 600, 90, "Подписка на 3 месяца"),
    Plan("emma_premium_12months", 2000, 365, "Подписка на 12 месяцев")
  ]

  /** `user_data[user_id]`; message identifiers are Telegram's integers. */
  datatype UserRecord = UserRecord(
    history: seq<Message>,
    activeTopic: Option<string>,
    premium: bool,
    expiry: Option<int>,
    lastPayMessageId: Option<int>,
    awaitingFeedback: bool,
    feedbackMessageId: Option<int>,
    userFeedbackMessageId: Option<int>,
    requestCount: nat,
    lastReset: int)

  /** The record a handler creates for a user it has not seen. */
  function Fresh(now: int): (r: UserRecord)
    ensures r.history == [] && !r.premium && r.expiry.None? && r.requestCount == 0 && r.lastReset == now
  {
    UserRecord([], None, false, None, None, false, None, None, 0, now)
  }

  /** The record of `userId`, created when missing. */
  function RecordOf(users: map<int, UserRecord>, userId: int, now: int): UserRecord {
    if userId in users then users[userId] else Fresh(now)
  }

  /** Python truthiness of an optional number: present and not zero. */
  predicate TruthyNumber(x: Option<int>) {
    x.Some? && x.value != 0
  }

  /** The first tariff whose payload is `payload` (the `for ... else` lookup). */
  function FindPlan(payload: string): (r: Option<Plan>)
    ensures r.Some? ==> r.value in TariffPlans && r.value.payload == payload
    ensures r.None? ==> forall k :: 0 <= k < |TariffPlans| ==> TariffPlans[k].payload != payload
  {
    if TariffPlans[0].payload == payload then Some(TariffPlans[0])
    else if TariffPlans[1].payload == payload then Some(TariffPlans[1])
    else if TariffPlans[2].payload == payload then Some(TariffPlans[2])
    else None
  }

  /** Each tariff is found by its own payload, and lasts 30, 90 or 365 days. */
  lemma TariffTable(k: nat)
    requires k < |TariffPlans|
    ensures FindPlan(TariffPlans[k].payload) == Some(TariffPlans[k])
    ensures TariffPlans[k].durationDays == [30, 90, 365][k]
  {
    assert TariffPlans[0].payload[13] == '1' && TariffPlans[1].payload[13] == '3';
    assert TariffPlans[2].payload[13] == '1' && TariffPlans[2].payload[14] == '2';
    assert TariffPlans[0].payload[14] == 'm';
  }

  // ---------------------------------------------------------------- handle_message

  /** The outside world as `handle_message` sees it. */
  datatype Services = Services(
    searchConfigured: bool,               // GOOGLE_API_KEY and GOOGLE_CSE_ID are set
    provider: string -> CseResponse,
    alive: string -> bool,
    api: (ChatRequest, nat) -> ApiOutcome,
    systemPrompt: string,
    feedbackConfigured: bool,             // FEEDBACK_CHAT_ID is set
    feedbackDelivered: bool)              // forwarding to the feedback chat went through

  /** What the user is told. */
  datatype Reply =
    | NotText
    | LimitReached
    | FeedbackUnavailable
    | FeedbackThanks
    | FeedbackFailed
    | Answered(response: string)

  /** How the handler starts on a message: it fails, answers that only text is handled, or goes on with the stripped text. */
  datatype Start = Crash | TextOnly | Proceed(userText: string)

  /**
   * The start of `handle_message` as written: the first log line slices `message.text`
   * before the handler checks that there is a text, so a message without one raises.
   */
  function StartAsWritten(text: Option<string>): Start {
    if text.None? then Crash else if text.value == [] then TextOnly else Proceed(Strip(text.value))
  }

  /** The start as intended: a message without text gets the "text only" answer. */
  function StartOf(text: Option<string>): (r: Start)
    ensures r.TextOnly? <==> text.None? || text.value == []
    ensures r.Proceed? ==> r.userText == Strip(text.value)
    ensures !r.Crash?
  {
    if text.None? || text.value == [] then TextOnly else Proceed(Strip(text.value))
  }

  /** A photo or sticker (no text) makes the handler as written raise instead of answering. */
  lemma MessageWithoutTextCrashes()
    ensures StartAsWritten(None) == Crash && StartOf(None) == TextOnly
  {
  }

  /** For every message that has a text, both starts agree. */
  lemma StartAgreesOnText(text: string)
    ensures StartAsWritten(Some(text)) == StartOf(Some(text))
  {
  }

  /** A new window starts when 24 hours have passed since the last reset. */
  function Refresh(rec: UserRecord, now: int): (r: UserRecord)
    ensures now - rec.lastReset >= Day ==> r == rec.(requestCount := 0, lastReset := now)
    ensures now - rec.lastReset < Day ==> r == rec
  {
    if now - rec.lastReset >= Day then rec.(requestCount := 0, lastReset := now) else rec
  }

  function ClearFeedback(rec: UserRecord): UserRecord {
    rec.(awaitingFeedback := false, feedbackMessageId := None, userFeedbackMessageId := None)
  }

  /** A premium whose expiry is set and past ends. */
  function CheckExpiry(rec: UserRecord, now: int): (r: UserRecord)
    ensures r.premium ==> rec.premium && !(TruthyNumber(rec.expiry) && now > rec.expiry.value)
    ensures rec.premium && TruthyNumber(rec.expiry) && now > rec.expiry.value ==> r == rec.(premium := false, expiry := None)
    ensures !(rec.premium && TruthyNumber(rec.expiry) && now > rec.expiry.value) ==> r == rec
  {
    if rec.premium && TruthyNumber(rec.expiry) && now > rec.expiry.value then rec.(premium := false, expiry := None) else rec
  }

  predicate IsCodeRequest(userText: string) {
    ContainsAny(Lower(userText), CodeKeywords)
  }

  /** The search data handed to the completion: found, and judged relevant. */
  function SearchFor(userText: string, activeTopic: Option<string>, env: Services): Option<seq<SearchResult>> {
    if env.searchConfigured && !IsCodeRequest(userText) then
      var found := CseInfo(userText, activeTopic, env.provider, env.alive);
      if found.Some? && found.value != [] && MostlyRelevant(found.value, KeyTerms(userText, activeTopic)) then found else None
    else None
  }

  /** The response to a message, from the history and topic in `rec`. */
  function Answer(userText: string, rec: UserRecord, env: Services): string {
    var request := ReferenceRequest(env.systemPrompt, rec.history, userText, SearchFor(userText, rec.activeTopic, env));
    RetryFrom(request, env.api, 0, MaxRetries).reply
  }

  /** The response as a function of the record it is computed from. */
  function Responder(userText: string, env: Services): UserRecord -> string {
    rec => Answer(userText, rec, env)
  }

  /** The turn recorded after the reply, and the topic it sets. */
  function Converse(rec: UserRecord, userText: string, response: string): UserRecord {
    rec.(activeTopic := if response != [] then Some(ExtractTopic(response)) else rec.activeTopic,
         history := LastN(rec.history + [Message(User, userText), Message(Assistant, response)], HistoryWindow))
  }

  /**
   * Recording a turn appends the user's text and the reply and keeps the last 20
   * entries; the topic follows a non-empty reply and stays otherwise; nothing else changes.
   */
  lemma ConverseRecordsTurn(rec: UserRecord, userText: string, response: string)
    ensures var after := Converse(rec, userText, response);
            && after.history == LastN(rec.history + [Message(User, userText), Message(Assistant, response)], HistoryWindow)
            && 2 <= |after.history| <= HistoryWindow
            && after.history[|after.history| - 2..] == [Message(User, userText), Message(Assistant, response)]
            && (response != [] ==> after.activeTopic == Some(ExtractTopic(response)))
            && (response == [] ==> after.activeTopic == rec.activeTopic)
            && after.(history := rec.history, activeTopic := rec.activeTopic) == rec
  {
    var turns := rec.history + [Message(User, userText), Message(Assistant, response)];
    var kept := LastN(turns, HistoryWindow);
    assert kept[|kept| - 2] == turns[|turns| - 2];
    assert kept[|kept| - 1] == turns[|turns| - 1];
  }

  /** A record and what the user is told. */
  datatype Step = Step(rec: UserRecord, reply: Reply)

  /** The feedback answer, by whether the feedback chat is configured and the forward went through. */
  function FeedbackReply(env: Services): (r: Reply)
    ensures r in {FeedbackUnavailable, FeedbackThanks, FeedbackFailed}
  {
    if !env.feedbackConfigured then FeedbackUnavailable
    else if env.feedbackDelivered then FeedbackThanks else FeedbackFailed
  }

  /**
   * One text message for a user's record: count the request in the current window or
   * refuse it over the limit; forward feedback when it is awaited; otherwise end an
   * expired premium, answer, and record the turn and the topic.
   */
  function Process(rec: UserRecord, userText: string, now: int, env: Services, respond: UserRecord -> string): Step {
    var current := Refresh(rec, now);
    if current.requestCount >= DailyLimit then Step(current, LimitReached)
    else
      var counted := current.(requestCount := current.requestCount + 1);
      if counted.awaitingFeedback then Step(ClearFeedback(counted), FeedbackReply(env))
      else
        var checked := CheckExpiry(counted, now);
        var response := respond(checked);
        Step(Converse(checked, userText, response), Answered(response))
  }

  /** The users after the handler, and what it answered. */
  datatype Handled = Handled(users: map<int, UserRecord>, reply: Reply)

  /** `handle_message`: a message without text is refused; otherwise the user's record (created if needed) is processed. */
  function Handle(users: map<int, UserRecord>, userId: int, text: Option<string>, now: int, env: Services): Handled {
    match StartOf(text)
    case Proceed(userText) =>
      var step := Process(RecordOf(users, userId, now), userText, now, env, Responder(userText, env));
      Handled(users[userId := step.rec], step.reply)
    case _ => Handled(users, NotText)
  }

  /** What every record keeps: at most 50 counted requests and at most 20 history entries. */
  predicate RecordOk(rec: UserRecord) {
    rec.requestCount <= DailyLimit && |rec.history| <= HistoryWindow
  }

  predicate AllOk(users: map<int, UserRecord>) {
    forall u :: u in users ==> RecordOk(users[u])
  }

  /** Processing a message keeps a record within the limit and the history window. */
  lemma ProcessKeepsRecordOk(rec: UserRecord, userText: string, now: int, env: Services, respond: UserRecord -> string)
    requires RecordOk(rec)
    ensures RecordOk(Process(rec, userText, now, env, respond).rec)
  {
    var current := Refresh(rec, now);
    if current.requestCount < DailyLimit {
      var counted := current.(requestCount := current.requestCount + 1);
      if !counted.awaitingFeedback {
        var checked := CheckExpiry(counted, now);
        ConverseRecordsTurn(checked, userText, respond(checked));
      }
    }
  }

  /** Storing a record that keeps the bounds keeps them for every user. */
  lemma StoreKeepsAllOk(users: map<int, UserRecord>, userId: int, rec: UserRecord)
    requires AllOk(users) && RecordOk(rec)
    ensures AllOk(users[userId := rec])
  {
  }

  /** The handler stores the processed record of the one user it serves, or nothing. */
  lemma HandleStores(users: map<int, UserRecord>, userId: int, text: Option<string>, now: int, env: Services)
    ensures !StartOf(text).Proceed? ==> Handle(users, userId, text, now, env) == Handled(users, NotText)
    ensures StartOf(text).Proceed? ==>
              Handle(users, userId, text, now, env).users == users[userId := Process(RecordOf(users, userId, now), StartOf(text).userText, now, env, Responder(StartOf(text).userText, env)).rec]
  {
  }

  /** The handler keeps every record within the limit and the history window, and touches no other user. */
  lemma HandleKeepsRecordsOk(users: map<int, UserRecord>, userId: int, text: Option<string>, now: int, env: Services)
    requires AllOk(users)
    ensures AllOk(Handle(users, userId, text, now, env).users)
    ensures forall u :: u in users && u != userId ==>
              u in Handle(users, userId, text, now, env).users && Handle(users, userId, text, now, env).users[u] == users[u]
  {
    HandleStores(users, userId, text, now, env);
    if StartOf(text).Proceed? {
      var rec := RecordOf(users, userId, now);
      assert RecordOk(rec);
      ProcessKeepsRecordOk(rec, StartOf(text).userText, now, env, Responder(StartOf(text).userText, env));
      StoreKeepsAllOk(users, userId, Process(rec, StartOf(text).userText, now, env, Responder(StartOf(text).userText, env)).rec);
    }
  }

  /** Over the limit the message is refused and not counted; only the window reset is kept. */
  lemma LimitRefuses(rec: UserRecord, userText: string, now: int, env: Services, respond: UserRecord -> string)
    requires Refresh(rec, now).requestCount >= DailyLimit
    ensures Process(rec, userText, now, env, respond) == Step(Refresh(rec, now), LimitReached)
  {
  }

  /** Under the limit the request is counted exactly once, whatever happens next. */
  lemma CountedOnce(rec: UserRecord, userText: string, now: int, env: Services, respond: UserRecord -> string)
    requires Refresh(rec, now).requestCount < DailyLimit
    ensures var step := Process(rec, userText, now, env, respond);
            step.reply != LimitReached && step.rec.requestCount == Refresh(rec, now).requestCount + 1
            && step.rec.lastReset == Refresh(rec, now).lastReset
  {
    var counted := Refresh(rec, now).(requestCount := Refresh(rec, now).requestCount + 1);
    if !counted.awaitingFeedback {
      var checked := CheckExpiry(counted, now);
      ConverseRecordsTurn(checked, userText, respond(checked));
    }
  }

  /** The first message 24 hours or more after the last reset opens a new window and is never refused. */
  lemma NewWindowAccepts(rec: UserRecord, userText: string, now: int, env: Services, respond: UserRecord -> string)
    requires now - rec.lastReset >= Day
    ensures var step := Process(rec, userText, now, env, respond);
            step.reply != LimitReached && step.rec.requestCount == 1 && step.rec.lastReset == now
  {
    CountedOnce(rec, userText, now, env, respond);
  }

  /** An answered message is recorded as a turn of the record whose premium was checked against `now`. */
  lemma AnsweredStep(rec: UserRecord, userText: string, now: int, env: Services, respond: UserRecord -> string)
    requires Process(rec, userText, now, env, respond).reply.Answered?
    ensures var current := Refresh(rec, now);
            var checked := CheckExpiry(current.(requestCount := current.requestCount + 1), now);
            var response := Process(rec, userText, now, env, respond).reply.response;
            && !current.awaitingFeedback && current.requestCount < DailyLimit
            && response == respond(checked)
            && Process(rec, userText, now, env, respond).rec == Converse(checked, userText, response)
  {
  }

  /**
   * An answered message appends the user's turn and the reply to the history and keeps
   * the last 20 entries; the topic follows a non-empty reply and stays otherwise.
   */
  lemma AnsweredTurnRecorded(rec: UserRecord, userText: string, now: int, env: Services, respond: UserRecord -> string)
    requires Process(rec, userText, now, env, respond).reply.Answered?
    ensures var step := Process(rec, userText, now, env, respond);
            var response := step.reply.response;
            && step.rec.history == LastN(rec.history + [Message(User, userText), Message(Assistant, response)], HistoryWindow)
            && step.rec.history[|step.rec.history| - 2..] == [Message(User, userText), Message(Assistant, response)]
            && step.rec.activeTopic == (if response != [] then Some(ExtractTopic(response)) else rec.activeTopic)
  {
    AnsweredStep(rec, userText, now, env, respond);
    var current := Refresh(rec, now);
    var checked := CheckExpiry(current.(requestCount := current.requestCount + 1), now);
    ConverseRecordsTurn(checked, userText, Process(rec, userText, now, env, respond).reply.response);
  }

  /** An expired premium ends before a message is answered; an unexpired one stays. */
  lemma ExpiredPremiumEnds(rec: UserRecord, userText: string, now: int, env: Services, respond: UserRecord -> string)
    requires Process(rec, userText, now, env, respond).reply.Answered?
    ensures var after := Process(rec, userText, now, env, respond).rec;
            && (rec.premium && TruthyNumber(rec.expiry) && now > rec.expiry.value ==> !after.premium && after.expiry.None?)
            && (!(rec.premium && TruthyNumber(rec.expiry) && now > rec.expiry.value) ==>
                  after.premium == rec.premium && after.expiry == rec.expiry)
  {
    AnsweredStep(rec, userText, now, env, respond);
    var current := Refresh(rec, now);
    var checked := CheckExpiry(current.(requestCount := current.requestCount + 1), now);
    ConverseRecordsTurn(checked, userText, Process(rec, userText, now, env, respond).reply.response);
  }

  /** Awaited feedback is forwarded instead of answered; the wait ends whatever the outcome, and the turn is not recorded. */
  lemma FeedbackEndsWait(rec: UserRecord, userText: string, now: int, env: Services, respond: UserRecord -> string)
    requires Refresh(rec, now).requestCount < DailyLimit && rec.awaitingFeedback
    ensures var step := Process(rec, userText, now, env, respond);
            && step.reply == FeedbackReply(env) && !step.rec.awaitingFeedback
            && step.rec.feedbackMessageId.None? && step.rec.userFeedbackMessageId.None?
            && step.rec.history == rec.history && step.rec.premium == rec.premium && step.rec.expiry == rec.expiry
  {
  }

  /** A code request is answered without search data. */
  lemma CodeRequestSkipsSearch(userText: string, rec: UserRecord, env: Services)
    requires IsCodeRequest(userText)
    ensures Answer(userText, rec, env) == RetryFrom(ReferenceRequest(env.systemPrompt, rec.history, userText, None), env.api, 0, MaxRetries).reply
  {
  }

  // ---------------------------------------------------------------- clear_history

  /** `/clear`: a current record that keeps the premium flag and its expiry. */
  function Cleared(users: map<int, UserRecord>, userId: int, now: int): (r: UserRecord)
    ensures r.history == [] && r.activeTopic.None? && r.requestCount == 0 && r.lastReset == now
    ensures !r.awaitingFeedback && r.lastPayMessageId.None? && r.feedbackMessageId.None? && r.userFeedbackMessageId.None?
    ensures userId in users ==> r.premium == users[userId].premium && r.expiry == users[userId].expiry
    ensures userId !in users ==> r == Fresh(now)
  {
    var old_ := RecordOf(users, userId, now);
    UserRecord([], None, old_.premium, old_.expiry, None, false, None, None, 0, now)
  }

  // ---------------------------------------------------------------- process_successful_payment

  /** What the payment handler answers. */
  datatype PaymentReply = PaymentError | PremiumActive(periodLabel: string, expiry: int)

  datatype Paid = Paid(users: map<int, UserRecord>, reply: PaymentReply)

  /**
   * `process_successful_payment`: create the record if needed; an unknown payload is an
   * error; a known one makes the user premium until `now` plus the tariff's days, and
   * forgets the invoice message when deleting it went through (`deleted`).
   */
  function Pay(users: map<int, UserRecord>, userId: int, payload: string, now: int, deleted: bool): Paid {
    var rec := RecordOf(users, userId, now);
    match FindPlan(payload)
    case None => Paid(users[userId := rec], PaymentError)
    case Some(plan) =>
      var until := now + plan.durationDays * Day;
      var premium := rec.(premium := true, expiry := Some(until));
      var after := if TruthyNumber(premium.lastPayMessageId) && deleted then premium.(lastPayMessageId := None) else premium;
      Paid(users[userId := after], PremiumActive(plan.periodLabel, until))
  }

  /** A known payload grants premium until now plus the tariff's duration, and changes nothing else that a message uses. */
  lemma PaymentGrantsPremium(users: map<int, UserRecord>, userId: int, payload: string, now: int, deleted: bool)
    requires FindPlan(payload).Some?
    ensures var p := Pay(users, userId, payload, now, deleted);
            var rec := RecordOf(users, userId, now);
            var until := now + FindPlan(payload).value.durationDays * Day;
            && p.reply == PremiumActive(FindPlan(payload).value.periodLabel, until)
            && p.users[userId].premium && p.users[userId].expiry == Some(until)
            && p.users[userId].history == rec.history && p.users[userId].requestCount == rec.requestCount
            && p.users[userId].lastReset == rec.lastReset && p.users[userId].activeTopic == rec.activeTopic
  {
  }

  /** An unknown payload leaves premium and expiry as they were, and a known user's record untouched. */
  lemma UnknownPayloadChangesNothing(users: map<int, UserRecord>, userId: int, payload: string, now: int, deleted: bool)
    requires FindPlan(payload).None?
    ensures var p := Pay(users, userId, payload, now, deleted);
            && p.reply == PaymentError
            && p.users[userId].premium == RecordOf(users, userId, now).premium
            && p.users[userId].expiry == RecordOf(users, userId, now).expiry
            && (userId in users ==> p.users == users)
  {
  }

  /** A payment keeps every record within the limit and the history window. */
  lemma PayKeepsRecordsOk(users: map<int, UserRecord>, userId: int, payload: string, now: int, deleted: bool)
    requires AllOk(users)
    ensures AllOk(Pay(users, userId, payload, now, deleted).users)
  {
    assert RecordOk(RecordOf(users, userId, now));
  }

  /**
   * Paid premium runs out: a message answered after the paid period ends the premium,
   * and one answered within it keeps it.
   */
  lemma PaidPremiumRunsOut(users: map<int, UserRecord>, userId: int, payload: string, paidAt: int, deleted: bool,
                           userText: string, now: int, env: Services, respond: UserRecord -> string)
    requires FindPlan(payload).Some? && paidAt >= 0
    requires Process(Pay(users, userId, payload, paidAt, deleted).users[userId], userText, now, env, respond).reply.Answered?
    ensures var paid := Pay(users, userId, payload, paidAt, deleted).users[userId];
            Process(paid, userText, now, env, respond).rec.premium <==> now <= paidAt + FindPlan(payload).value.durationDays * Day
  {
    var paid := Pay(users, userId, payload, paidAt, deleted).users[userId];
    PaymentGrantsPremium(users, userId, payload, paidAt, deleted);
    assert FindPlan(payload).value.durationDays >= 30;
    ExpiredPremiumEnds(paid, userText, now, env, respond);
  }

  // ---------------------------------------------------------------- the state

  /** The bot's in-memory `user_data`. */
  class Bot {
    var users: map<int, UserRecord>

    constructor ()
      ensures users == map[]
    {
      users := map[];
    }

    predicate Valid()
      reads this
    {
      AllOk(users)
    }

    /** `clear_history` */
    method ClearHistory(userId: int, now: int)
      modifies this
      ensures users == old(users)[userId := Cleared(old(users), userId, now)]
      ensures old(Valid()) ==> Valid()
    {
      var premium := if userId in users then users[userId].premium else false;
      var expiry := if userId in users then users[userId].expiry else None;
      users := users[userId := UserRecord([], None, premium, expiry, None, false, None, None, 0, now)];
    }

    /** `process_successful_payment` */
    method ProcessSuccessfulPayment(userId: int, payload: string, now: int, deleted: bool) returns (reply: PaymentReply)
      modifies this
      ensures Paid(users, reply) == Pay(old(users), userId, payload, now, deleted)
      ensures old(Valid()) ==> Valid()
    {
      if userId !in users {
        users := users[userId := Fresh(now)];
      }
      var plan := FindPlan(payload);
      if plan.None? {
        return PaymentError;
      }
      var expiryDate := now + plan.value.durationDays * Day;
      var rec := users[userId].(premium := true, expiry := Some(expiryDate));
      if TruthyNumber(rec.lastPayMessageId) && deleted {
        rec := rec.(lastPayMessageId := None);
      }
      users := users[userId := rec];
      reply := PremiumActive(plan.value.periodLabel, expiryDate);
      if old(Valid()) {
        PayKeepsRecordsOk(old(users), userId, payload, now, deleted);
      }
    }

    /** `handle_message`, with the search and the completion done by their own procedures. */
    method HandleMessage(userId: int, text: Option<string>, now: int, env: Services) returns (reply: Reply)
      modifies this
      ensures Handled(users, reply) == Handle(old(users), userId, text, now, env)
      ensures old(Valid()) ==> Valid()
    {
      if old(Valid()) {
        HandleKeepsRecordsOk(users, userId, text, now, env);
      }
      if text.None? || text.value == [] {
        assert StartOf(text) == TextOnly;
        return NotText;
      }
      var userText := Strip(text.value);
      assert StartOf(text) == Proceed(userText);
      var rec := if userId in users then users[userId] else Fresh(now);
      assert rec == RecordOf(old(users), userId, now);
      var step := HandleText(rec, userText, now, env);
      users := users[userId := step.rec];
      reply := step.reply;
    }
  }

  /**
   * The body of `handle_message` once the record exists, on that record: the limit, the
   * feedback branch, the expiry check, the answer and the recorded turn.
   */
  method HandleText(rec: UserRecord, userText: string, now: int, env: Services) returns (step: Step)
    ensures step == Process(rec, userText, now, env, Responder(userText, env))
  {
    var admitted, counted := Admit(rec, now);
    if !admitted {
      return Step(counted, LimitReached);
    }
    if counted.awaitingFeedback {
      var reply := if !env.feedbackConfigured then FeedbackUnavailable
                   else if env.feedbackDelivered then FeedbackThanks else FeedbackFailed;
      return Step(ClearFeedback(counted), reply);
    }
    var checked := ExpireIfDue(counted, now);
    step := AnswerTurn(checked, userText, env);
  }

  /** The subscription check: a premium whose expiry is set and past ends. */
  method ExpireIfDue(rec: UserRecord, now: int) returns (checked: UserRecord)
    ensures checked == CheckExpiry(rec, now)
  {
    checked := rec;
    if checked.premium {
      var expiry := checked.expiry;
      if TruthyNumber(expiry) && now > expiry.value {
        checked := checked.(premium := false, expiry := None);
      }
    }
  }

  /** Answer the message, then record the topic and the turn. */
  method AnswerTurn(rec: UserRecord, userText: string, env: Services) returns (step: Step)
    ensures step.reply == Answered(Answer(userText, rec, env))
    ensures step.rec == Converse(rec, userText, step.reply.response)
  {
    var response := Respond(userText, rec, env);
    var history := rec.history;
    var newTopic := if response != [] then Some(ExtractTopic(response)) else rec.activeTopic;
    var after := rec.(activeTopic := newTopic);
    after := after.(history := LastN(history + [Message(User, userText), Message(Assistant, response)], HistoryWindow));
    step := Step(after, Answered(response));
  }

  /** The request-limit step: open a new window after 24 hours, then refuse, or count the request. */
  method Admit(rec: UserRecord, now: int) returns (admitted: bool, counted: UserRecord)
    ensures admitted <==> Refresh(rec, now).requestCount < DailyLimit
    ensures counted == if admitted then Refresh(rec, now).(requestCount := Refresh(rec, now).requestCount + 1) else Refresh(rec, now)
  {
    counted := rec;
    var currentTime := now;
    var lastReset := counted.lastReset;
    if currentTime - lastReset >= Day {
      counted := counted.(requestCount := 0, lastReset := currentTime);
    }
    if counted.requestCount >= DailyLimit {
      return false, counted;
    }
    counted := counted.(requestCount := counted.requestCount + 1);
    admitted := true;
  }

  /** The search (when configured and not a code request), the relevance gate, and the completion. */
  method Respond(userText: string, rec: UserRecord, env: Services) returns (response: string)
    ensures response == Answer(userText, rec, env)
  {
    var isCodeRequest := ContainsAny(Lower(userText), CodeKeywords);
    var activeTopic := rec.activeTopic;
    var searchData: Option<seq<SearchResult>> := None;
    if env.searchConfigured && !isCodeRequest {
      searchData := GetGoogleCseInfo(userText, activeTopic, env.provider, env.alive);
      if searchData.Some? && searchData.value != [] {
        var relevant := IsRelevant(searchData.value, userText, activeTopic);
        if !relevant {
          searchData := None;
        }
      } else {
        searchData := None;
      }
    }
    var delays, request;
    response, delays, request := GetUnlimResponse(env.systemPrompt, rec.history, userText, searchData, MaxRetries, env.api);
  }
}
