# Emma bot core, modelled in Dafny

Emma is a Telegram companion bot. Around its I/O glue (aiogram handlers, a FastAPI
webhook, Firestore, OpenRouter and Google Custom Search over HTTP) sit a few small,
deterministic pieces. This project models those pieces and proves what they promise.

- **Text** (`text.dfy`): the Python string operations the bot relies on. These are
  `lower()`, `in`, `strip()`, `replace()`, `re.findall(r'\w+')`, `xs[-n:]` and `str(n)`.
- **Topic** (`topic.dfy`): `extract_topic`, the label that becomes the active topic.
- **Relevance** (`relevance.dfy`): `is_relevant`. The float test `ratio > 0.5` becomes
  `2*relevant > total`, and a lemma proves the two equivalent.
- **Search** (`search.dfy`): post-processing in `get_google_cse_info`.
  - Clarification phrases are replaced by the active topic.
  - Results are deduplicated by link, first occurrence wins.
  - Dead snippets are dropped, and a liveness probe gates the rest.
  - The answer is `None` rather than an empty list.
- **Completion** (`completion.dfy`): `get_unlim_response`, the message list and the
  bounded retry on HTTP 429 with delays `2^attempt`. It also covers the prototype's
  request in `test_bot.py`.
- **Markup**, **Html** and **Sanitizer** (`markup.dfy`, `html.dfy`, `sanitizer.dfy`):
  `validate_and_fix_html`, in three parts.
  - The three markdown rewrites.
  - The tag-stack scanner, proved to emit well-nested `b`/`i`/`a` tags.
  - The final tag-stripping pass.
- **Dispatch** (`dispatch.dfy`): `send_long_message`. It cleans and sanitizes the
  reply, chooses the keyboard, and sends the reply whole or as fixed-width slices.
- **Session** (`session.dfy`): the per-user record in `user_data` and the three
  handlers that change it.
  - `handle_message`: daily limit, feedback, premium expiry, answer, history window
    and topic.
  - `clear_history`.
  - `process_successful_payment`, with the tariff table.
- **MarkdownV2** (`markdownv2.dfy`): `clean_markdown` from `test_bot.py`. It escapes
  line by line with a code-fence toggle, truncates, and closes an unpaired fence.

How the outside world is modelled:

- Time is integer seconds, read once per handler call (`now`).
- The search provider, the HEAD probe, the completion endpoint and the feedback chat
  are inputs.
- Each `asyncio.sleep` is recorded as a delay.
- Telegram sends are results or recorded outputs, and Firestore writes are left out.

Where the imperative source updates state or loops, the model is a method proved
equal to a specification function. The properties are proved as lemmas about that
function. The in-memory `user_data` is the `users` map of the class `Session.Bot`.

## Model

| member | source | states |
|---|---|---|
| Topic.FirstTopicFrom | telegram_bot.py:137-139 | the row found matches with two keyword hits, and no earlier row matches; when none is found, no row matches |
| Topic.ExtractTopic | telegram_bot.py:133-143 | an apology gives "общее"; otherwise the first matching table row wins; with no matching row the result is the first two words or "общее"; never empty |
| Topic.CosmosExample | telegram_bot.py:93-94 | "космос" together with "большой взрыв" selects the topic "вселенная" |
| Relevance.KeyTerms | telegram_bot.py:148-150 | every key term is a non-empty word |
| Relevance.CountRelevant | telegram_bot.py:151-156 | the count of relevant results never exceeds the number of results |
| Relevance.IsRelevant | telegram_bot.py:145-159 | the loop answers false on no results; otherwise it answers exactly "count/total > 0.5", and that equals `2*count > total` |
| Relevance.RatioIsHalfComparison | telegram_bot.py:157-159 | for a positive total the real-valued ratio test equals the integer test |
| Relevance.CountRelevantAppend | telegram_bot.py:151-156 | counting over a concatenation adds the two counts |
| Relevance.CountRelevantAll | telegram_bot.py:151-156 | every result counts exactly when every result mentions a key term |
| Relevance.CountRelevantNone | telegram_bot.py:151-156 | no result counts exactly when none mentions a key term |
| Relevance.UnanimousResults | telegram_bot.py:151-159 | results that all mention the query are relevant; results none of which do are not |
| Relevance.NoTermsNoRelevance | telegram_bot.py:148-159 | a query and topic without any word make every result list irrelevant |
| Search.FirstWithLink | telegram_bot.py:241-245 | the index returned is the first item with that link, or the length when there is none |
| Search.DedupDistinct | telegram_bot.py:239-245 | deduplication yields distinct links, covers every link of the input, and repeats none already seen |
| Search.DedupKeepsFirst | telegram_bot.py:239-245 | each kept item is the first one in provider order with its link, and kept items stay in provider order |
| Search.Survivors | telegram_bot.py:246-257 | survivors are no more than the items; each passed the probe and carries a link some item had |
| Search.SurvivorsComeFromKeptItems | telegram_bot.py:246-257 | every survivor is the defaulted form of an item without a dead snippet whose link the probe accepted |
| Search.SurvivorsDistinct | telegram_bot.py:239-257 | items with distinct links give survivors with distinct links |
| Search.CseInfoShape | telegram_bot.py:216-265 | the result is `None` or a non-empty list with distinct, probed links, each from a provider item without a dead snippet |
| Search.ClarificationSearchesTopic | telegram_bot.py:217-218 | a clarification phrase with a non-empty active topic searches for the topic itself |
| Search.TellMeMoreExample | telegram_bot.py:217-218 | "tell me more" with topic "вселенная" sends the query "вселенная" |
| Search.DedupByLink | telegram_bot.py:239-245 | the first loop computes exactly the deduplication, first occurrence winning |
| Search.KeepAlive | telegram_bot.py:246-257 | the second loop computes exactly the survivors of the snippet filter and the probe |
| Search.GetGoogleCseInfo | telegram_bot.py:216-265 | the whole procedure equals the specification; a list it returns is non-empty with distinct links |
| Completion.BuildSearchBlock | telegram_bot.py:313-320 | the block is the header followed by the entries numbered from 1, and entry k+1 holds result k |
| Completion.EntriesMention | telegram_bot.py:315-320 | entry `from+k` occurs in the numbered block |
| Completion.BuildMessages | telegram_bot.py:308-321 | the list is the system prompt, the last `window` turns in order, the user turn, then one search turn when there is search data; at most window+3 entries |
| Completion.MetaQuestionDropsSearch | telegram_bot.py:271-272 | a meta-question is sent without a search turn, whatever the search found |
| Completion.PrototypeRequest | test_bot.py:107-127 | the prototype sends at most 13 messages, and 1500 tokens for code requests but 200 otherwise |
| Completion.PrototypeReply | test_bot.py:122-131 | the prototype makes one attempt: any exception gives the apology, and the reply is missing only when the endpoint sent no content |
| Completion.Pow2 | telegram_bot.py:336 | every delay is at least one second |
| Completion.RetryFrom | telegram_bot.py:269-340 | at most `maxRetries` sleeps; each sleep k is `2^k` after a rate-limited attempt; the reply comes from the stopping attempt, which is rate limited only when it is the last |
| Completion.RetryAfterRateLimit | telegram_bot.py:333-339 | a rate-limited failure with retries left sleeps `2^attempt` and continues with the next attempt |
| Completion.RetryStops | telegram_bot.py:332-340 | any other outcome ends the loop at that attempt without a sleep |
| Completion.GetUnlimResponse | telegram_bot.py:267-340 | the request sent is the reference request, and the reply and delays are those of the retry specification |
| Completion.RetryLoop | telegram_bot.py:269-340 | the loop yields the reply and the delays of the retry specification |
| Completion.UtilsRetryRaisesOnRateLimit | utils.py:321-327 | in the utils.py copy, the first rate-limited failure with retries left raises, where the reference loop sleeps one second |
| Completion.UtilsRetryAgreesOtherwise | utils.py:321-328 | in every other case the utils.py copy answers as the reference loop, which then sleeps not at all |
| Completion.DoublingDelays | telegram_bot.py:335-338 | sleeping 1, 2, 4, … seconds n times adds up to `2^n - 1` seconds |
| Completion.Pow2Monotone | telegram_bot.py:336 | delays grow with the attempt number |
| Completion.WaitIsBounded | telegram_bot.py:269-338 | whatever the endpoint does, the loop sleeps at most `maxRetries` times and at most `2^maxRetries - 1` seconds |
| Completion.PersistentRateLimit | telegram_bot.py:333-340 | an endpoint that always answers 429 costs every retry and ends in the apology |
| Completion.FirstUsableAttemptDecides | telegram_bot.py:269-340 | the first attempt that is not rate limited decides the reply, after one sleep per earlier attempt |
| Markup.FindCloser | telegram_bot.py:162-163 | a closer that is found lies inside the text |
| Markup.FindCloserIsFirst | telegram_bot.py:162-163 | the lazy group stops at the first closer, with no newline before it; when it finds none, no closer precedes the first newline |
| Markup.FindCloserStopsAtNewline | telegram_bot.py:162-163 | the search for a closer never looks past the first newline |
| Markup.RewritePairAbsent | telegram_bot.py:162-163 | text without the delimiter's first character is unchanged |
| Markup.RewritePairMatch | telegram_bot.py:162-163 | where a delimited span matches, it becomes open + group + close, and the rewrite continues after it |
| Markup.BoldSpan | telegram_bot.py:162 | `**x**` on one line becomes `<b>x</b>` |
| Markup.BoldCloser | telegram_bot.py:162 | in `**x**rest` the lazy group ends at the end of `x` |
| Markup.SpaceRun | telegram_bot.py:164 | the run of `\s` at the start of the text is maximal |
| Markup.LastNewline | telegram_bot.py:164 | the index found holds the last newline |
| Markup.HeadingMatch | telegram_bot.py:164 | a heading match ends with a newline and its group holds none |
| Markup.HeadingRewriteAbsent | telegram_bot.py:164 | text without `#` is unchanged by the heading rewrite |
| Markup.HeadingRewriteMatch | telegram_bot.py:164 | a matching heading becomes `<b>group</b>` plus a newline, and the rewrite continues after it |
| Markup.HeadingLine | telegram_bot.py:164 | `### title` plus a newline becomes `<b>title</b>` plus a newline |
| Markup.HeadingLineMatch | telegram_bot.py:164 | the match of a heading line has the title as its group and spans the whole line |
| Markup.EmptyHeadingBacktracks | telegram_bot.py:164 | a marker followed only by blanks backtracks to an empty group ending at the line break |
| Markup.EmptyHeadingMatch | telegram_bot.py:164 | the backtracking match of a blank heading has an empty group |
| Markup.RewritePlain | telegram_bot.py:162-164 | text without `*` and `#` passes the three rewrites unchanged |
| Html.LetterRun | telegram_bot.py:172 | the run of ASCII letters at the start of the text is maximal |
| Html.MatchClose | telegram_bot.py:172 | a match is `</`, a non-empty letter run and `>` |
| Html.MatchOpen | telegram_bot.py:185 | a match is `<`, a non-empty letter run, then `>` or whitespace, ending at the first `>` |
| Html.EscapeAngles | telegram_bot.py:192 | the escaped text holds no `<` and no `>` |
| Html.CloseStep | telegram_bot.py:171-183 | the scan always advances and stays within the text |
| Html.OpenStep | telegram_bot.py:184-196 | the scan always advances and stays within the text |
| Html.Step | telegram_bot.py:169-199 | each iteration advances and stays within the text |
| Html.ReplayAppend | telegram_bot.py:169-202 | replaying emitted tags over a concatenation replays the parts in turn |
| Html.ReplayClosing | telegram_bot.py:200-202 | the forced closing tags empty any stack |
| Html.StepReplay | telegram_bot.py:169-199 | replaying one step's tags yields exactly the stack that step leaves |
| Html.ScanFromReplay | telegram_bot.py:169-202 | from any position and stack, the emitted tags replay to the empty stack |
| Html.ScanWellNested | telegram_bot.py:169-202 | the scanner's output is well nested and leaves nothing open |
| Html.StepPiecesOk | telegram_bot.py:169-199 | a step emits only supported tags and keeps only supported names on the stack |
| Html.OpenStepOk | telegram_bot.py:184-196 | an opening step copies only supported, complete tags and escapes the rest |
| Html.OpenTagCutOut | telegram_bot.py:185-190 | the copied opening tag has the shape of a complete tag |
| Html.ClosingOk | telegram_bot.py:200-202 | the forced closing tags are supported tags |
| Html.ScanFromOk | telegram_bot.py:169-202 | everything emitted from any position names a supported tag |
| Html.ScanOnlySupported | telegram_bot.py:165-202 | only `b`, `i` and `a` tags come out of the scanner |
| Html.ScanClose | telegram_bot.py:171-183 | the `</` branch emits, advances and pops as the specification step does |
| Html.ScanOpen | telegram_bot.py:184-196 | the `<` branch emits, advances and pushes as the specification step does |
| Html.ScanOne | telegram_bot.py:169-199 | one loop iteration matches the specification step |
| Html.ScanFromStepRender | telegram_bot.py:169-199 | the emitted text is rendered one step at a time |
| Html.ScanTags | telegram_bot.py:166-202 | the scanning loop and the closing loop emit exactly the rendering of the well-nested specification scan |
| Html.CloseOpenTags | telegram_bot.py:200-202 | one closing tag is appended per open tag, innermost first |
| Sanitizer.SpanAt | telegram_bot.py:203 | a span is `<`, at least one character other than `>`, and the first `>` |
| Sanitizer.FinalPassShrinks | telegram_bot.py:203 | the final pass never lengthens the text |
| Sanitizer.FinalPassCopies | telegram_bot.py:203 | a character other than `<` is copied |
| Sanitizer.FinalPassPlainPrefix | telegram_bot.py:203 | a prefix without `<` is copied |
| Sanitizer.FinalPassNoAngle | telegram_bot.py:203 | text without `<` is unchanged by the final pass |
| Sanitizer.FinalPassKeepsTag | telegram_bot.py:203 | a `b`, `i` or `a` tag is kept whole |
| Sanitizer.FinalPassKeepsPiece | telegram_bot.py:203 | every piece the scanner emits, other than a stray `<`, survives the final pass |
| Sanitizer.FinalPassKeepsScan | telegram_bot.py:169-203 | without a stray `<`, the final pass leaves the scanner's output as it is |
| Sanitizer.ValidateAndFixHtml | telegram_bot.py:161-206 | the procedure equals the specification, and is no longer than the scanner's output |
| Sanitizer.SanitizeIsScanOutput | telegram_bot.py:161-206 | without a stray `<`, the answer is the scanner's well-nested output of supported tags |
| Sanitizer.ScanNoAngle | telegram_bot.py:169-199 | without `<`, the scanner copies the text and opens nothing |
| Sanitizer.SanitizePlain | telegram_bot.py:161-206 | text without `<`, `*` and `#` comes back unchanged |
| Sanitizer.RewriteBold | telegram_bot.py:161-164 | all three rewrites together turn a bold span `**x**`, with no `*`, `#` or line break in `x`, into `<b>x</b>` |
| Sanitizer.SanitizeBoldX | telegram_bot.py:161-206 | the whole reference pipeline turns `**x**` into `<b>x</b>` |
| Sanitizer.StrayAngleSwallowsTag | telegram_bot.py:203 | `1 < 2 <b>x</b>` loses `< 2 <b>` and keeps a closing tag that closes nothing |
| Sanitizer.StrayAngleSpan | telegram_bot.py:203 | the span from the stray `<` runs to the end of `<b>` and is deleted |
| Sanitizer.DanglingCloseKept | telegram_bot.py:203 | the dangling `</b>` is a supported tag and is kept |
| Sanitizer.UtilsSanitize | utils.py:73-170 | the utils.py copy on each parser outcome: text with no tag comes back as it is (markdown not rewritten), serialized markup is sanitized like the reference, and on a parser error the original text is sanitized like the reference |
| Sanitizer.UtilsNoTagKeepsMarkdown | utils.py:73-77 | the two copies differ: with no tag found the utils.py copy returns `**x**` unchanged, while the reference gives `<b>x</b>` |
| Sanitizer.UtilsAgreesOnPlainText | utils.py:73-78 | on plain text the utils.py copy and the reference agree |
| Dispatch.AppMarkup | telegram_bot.py:406-414 | the mini-app button is offered exactly when the mini-app is configured and its URL has at most 200 characters |
| Dispatch.EffectiveMarkup | telegram_bot.py:415 | a keyboard from the caller wins over the mini-app button |
| Dispatch.Chunks | telegram_bot.py:420 | every slice is non-empty and at most `m` long |
| Dispatch.ChunksConcat | telegram_bot.py:420 | the slices put back together give the text |
| Dispatch.ChunksCount | telegram_bot.py:420 | there are `ceil(L/m)` slices, and all but the last are full |
| Dispatch.WithMarkup | telegram_bot.py:422-423 | the parts are sent in order, and only the first carries the keyboard |
| Dispatch.Parts | telegram_bot.py:416-420 | the parts are undefined (`range` raises) exactly when the limit is zero and the text non-empty |
| Dispatch.SendLongMessage | telegram_bot.py:386-425 | the procedure stores, sends and raises exactly as the specification |
| Dispatch.SendParts | telegram_bot.py:421-424 | the loop sends the parts, the keyboard with the first |
| Dispatch.EmptyTextSendsNothing | telegram_bot.py:387-389 | empty text stores and sends nothing |
| Dispatch.ShortReplyIsOneMessage | telegram_bot.py:416-418 | a reply that fits goes out as one message with the keyboard, and is stored |
| Dispatch.LongReplyIsSliced | telegram_bot.py:419-425 | a longer reply goes out as `ceil(L/max_length)` slices of at most `max_length`, concatenating to the stored text, keyboard on the first only |
| Dispatch.SlicesSent | telegram_bot.py:420-424 | the slices as sent: count, lengths, concatenation and keyboard placement |
| Dispatch.HtmlModeNeverRaises | telegram_bot.py:393 | with HTML the limit is 4042 and the call never raises |
| Session.Fresh | telegram_bot.py:1098-1110 | a new record has no history, no premium and no expiry, a zero count, and its window starting now |
| Session.FindPlan | telegram_bot.py:1031-1040 | a found tariff is in the table and carries the payload; when none is found, no tariff carries it |
| Session.TariffTable | telegram_bot.py:103-131 | each tariff is found by its own payload and lasts 30, 90 or 365 days |
| Session.StartOf | telegram_bot.py:1087-1093 | a message without text, or with empty text, gets the text-only answer; otherwise the handler goes on with the stripped text; it never raises |
| Session.MessageWithoutTextCrashes | telegram_bot.py:1086-1087 | as written, a message without text raises, where the intended handler answers "text only" |
| Session.StartAgreesOnText | telegram_bot.py:1086-1093 | with a text present, the handler as written and as intended start alike |
| Session.Refresh | telegram_bot.py:1113-1117 | after 24 hours the count restarts at zero from now; before that nothing changes |
| Session.CheckExpiry | telegram_bot.py:1200-1205 | a premium with a set expiry in the past ends, and nothing else changes; premium never appears |
| Session.FeedbackReply | telegram_bot.py:1130-1190 | feedback is answered as unavailable, thanked or failed |
| Session.ConverseRecordsTurn | telegram_bot.py:1240-1246 | the history gains the user turn and the reply and keeps the last 20; the topic follows a non-empty reply; nothing else changes |
| Session.ProcessKeepsRecordOk | telegram_bot.py:1112-1246 | a message keeps the count within 50 and the history within 20 |
| Session.HandleStores | telegram_bot.py:1084-1246 | a message without text changes nothing; otherwise only the sender's processed record is stored |
| Session.HandleKeepsRecordsOk | telegram_bot.py:1084-1246 | every record stays within the bounds, and other users are untouched |
| Session.LimitRefuses | telegram_bot.py:1119-1125 | over the limit the message is refused and not counted |
| Session.CountedOnce | telegram_bot.py:1126 | under the limit the request is counted exactly once, whatever follows |
| Session.NewWindowAccepts | telegram_bot.py:1115-1126 | the first message 24 hours after the last reset opens a new window and is never refused |
| Session.AnsweredStep | telegram_bot.py:1199-1246 | an answered message records its turn on the record whose premium was checked |
| Session.AnsweredTurnRecorded | telegram_bot.py:1240-1246 | an answer appends the two turns, keeps the last 20, and sets the topic from a non-empty reply |
| Session.ExpiredPremiumEnds | telegram_bot.py:1200-1205 | an expired premium ends before the answer; an unexpired one stays |
| Session.FeedbackEndsWait | telegram_bot.py:1130-1197 | awaited feedback is forwarded instead of answered; the wait ends in every outcome and no turn is recorded |
| Session.CodeRequestSkipsSearch | telegram_bot.py:1219-1228 | a code request is answered without search data |
| Session.Cleared | telegram_bot.py:551-562 | `/clear` empties history, topic, feedback state and count, restarts the window, and keeps premium and expiry |
| Session.PaymentGrantsPremium | telegram_bot.py:1031-1042 | a known payload grants premium until now plus the tariff's days, and changes nothing a message uses |
| Session.UnknownPayloadChangesNothing | telegram_bot.py:1018-1040 | an unknown payload is an error, and leaves premium, expiry and a known user's record as they were |
| Session.PayKeepsRecordsOk | telegram_bot.py:1013-1070 | a payment keeps every record within the bounds |
| Session.PaidPremiumRunsOut | telegram_bot.py:1033-1042 | a message answered after the paid period ends the premium; one within it keeps it |
| Session.Bot.constructor | telegram_bot.py:83 | the bot starts with no users |
| Session.Bot.ClearHistory | telegram_bot.py:547-562 | the user's record is replaced by the cleared one, and the bounds are kept |
| Session.Bot.ProcessSuccessfulPayment | telegram_bot.py:1013-1082 | the users and the reply are those of the payment specification, and the bounds are kept |
| Session.Bot.HandleMessage | telegram_bot.py:1084-1255 | the users and the reply are those of the handler specification with the corrected start (Session.StartOf), and the bounds are kept |
| Session.HandleText | telegram_bot.py:1112-1246 | the record and reply are those of the record-level specification |
| Session.ExpireIfDue | telegram_bot.py:1200-1205 | the subscription check equals the expiry specification |
| Session.AnswerTurn | telegram_bot.py:1218-1246 | the reply is the answer, and the record gains the turn and the topic |
| Session.Admit | telegram_bot.py:1113-1127 | a message is admitted exactly when the refreshed count is under 50, and is then counted once |
| Session.Respond | telegram_bot.py:1218-1238 | the response is the one the specification computes from search, relevance and completion |
| MarkdownV2.SplitLines | test_bot.py:35 | `split('\n')` gives at least one line, none holding a newline |
| MarkdownV2.JoinSplit | test_bot.py:35 | joining the lines with newlines gives the text back |
| MarkdownV2.JoinLength | test_bot.py:49 | the joined text is the lines plus one newline between each two |
| MarkdownV2.EscapeLine | test_bot.py:45-46 | escaping at least keeps and at most doubles the length |
| MarkdownV2.UnescapeEscape | test_bot.py:45-46 | escaping loses nothing: the line can be read back, its own backslashes included |
| MarkdownV2.EscapeWithAll | test_bot.py:45-46 | replacing all 18 characters is the per-character flat-map escape |
| MarkdownV2.ReplaceOneMore | test_bot.py:45-46 | one more `replace` extends the escape by one character; backslashes already inserted are never escaped again |
| MarkdownV2.EscapeMarkdownLine | test_bot.py:45-46 | the loop of 18 successive replacements equals the per-character escape |
| MarkdownV2.CleanFrom | test_bot.py:38-47 | one cleaned line per input line |
| MarkdownV2.CleanFromLines | test_bot.py:38-47 | line k is kept when it is a fence line or follows an odd number of fence lines, and escaped otherwise |
| MarkdownV2.Truncated | test_bot.py:49 | the joined text is cut to at most 4000 characters |
| MarkdownV2.FenceCountAppend | test_bot.py:50 | no fence spans a character other than a backtick, so the counts of the two sides add up |
| MarkdownV2.ClosingFenceAddsOne | test_bot.py:50-51 | a newline and a fence add exactly one fence to any text |
| MarkdownV2.ClosedFencesPair | test_bot.py:50-51 | after closing, the fence count is even; the text is kept as a prefix; the fence is added exactly when the count was odd |
| MarkdownV2.CleanMarkdownShape | test_bot.py:49-51 | the answer has an even fence count, at most 4004 characters, and starts with the cut text |
| MarkdownV2.PlainLineUnchanged | test_bot.py:33-52 | a short line without special characters comes back unchanged |
| MarkdownV2.CleanMarkdown | test_bot.py:33-52 | the loop over lines with the code-block flag, the join, the cut and the closing fence equal the specification |

## Left out

- Telegram and aiogram sends, deletes, invoices, callbacks and chat actions. The FastAPI webhook, its lifespan and the processed-updates set. The reply a handler would send is its result.
- Firestore persistence: every save is a side effect that does not feed back into the state. The save in `send_long_message` is recorded as the stored text, whether or not a database is configured.
- The HTTP calls to Google Custom Search and OpenRouter, and the HEAD probe. They are inputs: `provider`, `api` and `alive`.
- `asyncio.sleep` is recorded as a delay; no timing is modelled.
- Concurrency between handlers at `await` points is not modelled; each handler runs to completion.
- The clock is read once per call (`now`). The source reads it several times, a few microseconds apart.
- Timestamps are integer seconds. Float timestamps, daylight-saving time and `timedelta` arithmetic become `now + days * 86400`.
- Sanitizer.UtilsSanitize: the BeautifulSoup pre-pass is an outcome given from outside (no tag found, serialized markup, or a parser error). The parser itself is not modelled.
- The persona system prompts are a parameter; their text is not reproduced.
- `get_unlim_response` is always called with `use_html=True`, so the MarkdownV2 prompt branch is not modelled.
- Logging, including the "расходятся"/"противоречия" warning, is a side effect only.
- The feedback branch's deletions of the bot's own messages are side effects and are not modelled.
- Text.LowerChar: `str.lower()` lowers the ASCII capitals and the Cyrillic capitals U+0400–U+042F only; the later Cyrillic capitals (U+0460–U+04FF, such as Ѣ, Ґ, Ӂ) and every other script are left as they are. `\w` is likewise limited to ASCII letters, digits, `_` and the letters of the Cyrillic block.
- Sanitize idempotence and balance after the final pass are not claimed, because both fail (Sanitizer.StrayAngleSwallowsTag). Balance is stated for the scanner's output.
- intent_recognizer.py, handlers.py, main.py, database.py, api_key_manager.py and the standalone search scripts are not part of this model.
- The other handlers of telegram_bot.py (`/start`, `/info`, `/pay`, `/feedback`, the tariff callbacks) are not part of this model. Of their state changes, only the ones these three handlers read are assumed: `awaiting_feedback` and the stored message identifiers.

## Findings

| source | as written | input that shows it | evidently intended | confidence | as-written member | corrected member |
|---|---|---|---|---|---|---|
| utils.py:326 | the retry path calls `asyncio.sleep`, but the module never imports `asyncio`, so a `NameError` escapes the retry loop | the first completion attempt fails with an error whose text contains "429", with `max_retries` 5 | sleep one second and try again, as telegram_bot.py:338 does | not executed | Completion.UtilsRetryRaisesOnRateLimit | Completion.RetryAfterRateLimit |
| telegram_bot.py:1086 | the first log line slices `message.text` before line 1087 checks that there is a text, so a message without text raises `TypeError` | a photo or sticker message, whose `text` is `None` | answer that only text messages are handled | not executed | Session.MessageWithoutTextCrashes | Session.StartOf |
