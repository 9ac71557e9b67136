# DramaQueen: session store and webhook turn protocol

DramaQueen is a WhatsApp bot. Each user talks to a generative backend for a few
turns. The conversation then ends with a "SNAP": a JSON termination payload
that the bot renders as a receipt image and sends back. This project models two
parts of the bot:

- the per-user session store (`services/sessionManager.js`), which keeps the
  conversation histories and the request counters in two mutable maps;
- the turn protocol of `server.js`:
  - `parseIncomingMessage`, which extracts an actionable text message from a
    webhook payload;
  - `parseSnapResponse`, which recognises and validates the SNAP payload;
  - the `GET /webhook` verification handshake;
  - the `POST /webhook` handler, one delivery at a time. It counts the message
    against the quota, stores the user turn, makes the free backend call and,
    when due, the forced one. It then either delivers a receipt and clears the
    session, or sends and stores the reply. A failure inside its `try`
    (server.js:113-176) leads to the fallback notice. The two failures outside
    it send no fallback: a quota notice whose send throws (server.js:103-107)
    and a body on which `trim` throws (server.js:40).

Modules, in dependency order:

- **Wrappers** defines `Option` and `Result`.
- **JsValues** holds the JavaScript semantics the parsers rely on:
  - JSON values, optional chaining, truthiness and `trim`;
  - the `String(...)` and `Number(...)` coercions, including the TypeError
    they throw on a parsed object with its own `toString` key (and on an array
    holding one), and the Infinity that `JSON.parse` makes of a literal such
    as `1e999`;
  - a `Runtime`, which stands for `JSON.parse`, `Number(string)` and the
    rendering of numbers as text. `Runtime` is a parameter because the model
    does not define it.
- **SessionStore** holds `class SessionManager`. Its two fields are maps updated
  by its methods.
- **Server** holds the pure decisions of `server.js`.
- **Webhook** holds the `POST /webhook` handler, in two forms:
  - `Respond` is the specification of one delivery. It gives the
    acknowledgement, the ordered trace of calls made, and the new store.
  - `HandlePost` is the imperative version. It performs the same steps on a
    `SessionManager` and is proved equal to `Respond`.

  Every awaited collaborator is given by a `World`: what each call site
  resolves with, or that it throws. The collaborators are the chat backend, the
  WhatsApp send, upload and image calls, the receipt renderer and the file
  removal. Each call site runs at most once per delivery, so a `World` covers
  every behaviour of the collaborators.
- **HandlerProperties** holds what the handler guarantees on every path,
  stated about `Respond` and its parts.

Behaviour of the source worth noting:

- The SNAP candidate comes from the greedy pattern `/\{[\s\S]*\}/`. It runs
  from the first `{` to the last `}`. It is not the first balanced object.
- `doomScore` is clamped to [0, 100] but not rounded, so it is a real number,
  not an integer.
- A failed handler path keeps the new user turn in the session. Only the reply
  is missing, so the session keeps the user turn.
- Two paths do not acknowledge the delivery: a body that `trim` throws on, and
  a quota notice whose send throws. Both happen outside the `try`.
- `parseSnapResponse` returns null, not a SNAP, when `String` or `Number`
  throws on one of the three fields, since the conversions run inside its
  `try` (server.js:63-77). A `DoomScore` that `JSON.parse` reads as Infinity
  (`1e999`) is not finite and scores 0.

## Model

| member | source | states |
|---|---|---|
| SessionStore.SessionManager.constructor | services/sessionManager.js:2-5 | both maps start empty |
| SessionStore.SessionManager.GetHistory | services/sessionManager.js:7-12 | returns the stored history, or the empty one for an unknown phone; the phone is then present with that history; nothing else changes |
| SessionStore.SessionManager.AppendUserMessage | services/sessionManager.js:14-17 | the phone's history grows by exactly one user turn with the given content; the other phones and the counters are unchanged |
| SessionStore.SessionManager.AppendAssistantMessage | services/sessionManager.js:19-22 | the same for an assistant turn |
| SessionStore.SessionManager.CountUserTurns | services/sessionManager.js:24-27 | returns the number of positions holding a user turn; the only change is that an unknown phone gets an empty history |
| SessionStore.SessionManager.IncrementRequestCount | services/sessionManager.js:29-34 | returns the previous count plus one (absent is 0) and stores it for that phone only; sessions are unchanged |
| SessionStore.SessionManager.GetRequestCount | services/sessionManager.js:36-38 | returns the stored count, and 0 for an absent phone |
| SessionStore.SessionManager.ResetRequestCount | services/sessionManager.js:40-42 | removes only that phone's count, which then reads as 0; sessions are unchanged |
| SessionStore.SessionManager.ClearHistory | services/sessionManager.js:44-46 | removes only that phone's session, so its next read is the empty history; counters are unchanged |
| SessionStore.UserTurns | services/sessionManager.js:26 | the number of user entries; `SessionStore.UserTurnsCountsPositions` ties it to the positions holding a user turn |
| SessionStore.UserEntries | services/sessionManager.js:26 | the filter keeps only user entries and never lengthens the history |
| SessionStore.UserEntriesAppend | services/sessionManager.js:26 | filtering an extended history is filtering the old one, plus the new turn if it is a user turn |
| SessionStore.UserTurnsAppend | services/sessionManager.js:14-27 | the user-turn count rises by 1 after a user append and stays the same after an assistant append |
| SessionStore.UserTurnsCountsPositions | services/sessionManager.js:24-27 | the count equals the size of the set of positions holding a user turn |
| JsValues.First | server.js:31-34 | `?.[0]` on an array yields its first element when there is one; only arrays, objects and strings yield anything |
| JsValues.TrimStart | server.js:40 | the result is a suffix of the input; everything dropped is whitespace; the result does not start with whitespace |
| JsValues.TrimEnd | server.js:40 | the result is a prefix of the input; everything dropped is whitespace; the result does not end with whitespace |
| JsValues.Trim | server.js:40 | `trim()`; `JsValues.TrimSlice` and `JsValues.TrimIdempotent` state what it keeps and removes |
| JsValues.TrimSlice | server.js:53 | `trim` keeps one contiguous slice, drops only whitespace on either side, and leaves no whitespace at either end |
| JsValues.TrimIdempotent | server.js:40 | trimming twice is trimming once |
| JsValues.ToJsString | server.js:72-73 | `String(...)` throws exactly when the value is an object with its own `toString` key or an array holding such a value at any depth |
| JsValues.JoinAll | server.js:72-73 | the `join` of converted array elements throws exactly when one element's conversion throws |
| JsValues.ToNumber | server.js:69 | `Number(...)` throws exactly when `String` would; otherwise undefined is not finite; null and false are 0; true is 1; a number is itself; an overflowed literal (Infinity) is not finite |
| Server.ParseIncomingMessage | server.js:30-50 | an actionable message has non-blank, already-trimmed text and a truthy name |
| Server.ParseIncomingOutcomes | server.js:30-50 | three outcomes, each an iff on the payload. Throw: the message is text and its body is neither nullish nor a string. Null: the message is missing or not text, the body is nullish, or the body trims to blank. Otherwise `from`, the trimmed body, and the profile name or "Friend" |
| Server.WhatsAppTextIsActionable | server.js:30-50 | a platform-shaped text message with a non-blank body yields its sender, its trimmed body and its profile name, or "Friend" |
| Server.WhatsAppProfileName | server.js:45-49 | a contact's profile name is used when non-empty; an empty one gives "Friend" |
| Server.WhatsAppNoContactName | server.js:48 | without a contact the name is "Friend" |
| Server.FirstIndexOf | server.js:58 | the index holds the character and no earlier index does; None when the character is absent |
| Server.LastIndexOf | server.js:58 | the index holds the character and no later index does; None when the character is absent |
| Server.GreedyBraceMatch | server.js:58 | the match opens with `{` and closes with `}`; it contains every other such pair, so it is the greedy match; None exactly when no `{` precedes a `}` |
| Server.MatchedText | server.js:58-64 | `match(...)?.[0]`: the text of the greedy match; its properties are stated by `Server.MatchedTextIsBraced` and `Server.MatchedTextOfSlice` |
| Server.SnapCandidate | server.js:53-64 | the text handed to `JSON.parse`: the match in the trimmed reply; `Server.CandidateIgnoresTrim` and `Server.CandidateSkipsNoise` state what it is |
| Server.MatchedTextIsBraced | server.js:58-61 | the matched text starts with `{` and ends with `}`; it is absent exactly when no `{` precedes a `}` |
| Server.ShiftedGreedyMatch | server.js:53-58 | removing a prefix without `{` and a suffix without `}` shifts the greedy match by the prefix length |
| Server.NoMatchInSlice | server.js:53-58 | a slice of a string without a match has no match |
| Server.MatchedTextOfSlice | server.js:53-58 | such a cut leaves the matched text unchanged |
| Server.CandidateIgnoresTrim | server.js:53-58 | the text passed to `JSON.parse` equals the greedy match in the untrimmed reply |
| Server.CandidateSkipsNoise | server.js:58 | a brace-delimited block with no `{` before it and no `}` after it is exactly the candidate |
| Server.ClampScore | server.js:69-71 | always in [0, 100]; above 100 gives 100, below 0 gives 0, non-finite gives 0, in range gives the value itself |
| Server.TextField | server.js:72-73 | a falsy field gives "", a string field gives itself, and the conversion throws exactly when the field is an object with its own `toString` (or an array holding one) |
| Server.ParseSnapResponse | server.js:52-78 | total; blank input gives null; no brace span gives null; a SNAP exactly when the candidate parses, its `Status` is exactly "SNAP" and none of the three field conversions throws (a throw is caught and gives null); the score is in [0, 100] |
| Server.SnapFields | server.js:69-74 | an accepted payload's score is the clamped coercion of `DoomScore`; a falsy `Summary`/`RealityCheck` gives ""; a string one gives itself |
| Server.SnapScoreClamped | server.js:63-77 | with `Status` "SNAP", a SNAP is produced iff no field conversion throws; its score is the number itself in [0, 100], 100 above that, 0 below it; an Infinity, a non-numeric string and a missing score each read 0 |
| Server.NarrationIsNotSnap | server.js:52-61 | a reply without any `{` is never a SNAP |
| Server.SnapOfCandidate | server.js:63-77 | a candidate that parses to a value with `Status` "SNAP" yields that value's clamped score and text fields, or null when a conversion throws |
| Server.VerifyWebhook | server.js:80-90 | 200 with the challenge iff the mode is "subscribe" and the token strictly equals the configured one (undefined equals an unset variable); 403 otherwise |
| Server.UnsetTokenAcceptsMissingToken | server.js:85 | with the variable unset, a subscribe request without a token is answered with the challenge |
| Server.VerifyWebhookStrict | server.js:85 | the intended check: the challenge is echoed only when a token is configured and presented |
| Server.StrictAgreesWhenConfigured | server.js:80-90 | whenever the token is configured, both checks answer alike |
| Webhook.OverQuota | server.js:102 | the quota test, off when the limit is not finite; `HandlerProperties.QuotaExceededStoresNothing` and `HandlerProperties.WithinQuotaConverses` state both sides |
| Webhook.DeliverReceipt | server.js:132-157 | the receipt steps: render, upload, image send by id, and the file removal in the `finally`; `HandlerProperties.ReceiptSteps` and `HandlerProperties.ReceiptFileAlwaysRemoved` state its guarantees |
| Webhook.Finish | server.js:132-162 | after the backend calls, either the receipt with the session finalised or the reply sent and kept; `HandlerProperties.FinishSteps` and `HandlerProperties.TerminatesOnlyAfterDelivery` state its guarantees |
| Webhook.AskBackend | server.js:113-130 | the free call and, when its reply is not a SNAP and the turn count is at least 4, the forced call; `HandlerProperties.AskedSteps`, `HandlerProperties.HeldReply` and `HandlerProperties.BackendCalledAtMostTwice` state its guarantees |
| Webhook.Converse | server.js:113-162 | the `try` block: the backend calls then `Finish`, failing when a call throws; `HandlerProperties.ContinuedEndsWithReply` and `HandlerProperties.ConverseIgnoresCleanup` state its guarantees |
| Webhook.Settle | server.js:158-161 | the session after the `try` block: removed when finalised, extended with the reply when continued, left with the user turn when failed; `HandlerProperties.SettleKeepsOthers` states that no other session changes |
| Webhook.Answer | server.js:110-176 | store the user turn, run the `try` block, and send the fallback notice when it failed; `HandlerProperties.AcceptOfConverse` and `HandlerProperties.SessionAfterMessage` state the outcomes |
| Webhook.Accept | server.js:100-176 | count the message, then either the quota notice or `Answer`; `HandlerProperties.QuotaExceededStoresNothing`, `HandlerProperties.WithinQuotaConverses` and `HandlerProperties.AcceptKeepsOthers` state its guarantees |
| Webhook.Respond | server.js:92-177 | one delivery: unacknowledged when parsing throws, acknowledged with no action without a message, `Accept` otherwise; `HandlerProperties.NoMessageNoAction`, `HandlerProperties.RespondToMessage` and `HandlerProperties.OtherSendersUntouched` state its guarantees |
| Webhook.CallBackend | server.js:113-130 | the calls made and the reply held equal the specification of the two backend calls; the store is unchanged |
| Webhook.SendReceipt | server.js:132-157 | the calls made and the delivered flag equal the specification of the receipt steps |
| Webhook.RunConversation | server.js:113-162 | the trace and outcome equal the specification of the try block; afterwards the store is cleared, extended with the reply, or left with the user turn |
| Webhook.HandleMessage | server.js:100-176 | acknowledgement, trace, sessions and counts equal the specification of an actionable message |
| Webhook.HandlePost | server.js:92-177 | acknowledgement, trace, sessions and counts equal `Respond` |
| HandlerProperties.ReceiptSteps | server.js:132-157 | the receipt counts as delivered iff the render, an upload with a truthy id, and the image send all succeed; the image is sent by that id; an attempted upload is always followed by the file removal, as the last call |
| HandlerProperties.FinishSteps | server.js:132-162 | the try block terminates iff a SNAP's receipt was delivered; it continues iff there is no SNAP and the reply was sent; no backend call is made here |
| HandlerProperties.AskedSteps | server.js:113-130 | one free call, plus a forced call with the same arguments exactly when the forced call is due |
| HandlerProperties.BackendCalledAtMostTwice | server.js:113-130 | the first call is the free one with the history and turn count; backend calls occur only at positions 0 and 1; the second is a backend call iff the free reply is not a SNAP and the turn count is at least 4, and it is then the forced call |
| HandlerProperties.HeldReply | server.js:113-130 | the reply held is the forced one when that call was due and the free one otherwise; it is absent iff a call threw; its parse is recorded with it |
| HandlerProperties.TerminatesOnlyAfterDelivery | server.js:132-158 | the session is finalised iff the held reply is a SNAP, the receipt rendered, the upload returned a truthy id and the image was sent; any image sent uses that id |
| HandlerProperties.ReceiptFileAlwaysRemoved | server.js:140-156 | whenever an upload is attempted, the last call removes that file, whether or not the upload or the send throws |
| HandlerProperties.QuotaExceededStoresNothing | server.js:101-108 | over a finite limit: the count is incremented; no history is stored; the only call is the quota notice; there is no backend call; the delivery is acknowledged iff the notice was sent |
| HandlerProperties.CountedBeforeQuotaCheck | server.js:101 | every actionable message stores the sender's count plus one |
| HandlerProperties.WithinQuotaConverses | server.js:101-119 | within the quota, or with no finite limit, the delivery is acknowledged and the first call is the free backend call with the stored history plus the new user turn |
| HandlerProperties.SessionAfterMessage | server.js:110-176 | within the quota, the outcome is one of three. Finalised: the session is removed. Continued: the reply, which is not a SNAP, is sent last and then stored after the user turn. Failed: the fallback is sent and the session keeps the user turn |
| HandlerProperties.ContinuedEndsWithReply | server.js:159-162 | a continued conversation ends by sending its reply, which is not a SNAP |
| HandlerProperties.UserTurnsGrowByOne | server.js:110-111 | when the session survives, its user-turn count is the old count plus one |
| HandlerProperties.SettleKeepsOthers | server.js:158-161 | settling the sender's session leaves every other session as it was |
| HandlerProperties.AcceptKeepsOthers | server.js:100-176 | an actionable message changes no other sender's session or count |
| HandlerProperties.OtherSendersUntouched | server.js:92-177 | a delivery changes neither the session nor the count of anyone other than its sender |
| HandlerProperties.NoMessageNoAction | server.js:94-98 | a payload without an actionable message is acknowledged with no call and no change |
| HandlerProperties.ConverseIgnoresCleanup | server.js:150-155 | the try block does not depend on whether the file removal or the fallback notice succeeds |
| HandlerProperties.AcceptIgnoresCleanup | server.js:150-174 | the same for an actionable message |
| HandlerProperties.CleanupAndFallbackOnlyLogged | server.js:150-174 | the same for a whole delivery: a failed removal and a failed fallback are only logged |
| HandlerProperties.Run | server.js:24-177 | successive deliveries handled in order against the one module-level store; `HandlerProperties.QuotaIsSticky` states what it keeps |
| HandlerProperties.QuotaIsSticky | server.js:101-108 | once a sender's count reaches a finite limit, their history stays as it was over any later sequence of deliveries from anyone, and their count stays at or above the limit |
| HandlerProperties.AcceptOfConverse | server.js:110-176 | within the quota: acknowledged, the try block's calls followed by the fallback when it failed, and the session settled by its outcome |
| HandlerProperties.RespondToMessage | server.js:94-100 | a payload carrying an actionable message is handled as that message |
| HandlerProperties.FirstMessageGetsNarration | server.js:101-162 | a new user's first message answered by narration gives the trace [free call with the one user turn, narration sent], the history [user turn, narration], and a count of 1 |
| HandlerProperties.ForcedSnapAtFourthTurn | server.js:110-158 | at the fourth user turn, a non-SNAP free reply triggers the forced call; its SNAP is rendered, uploaded, sent and removed; the session is cleared |
| HandlerProperties.ScoreOfEightySeven | server.js:63-74 | a forced reply whose `DoomScore` is "87" parses to a SNAP scored 87 with its summary and reality check |
| HandlerProperties.OwnToStringGivesNoSnap | server.js:63-77 | a SNAP reply whose `Summary` is an object with its own `toString` key gives null, not a SNAP |
| HandlerProperties.InfiniteScoreIsZero | server.js:69-71 | a SNAP reply whose `DoomScore` overflows to Infinity, with no text fields, gives a SNAP scored 0 with empty texts |
| HandlerProperties.UploadWithoutIdKeepsHistory | server.js:113-176 | at any turn, when the backend calls yield a SNAP (free or forced) and the upload gives no media id: the backend calls, then render, upload and removal of the file, then the fallback; the session keeps the user turn, so the next message sees that history |

## Left out

- `services/imageGenerator.js`, `services/openai.js` and `services/whatsapp.js`: these are canvas drawing, a model-provider SDK wrapper and HTTP calls. Each call is the corresponding result in a `World`, and the prompt text is not modelled. `uploadMedia` and `sendImageMessageById` are imported by `server.js` but their bodies are not part of this model.
- The Express wiring, the static mount, `dotenv` and `app.listen` (server.js:15-22, 179-182) are not modelled.
- Concurrent deliveries are not modelled. Deliveries are handled one at a time, and `HandlerProperties.Run` folds them in order.
- `HandlerProperties.Run` assumes that a delivery left unacknowledged (the `trim` TypeError at server.js:40, or a throwing quota notice at server.js:103-107) leaves the process and its store alive. That holds when the web framework catches the rejected handler promise. Otherwise, with a framework that ignores the promise, the unhandled rejection ends the process on current Node.js and both maps are lost. A text message whose body is a number, `{"type":"text","text":{"body":1}}`, would trigger it. Without the assumption, `HandlerProperties.QuotaIsSticky` does not hold across such a delivery. The framework version is not part of this model.
- Floating point is not modelled. Numbers are exact reals, plus the ±Infinity that `JSON.parse` gives for an overflowing literal; `Number(string)` (None for a non-finite result) and number-to-string are `Runtime` parameters. A counter past 2^53 would lose precision in JavaScript but is exact here.
- `JSON.parse` is a `Runtime` parameter, so the JSON grammar is not modelled. `trim`'s whitespace set is listed by code point. There is no UTF-16 surrogate handling.
- `maxRequestsPerUser` (server.js:25-28) is a parameter: `None` for a non-finite value (the NaN of an unparsable variable, or the Infinity of an over-long digit string), otherwise its integer. `Number.parseInt` itself is not modelled.
- The contents of a query parameter given as an array or object are not kept. It is modelled as one `Structured` value, which never strictly equals the configured token.
- JavaScript `Map` keys are compared by value here. An object used as a `from` key would be compared by reference in JavaScript.
- `SessionStore.SessionManager.GetHistory` returns the history by value. The source returns the stored array itself, so a caller's `push` would mutate the store. The source's only callers either push right away (append) or only read it.
- The quota notice's hardcoded "10", whatever the configured limit (server.js:105), is kept as the literal text. The mismatch is not analysed.
- The logging calls (`console.warn`, `console.error`) are not modelled.
- `HandlerProperties.FirstMessageGetsNarration`, `HandlerProperties.ForcedSnapAtFourthTurn` and `HandlerProperties.UploadWithoutIdKeepsHistory` are stated on the parsed message rather than on a raw payload. `HandlerProperties.RespondToMessage` and `Server.WhatsAppTextIsActionable` connect the two.
- `HandlerProperties.CountedBeforeQuotaCheck` states only the sender's new count. `HandlerProperties.AcceptKeepsOthers` covers everyone else's counts.

## Findings

| source | as written | input that shows it | evidently intended | confidence | as-written member | corrected member |
|---|---|---|---|---|---|---|
| server.js:85 | `token === process.env.WHATSAPP_VERIFY_TOKEN` is true when the variable is unset and the request carries no `hub.verify_token`, because both sides are undefined | `WHATSAPP_VERIFY_TOKEN` unset, `GET /webhook?hub.mode=subscribe&hub.challenge=c` gives 200 with `c` | the challenge is echoed only when a verify token is configured and the request presents it | not executed | Server.VerifyWebhook (shown by Server.UnsetTokenAcceptsMissingToken) | Server.VerifyWebhookStrict (agreement proved by Server.StrictAgreesWhenConfigured) |
