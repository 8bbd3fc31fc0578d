# Chat relay backend — a functional model in Dafny

This project models the decision logic of a small Express relay that lets a
client chat with a language model, turn text into speech and turn recorded
speech into text, keeping a conversation log per user. The language model,
the speech-synthesis API, the transcription service and the database are
collaborators the model does not look inside. They appear as function
parameters (`Completion`, `Params -> HttpReply`, `seq<bv8> -> ServiceReply`)
or as an in-memory store.

Modules, one per source concern:

- `ChatModel` (models/Chat.js): the `Message` and `Conversation` records.
  Also their schema defaults and the `required` rule on `userId`.
- `ChatRoutes` (routes/chat.js, the three conversation handlers):
  - The store is a `seq<Conversation>` in insertion order.
  - Send message: find or create the record, append the user turn, call the
    completion, append the reply, stamp `updatedAt`, save.
  - Fetch history: filter by user, sort newest first, keep at most ten.
  - Delete history: remove every record of the user.
- `Lmnt` (config/lmnt.js, `synthesizeSpeech`): the missing-key check, the
  merge of default and caller options, `conversational` stringification,
  the metadata read from response headers, and error classification.
  Classification checks the transport code first, then the HTTP status,
  then falls back to a catch-all. A `Kind` taxonomy, its text `KindText` and the
  inverse `Recognise` show that every failure has its own message.
- `SynthesizeRoute` (routes/chat.js `/synthesize`): ordered validation, body
  defaults, the format-to-Content-Type table and the failure status.
- `TranscribeRoute` (routes/chat.js `/transcribe`): the missing-file and
  empty-file checks, the service error, and extraction of the first
  channel's first alternative transcript.
- `Decimal`: JavaScript's decimal text of an integer and a parser that reads
  it back. It is used for the `LMNT API Error: <status>` message and for
  `conversational.toString()` on numbers.
- `Wrappers`: `Option`, `Result`, `Outcome`.

JavaScript values in request bodies and option objects are modelled as
`Value = Undefined | Null | Bool | Num | Str`. This lets the model state
truthiness (`!text`), destructuring defaults (they apply only to
`undefined`), and `.toString()` (which throws on `null`).

Three facts about the code shape the model:

- `error.response?.status || 500` (routes/chat.js:157) reads as a status
  passthrough. But `synthesizeSpeech` always rethrows a fresh `Error` that
  carries no `response` (config/lmnt.js:63-87), so the status is always
  500. `SynthesizeRoute.UpstreamStatusNeverPassedThrough` states this.
- The conversation record is saved once, after both turns are appended
  (routes/chat.js:74). So a failed completion leaves the store untouched.
- The 10 MiB audio limit belongs to the upload middleware
  (routes/chat.js:17-22), which runs before the handler (see Left out).

## Model

| member | source | states |
|---|---|---|
| ChatModel.NewMessage | models/Chat.js:4-11 | A message keeps its content and origin flag. Its timestamp is the one supplied, or the creation time when none is supplied. |
| ChatModel.NewConversation | models/Chat.js:13-27 | A new record holds the given user id and messages. `createdAt` and `updatedAt` both default to the creation time. |
| ChatModel.Validate | models/Chat.js:14-17 | Validation passes exactly when `userId` is a non-empty string. Otherwise it fails with the required-path message. |
| ChatRoutes.FindOne | routes/chat.js:45 | Returns the position of the user's first record, if there is one. Every earlier record belongs to another user. None means no record belongs to the user. |
| ChatRoutes.SendMessage | routes/chat.js:41-84 | A failed completion answers 500 with its message and leaves the store unchanged. An empty user id fails validation at save, after the completion call: 500, store unchanged. Otherwise the user's log grows by exactly the user turn then the reply turn. The response carries the reply and the whole updated log. Other users' records stay in place and unchanged. A new record is added only when the user had none. |
| ChatRoutes.FirstSendCreatesRecord | routes/chat.js:45-79 | For a user with no record, a send appends one record: the two turns (user then reply), `createdAt` at creation, `updatedAt` at save. The response is the reply with those two turns. |
| ChatRoutes.SendExtendsExistingLog | routes/chat.js:45-74 | For a user with a record, the number of records is unchanged. The old log is an unchanged prefix of the new one, which is two longer. `createdAt` is kept and `updatedAt` becomes the save time. |
| ChatRoutes.SendPreservesWellFormed | routes/chat.js:45-74 | Sends keep two facts true: every stored record has a non-empty user id, and no two records share a user. |
| ChatRoutes.SendAllAppendsTurns | routes/chat.js:50-74 | After a run of sends, each with its own completion answer and clock, the user's log is the old log followed by the reference `Turns`: a user turn and a reply turn for each answered send, in order. |
| ChatRoutes.TurnsAlternate | routes/chat.js:50-71 | The added turns alternate user/reply starting with the user, two per answered send. |
| ChatRoutes.TurnsContents | routes/chat.js:50-71 | When every send is answered, turn 2k is text k (from the user) and turn 2k+1 is the reply that send got. |
| ChatRoutes.SendAllFromEmpty | routes/chat.js:45-74 | N answered sends for a user with no record give a log of length 2N. It alternates starting with the user, and each text is followed by the reply it got. |
| ChatRoutes.RetryAfterFailure | routes/chat.js:50-84 | A send whose completion fails logs nothing, so retrying the same text when the service answers logs exactly the retry's pair. |
| ChatRoutes.SortNewestFirst | routes/chat.js:31 | The sort is a rearrangement (same multiset) of its input, ordered by non-increasing `updatedAt`. |
| ChatRoutes.FetchHistory | routes/chat.js:30-32 | Returns min(10, number of the user's records) records. All belong to the user and come from the store, newest first, with no record returned more often than it is stored. Every record of the user left out is no newer than any record returned. |
| ChatRoutes.UniqueUserFetchesAtMostOne | routes/chat.js:30-32 | With at most one record per user (the state sends maintain), fetch returns at most one record. |
| ChatRoutes.DeleteHistory | routes/chat.js:215-223 | Every record of the user is removed, and every other record keeps its multiplicity. The user then has no record. The answer is the 200 confirmation. |
| ChatRoutes.DeleteThenFetchIsEmpty | routes/chat.js:217 | After a delete, fetch history for the user returns nothing, and the next send starts from an empty log. |
| ChatRoutes.DeleteKeepsOtherHistories | routes/chat.js:217 | Deleting one user's history leaves every other user's fetched history exactly as it was. |
| ChatRoutes.DeletePreservesWellFormed | routes/chat.js:217 | Deletes keep every record with a user id and at most one record per user. |
| Decimal.IntTextRoundTrip | config/lmnt.js:83 | The decimal text of a status, as printed in `LMNT API Error: <status>`, parses back to that status. |
| Decimal.IntTextInjective | config/lmnt.js:83 | Distinct statuses print as distinct text. |
| Lmnt.MergeParams | config/lmnt.js:27-32 | The merged keys are the defaults' keys, the options' keys, `text` and `X-API-Key`. Every option overrides its default, and every default without an option keeps its value. `text` and `X-API-Key` are always the argument and the configured key. |
| Lmnt.Stringify | config/lmnt.js:35-37 | `toString` throws exactly for `null`. Booleans become "true"/"false", integers their decimal text, and strings stay as they are. |
| Lmnt.BuildParams | config/lmnt.js:26-37 | Building the query fails exactly when the merged `conversational` is `null` (the TypeError is caught like any failure). When it succeeds, every other key is the merged value. A defined `conversational` is replaced by its string form, and an undefined one stays undefined. |
| Lmnt.ConversationalDefaultsToFalse | config/lmnt.js:15-37 | With no caller `conversational`, the query carries the text "false". |
| Lmnt.ParamsFavourCaller | config/lmnt.js:27-32 | In the built query, `text` and `X-API-Key` equal the argument and the key even when the options hold those keys. Caller options win over defaults, and untouched defaults remain. |
| Lmnt.Classify | config/lmnt.js:61-88 | ENOTFOUND gives the connectivity kind and ETIMEDOUT the timeout kind, whatever the response. Otherwise a response status of 400/401/403/429 gives its own kind and any other status gives the generic status kind. With no response, the catch-all keeps the original message. |
| Lmnt.MessageRecognised | config/lmnt.js:61-88 | Every failure kind's message reads back as that kind, so no two kinds share a message. |
| Lmnt.MessagesDistinct | config/lmnt.js:63-87 | Two thrown messages are equal exactly when their kinds are equal. |
| Lmnt.Thrown | config/lmnt.js:62-87 | Every error the client throws has no `response`. Its message is exactly the kind's text (`KindText`, for example "LMNT API Error: 7" for status 7), is non-empty, and identifies its kind. |
| Lmnt.SynthesizeSpeech | config/lmnt.js:10-89 | With no key, it fails with "LMNT API key not configured" and sends no request. With a key, a request is sent exactly when the query builds, and it carries that query. A `null` `conversational` fails with "Synthesis failed: " followed by the engine's `null.toString()` message. The call succeeds exactly when the reply is a status-200 response: the audio is the body, and the metadata is the `x-sample-rate`, `x-duration-samples` and `content-type` headers. Every failure has no response and a non-empty message. After a request, the message is exactly the one for the classification of the rejection. |
| Lmnt.MissingKeyFailsFast | config/lmnt.js:11-13 | Without a key, the outcome is the same whatever the text, options or HTTP layer, and no request is made. |
| Lmnt.TransportCodeFirst | config/lmnt.js:63-71 | A recognised transport code is classified the same whether or not a response status is present. |
| SynthesizeRoute.Field | routes/chat.js:90-99 | A body field takes its default exactly when missing or `undefined`. A present value, `null` included, is used as is. |
| SynthesizeRoute.CheckRequest | routes/chat.js:101-111 | The checks run in order. A missing key gives 500 whatever the text. Then a falsy text gives 400. Then a string longer than 5000 gives 400. The request passes exactly when none applies. |
| SynthesizeRoute.LengthBoundary | routes/chat.js:109-111 | A text of exactly 5000 characters passes. One of 5001 gets the 400 length error. |
| SynthesizeRoute.RouteOptions | routes/chat.js:90-132 | The options passed on have exactly the seven synthesis fields, none undefined. Each is the body's value when defined, else the handler's default. |
| SynthesizeRoute.RouteDefaultsAreClientDefaults | routes/chat.js:90-99 | The handler's defaults equal the synthesis client's defaults. |
| SynthesizeRoute.ContentTypeFor | routes/chat.js:135-145 | Content-Type is the table entry for mp3/wav/aac/mulaw/raw, and otherwise the upstream content type. |
| SynthesizeRoute.FailureStatus | routes/chat.js:157 | The failure status is an attached non-zero response status, else 500. |
| SynthesizeRoute.ErrorText | routes/chat.js:156 | The error body is the error's message, or "Failed to synthesize speech" when the message is empty. |
| SynthesizeRoute.Synthesize | routes/chat.js:88-163 | The validation outcomes send nothing upstream. A request that passes validation is forwarded with the defaulted options, carrying the body's text and the configured key. The answer is audio exactly when upstream replied with status 200: the upstream body, Content-Type from the table or upstream, Content-Length equal to the byte count, the sample-rate and duration headers, and `no-cache`. Any other upstream reply answers 500 with the classified message, and a `null` `conversational` answers 500 with the synthesis-failed message. Errors are only ever 400 or 500, and a 400 never reaches upstream. |
| SynthesizeRoute.DefaultsReachUpstream | routes/chat.js:90-132 | A body with only a valid text sends the default options, `conversational` as "false", the text and the key. |
| SynthesizeRoute.UpstreamStatusNeverPassedThrough | routes/chat.js:153-162 | When upstream answers with a non-200 status, the handler answers 500, never that status. The error text is exactly the message for the classified failure. |
| TranscribeRoute.FirstTranscript | routes/chat.js:201 | The transcript is present exactly when result, results, a first channel, its alternatives, a first alternative and its transcript all exist, and it is that transcript. |
| TranscribeRoute.FirstTranscriptOfResult | routes/chat.js:201 | Extraction recovers the transcript of a one-channel, one-alternative result. |
| TranscribeRoute.Transcribe | routes/chat.js:166-212 | A missing file gives 400 and an empty file gives 400, with nothing sent. Otherwise the buffer is sent. A thrown exception gives 500 "Server error during transcription". A service error gives 500 "Transcription service error". A missing or empty transcript gives 500 "No transcript received from service". Otherwise the transcript is returned. |
| TranscribeRoute.ClientErrorsNeverCallService | routes/chat.js:168-205 | A 400 is answered exactly when nothing was sent. Everything sent ends in 200 or 500. |
| TranscribeRoute.TranscriptReturned | routes/chat.js:184-207 | A non-empty file whose result carries a non-empty transcript gets exactly that transcript back. |

## Left out

- Network calls: the language-model, speech-synthesis and transcription
  calls are function parameters, and their internals are not modelled.
  This also covers the fixed system prompt, model name and `max_tokens`,
  the transcription options, the HTTP client's base URL and its 30-second
  timeout.
- Persistence faults: database errors from `findOne`, `find`, `save` and
  `deleteMany` are not modelled. Each would answer 500 with the error's
  message. Mongoose's own mechanics are replaced by a sequence of records.
- Concurrency: two sends for the same user racing each other is not
  modelled, because every operation is a function of one store state.
- Clocks: `new Date()` and `Date.now()` are parameters. The four readings
  taken by one send are passed as a `Clock`.
- Console logging, Express response objects, and the server wiring
  (environment loading, CORS, the liveness route, `listen`) are not
  modelled.
- Upload handling: the 10 MiB limit and multipart parsing run in the
  middleware before the handler. A file is modelled as present or absent,
  with its size equal to its buffer length. The upload MIME type and file
  name are only logged and are not modelled.
- ChatRoutes.SendMessage: `userId` and `message` are modelled as strings.
  A body without them, or with non-string values, is not modelled. Neither
  is a completion whose reply content is `null`.
- ChatRoutes.FetchHistory: records with equal `updatedAt` come out in
  insertion order. The database promises no order among ties, so the
  contract states only the non-increasing order and the top-ten property.
- Lmnt.SynthesizeSpeech: a non-200 response is modelled as a rejection with
  a response and no `code`. The HTTP layer's own code for such a response
  is never `ENOTFOUND` or `ETIMEDOUT`, so classification is unaffected.
- Lmnt.Stringify: numbers are integers, and their text is the plain
  decimal form. Fractional numbers (a `speed` of 1.5, say) and JavaScript's
  exponent notation for very large numbers are not modelled. Objects and
  arrays as field values are not modelled.
- SynthesizeRoute.CheckRequest: `text.length` counts UTF-16 code units. The
  model counts the characters of the string as given, which is the same
  count only when every character is a single code unit.
- SynthesizeRoute.ContentTypeFor: a `format` naming an inherited object
  property such as `toString` is not modelled. In the source such a lookup
  yields a function rather than `undefined`.
- Audio bytes are opaque `seq<bv8>`.
