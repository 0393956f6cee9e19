# Telegram DevOps relay: a verified model

This project models the Cloudflare Worker in `cloudflare-worker/src/index.js`.
The worker receives Telegram webhook POSTs. It lets exactly one configured user
through. It acknowledges the message in the chat and then triggers a GitHub
Actions workflow through a `repository_dispatch` call. If GitHub refuses the
dispatch, it reports the failure back to the chat. Whatever happens, it answers
HTTP 200 "OK", so that Telegram never retries the webhook.

The model has four modules:

- `JsValues` (`js_values.dfy`): the JavaScript values the worker turns into
  strings with `String(...)` or template literals. These are numeric Telegram
  ids, string environment settings and `undefined`. Decimal rendering comes with
  a parser, and the round-trip lemma shows that comparing stringified numeric
  ids compares the numbers.
- `MarkdownV2` (`markdown_v2.dfy`): `escapeMarkdownV2` as the recursive
  function `Escape` over `seq<char>`. `Unescape` is its partner: a strict
  reading of MarkdownV2 plain text, where a backslash before a reserved
  character stands for that character and an unescaped reserved character is a
  parse error. The lemmas prove the length law, that escaping works character by
  character, the identity on text without reserved characters, and that
  `Escape` and `Unescape` are inverse bijections between all texts and the
  well-escaped texts.
- `Worker` (`worker.dfy`): the `fetch` handler as the method `Fetch`. Its
  inputs are the request (method, and the parsed update or a parse failure), the
  environment bindings and a `Network` value. `Network` says which outbound
  calls reject and what the dispatch answers. `Fetch` returns the HTTP response
  and the ordered list of outbound calls it issued: `SendMessage` (one
  `sendTelegram`) and `Dispatch` (the GitHub call). Its contract states every
  branch: the answer is always 200 "OK", and the sender is checked before the
  `/start` test. `/start` (a prefix test) never dispatches. The acknowledgement
  comes before the dispatch. A failure notice follows exactly when the dispatch
  answered a status outside 200–299 and its body could be read. A call that
  rejects ends the handler, with nothing after it. Lemmas show that the
  welcome, the acknowledgement and the failure notice are well-formed
  MarkdownV2 and read as intended. The unauthorised notice, sent as line 30
  writes it, is not well-formed (see "## Findings").
- `Scenarios` (`scenarios.dfy`): concrete runs whose full traces follow from
  `Fetch`'s contract alone: the "deploy hotfix" run, an unauthorised sender,
  `/startfoo`, a 404 from GitHub, a rejected acknowledgement and empty text.

`options.dfy` holds the `Option` datatype.

Details of the code that the model keeps:

- The character class of the regular expression at line 106 has nineteen
  characters, the backslash included: `` _ * [ ] ( ) ~ ` > # + - = | { } . ! \ ``.
- A failure notice is sent when `dispatchRes.ok` is false. `ok` is false for
  every status outside 200–299, 1xx included.
- The acknowledgement's outcome is not inspected. Only a rejected `fetch`
  (thrown into the catch block) stops the dispatch.

## Model

| member | source | states |
|---|---|---|
| `MarkdownV2.Escape` | cloudflare-worker/src/index.js:105-107 | The output length is the input length plus the number of reserved characters, so it lies between the input length and twice that length. |
| `MarkdownV2.EscapeAppend` | cloudflare-worker/src/index.js:105-107 | Escaping distributes over concatenation: the global replace treats every character independently. |
| `MarkdownV2.EscapeAt` | cloudflare-worker/src/index.js:105-107 | Each input character, in order, is emitted as a backslash followed by itself when it is one of the 19 reserved characters, and unchanged otherwise. |
| `MarkdownV2.CountReservedZero` | cloudflare-worker/src/index.js:106 | No reserved character is counted exactly when none occurs in the text. |
| `MarkdownV2.EscapeUnchangedIff` | cloudflare-worker/src/index.js:105-107 | A text is returned unchanged if and only if it contains no reserved character. |
| `MarkdownV2.UnescapeEscape` | cloudflare-worker/src/index.js:105-107 | Reading the escaped text as MarkdownV2 gives back exactly the original text, so escaping loses nothing and leaves no reserved character unescaped. |
| `MarkdownV2.EscapeUnescape` | cloudflare-worker/src/index.js:105-107 | Every well-escaped text is the escaping of what it reads as, so escaping maps onto all well-escaped texts. |
| `MarkdownV2.EscapeInjective` | cloudflare-worker/src/index.js:105-107 | Different texts never escape to the same output. |
| `MarkdownV2.UnescapePlain` | cloudflare-worker/src/index.js:105-107 | Text without reserved characters reads as itself. |
| `MarkdownV2.UnescapeEscaped` | cloudflare-worker/src/index.js:106 | A backslash followed by a reserved character reads as that character. |
| `MarkdownV2.UnescapeAppend` | cloudflare-worker/src/index.js:78 | Well-escaped pieces put side by side read as the concatenation of their readings; this is how the failure notice is assembled. |
| `MarkdownV2.EscapeEndsEscaped` | cloudflare-worker/src/index.js:105-107 | A reserved character at the end of escaped output always has a backslash right before it. |
| `MarkdownV2.UnescapeUnescapedEnd` | cloudflare-worker/src/index.js:100 | Text ending in a reserved character without a backslash before it is not well-formed MarkdownV2. |
| `JsValues.Decimal` | cloudflare-worker/src/index.js:23 | `String` of an integer: a non-empty string that starts with a minus sign exactly when the number is negative, followed only by digits. |
| `JsValues.ToJsString` | cloudflare-worker/src/index.js:23-26 | `String(v)` and template interpolation: a string is returned unchanged, `undefined` becomes the word "undefined", and a number becomes its decimal numeral, which reads back as that number. |
| `JsValues.NaturalDecimal` | cloudflare-worker/src/index.js:23 | `String` of a non-negative integer is a non-empty run of decimal digits with no leading zero. |
| `JsValues.NaturalDecimalRoundTrip` | cloudflare-worker/src/index.js:23 | Reading the digits of a non-negative integer back gives the integer. |
| `JsValues.DecimalRoundTrip` | cloudflare-worker/src/index.js:23 | Reading the decimal rendering of any integer back gives the integer. |
| `JsValues.DecimalInjective` | cloudflare-worker/src/index.js:26 | Two integers have the same decimal rendering if and only if they are equal. |
| `JsValues.StringifiedIds` | cloudflare-worker/src/index.js:23-26 | Two numeric ids pass the string comparison exactly when they are the same number. A numeric id matches a string setting exactly when the setting is its decimal numeral. |
| `Worker.Slice` | cloudflare-worker/src/index.js:78 | `slice(0, end)` keeps the first `min(end, length)` characters and is a prefix of the input. |
| `Worker.SendTelegram` | cloudflare-worker/src/index.js:93-103 | One sendMessage call whose URL is the Bot API root, then the stringified token, then `/sendMessage`. It carries the chat id and the text unchanged, with parse mode MarkdownV2. |
| `Worker.DispatchCall` | cloudflare-worker/src/index.js:53-71 | The dispatch request: the URL is `https://api.github.com/repos/`, then the stringified repository, then `/dispatches`. The authorisation is `token ` followed by the stringified PAT. The event type is `telegram-devops` and the message is the text unchanged. The payload's chat id is exactly `String(chatId)`: the numeral of a numeric id, which reads back as that id, the string itself, or "undefined". |
| `Worker.FailureHead` | cloudflare-worker/src/index.js:78 | The notice's head is the opening text with an escaped `(`, then the status's numeral, which reads back as the status, then an escaped `)` and `: `. |
| `Worker.FailureNotice` | cloudflare-worker/src/index.js:73-80 | The notice starts with the head and is at most 400 characters longer than it. The part after the head reads back in MarkdownV2 as the first min(200, length) characters of the error body, verbatim. |
| `Worker.Fetch` | cloudflare-worker/src/index.js:10-88 | The answer is always 200 "OK". A non-POST, an unparsable body, a missing message or empty text, or a missing `chat`/`from` makes no call. A sender whose stringified id differs from the allowed one gets exactly one notice, with line 30's text "⛔ Unauthorized user.", and that text does not read as MarkdownV2. An authorised `/start`-prefixed text gets exactly one welcome. Any other authorised text gets the acknowledgement first. The dispatch (`repos/<repo>/dispatches`, `token <pat>`, `telegram-devops`, the text unchanged, `String(chatId)`) follows exactly when the acknowledgement did not reject. A third call, the failure notice with the status and escaped body, follows exactly when the dispatch answered not-ok and its body was read. The only `Dispatch` ever issued is the second call of such a command. |
| `Worker.StatusIsPlain` | cloudflare-worker/src/index.js:78 | The status code embedded in the failure notice contains no reserved character. |
| `Worker.PlainThenEscaped` | cloudflare-worker/src/index.js:40 | Plain text followed by one escaped reserved character reads as the text followed by that character. |
| `Worker.FailureHeadReadsBack` | cloudflare-worker/src/index.js:78 | The head of the failure notice is well-formed MarkdownV2 and reads "❌ GitHub dispatch failed (<status>): ". |
| `Worker.FailureNoticeReadsBack` | cloudflare-worker/src/index.js:73-80 | The failure notice is well-formed MarkdownV2. It reads as "❌ GitHub dispatch failed (<status>): " followed by the first min(200, length) characters of the error body, verbatim. |
| `Worker.UnauthorizedAsWrittenIsMalformed` | cloudflare-worker/src/index.js:27-31 | The unauthorised reply as written ends in an unescaped period, so it is not well-formed MarkdownV2. |
| `Worker.UnauthorizedReadsBack` | cloudflare-worker/src/index.js:27-31 | The corrected unauthorised reply is well-formed and reads "⛔ Unauthorized user.". |
| `Worker.WelcomeReadsBack` | cloudflare-worker/src/index.js:37-41 | The welcome reply is well-formed MarkdownV2 and reads as its intended plain text. |
| `Worker.AckReadsBack` | cloudflare-worker/src/index.js:46-50 | The acknowledgement is well-formed MarkdownV2 and reads "⏳ Got it! Triggering pipeline...". |
| `Scenarios.DeployHotfix` | cloudflare-worker/src/index.js:22-71 | Sender 42, allowed as the string "42", sends "deploy hotfix" from chat 1001. The calls are the acknowledgement followed by the dispatch carrying message "deploy hotfix" and chat id "1001". |
| `Scenarios.UnauthorisedSender` | cloudflare-worker/src/index.js:26-33 | Sender 7 against the allowed "42": exactly one notice, "⛔ Unauthorized user." as line 30 writes it, which does not read as MarkdownV2, and no dispatch. |
| `Scenarios.StartPrefix` | cloudflare-worker/src/index.js:36-43 | `/startfoo` from the allowed user gets only the welcome, even when the dispatch would fail. |
| `Scenarios.DispatchNotFound` | cloudflare-worker/src/index.js:73-80 | A 404 from GitHub, with any error body, makes exactly three calls: the acknowledgement, the dispatch with message "deploy" and chat id "1001", then the failure notice for 404 and that body. |
| `Scenarios.AckRejected` | cloudflare-worker/src/index.js:46-53 | When the acknowledgement's fetch rejects, the acknowledgement is the only call. |
| `Scenarios.EmptyText` | cloudflare-worker/src/index.js:17-20 | An update with empty text is answered 200 "OK" with no calls. |

## Findings

| source | as written | input that shows it | evidently intended | confidence | as-written member | corrected member |
|---|---|---|---|---|---|---|
| cloudflare-worker/src/index.js:30 | The unauthorised reply "⛔ Unauthorized user." is sent with parse mode MarkdownV2, and its final period is not escaped. Telegram refuses such text, and `sendTelegram` ignores the refusal, so the notice is silently lost. | Any text message from a sender whose id differs from `ALLOWED_TELEGRAM_USER_ID` | "⛔ Unauthorized user\\.", escaped like the periods in the welcome (line 40) and the acknowledgement (line 49), so that the sender actually sees the notice | high that the text is malformed MarkdownV2 (proved); medium that Telegram drops it (service behaviour); not executed | `Worker.UnauthorizedAsWrittenIsMalformed` | `Worker.UnauthorizedReadsBack` |

`Worker.Fetch` sends the text as written, `UnauthorizedTextAsWritten`, and its
contract states that this notice does not read as MarkdownV2. The corrected text
is `UnauthorizedText`, and `Worker.UnauthorizedReadsBack` proves that it reads as
intended.

## Left out

- The HTTP transport is left out. Outbound calls are trace entries, and the network's answers are inputs (`Network`). The constant headers (`Accept`, `User-Agent`, `Content-Type`) and the JSON encoding of request bodies are not modelled.
- The Telegram and GitHub services are left out. Whether a resolved `sendMessage` was accepted is never observed by the worker, so it is not an input. `Unescape` models only how MarkdownV2 reads plain text; formatting entities such as bold or links are outside it, because the worker sends none.
- JSON parsing of the request body is abstracted to "parsed update or failure" (`Request.body`). A body that parses to `null`, where reading `.message` throws, falls under failure, because both end in the catch block with no call. A non-string truthy `text` is not modelled.
- A `sendTelegram` call that rejects is still recorded in the trace, since it was issued. The model does not record which call was the one that rejected when it is the last call of its path, because nothing observable follows either way.
- Numbers are integers. `String` of a JavaScript number is modelled for integer values only. Fractions, exponent notation and precision loss above 2^53 are left out, because Telegram ids and HTTP statuses are integers.
- `JsValues.Scalar` leaves out `null`, booleans and objects (`String(null)` is "null"), because Telegram sends numeric ids and the environment holds strings.
- `slice` counts UTF-16 code units, while the model counts characters. Splitting a surrogate pair is not modelled.
- async/await scheduling is reduced to the order of the trace. `console.error` logging in the catch block has no observable effect and is left out.
- `MarkdownV2.Unescape` rejects a backslash before a character that is not reserved, which Telegram accepts. `Escape` never produces one, so every lemma about `Escape` output holds for Telegram's reading too.
- `src/Portfolio.jsx` (the portfolio UI: rendering, theme toggle, contact form) is not part of this model.
