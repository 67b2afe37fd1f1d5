# Digest: verified model of request validation, prompt building and page state

Digest is a small web application. A user types a research query about
real-estate discussions and picks a timeframe. A hosted language model,
which can call a web-search tool, returns a markdown digest. This project
models the parts of the application that hold precise logic, and proves
properties about them:

- **The page's session state** (`app/page.tsx`). This is the recent-searches
  list: at most five queries, most recent first, with no repeats, kept in
  browser storage. The model covers the submit guard that ignores blank
  input, the example and history buttons, the 35-character display label,
  and the two helpers that read chat messages. The page is the class
  `Session.Home`. Its fields are `history`, `input`, `sent` (user messages
  handed to the chat hook) and a ghost `persisted` (the storage entry). The
  list operations are functions in module `History`. The message helpers are
  in module `Messages`.
- **The streaming endpoint's guards** (`app/api/digest/route.ts`). The chain
  checks the Anthropic key, then the Exa key, then the JSON body, then a
  non-empty `messages` array, then the 500-unit (UTF-16) limit on the last
  message. It ends by resolving the lookback window: 7, 90, or 30 days. This
  is module `DigestRoute`. `Post` maps an environment and an
  `Option<Body>` (where `None` is unparsable JSON) to `Reject(status, error)`
  or `Proceed(messages, lookbackDays)`.
- **The buffered endpoint** (`route.ts`). It checks the query (presence and
  type, blank, length), then the timeframe whitelist, and only then the API
  key. Its `catch` block maps a thrown error to 500, 429 or 500. This is
  module `BufferedRoute`. The model call `callDigest` is a function-valued
  parameter.
- **The user-prompt builder** (`lib/system-prompt.ts`). It maps a timeframe
  label and fills the template. This is module `SystemPrompt`. It includes
  an inverse that reads the query back out of a prompt.

Two small modules support the rest. `JsText` holds JavaScript's `trim` (with
the ECMAScript whitespace set), `includes`, `join` and `.length` over
`string`. A Dafny `string` is a sequence of Unicode scalar values, so `|s|`
counts characters. `Utf16Length` counts UTF-16 code units, as JavaScript's
`.length` does: a character outside the Basic Multilingual Plane counts
twice. The two routes' 500-unit length guards use it. `Optional` holds
`Option`.

Details of the code that the model keeps:

- `removeFromHistory` removes every copy of the query.
- The streaming route uses one shared message for an absent, non-array or
  empty `messages` field.
- The buffered route reports a missing key with the generic "Server
  configuration error". It checks the key after the input.
- The page calls `append({role: 'user', content})`. For the tool calls it
  reads `toolInvocations`, or parts whose type is exactly
  `tool-invocation`. Some tests in `__tests__` were written for another
  revision (`sendMessage({text})`, and parts whose type starts with
  `tool-`). The model follows `app/page.tsx`.

## Model

| member | source | states |
|---|---|---|
| JsText.TrimStart | app/page.tsx:45 | The result is a suffix of the input. Everything cut off is whitespace. The result does not start with whitespace. |
| JsText.TrimEnd | app/page.tsx:45 | The result is a prefix of the input. Everything cut off is whitespace. The result does not end with whitespace. |
| JsText.Trim | app/page.tsx:45 | The result is a contiguous piece of the input with only whitespace on either side. It is empty or starts and ends with a non-whitespace character. |
| JsText.TrimEmptyIffBlank | app/page.tsx:96 | The guard `inputValue.trim()` is falsy exactly when the input is empty or all whitespace. |
| JsText.TrimIdempotent | app/page.tsx:97 | Trimming a trimmed query changes nothing. This matters because the form trims before `addToHistory` trims again. |
| JsText.IsWhitespace | app/page.tsx:45 | The set `trim` removes: the ECMAScript WhiteSpace and LineTerminator code points (a definition). |
| JsText.IsTruthy | app/api/digest/route.ts:12-19 | A string-or-undefined value is truthy exactly when it is set and not "" (a definition). |
| JsText.Includes | route.ts:59-65 | `includes` holds exactly when the text occurs somewhere as a contiguous piece (a definition). |
| JsText.Join | app/page.tsx:61 | `join`: the strings with the separator between each two (a definition; its properties are `JoinLength` and `JoinSnoc`). |
| JsText.Utf16Length | app/api/digest/route.ts:49 | JavaScript's `.length`: at least the number of characters and at most twice it. |
| JsText.Utf16LengthBmp | app/api/digest/route.ts:49 | The UTF-16 length equals the number of characters exactly when every character lies in the Basic Multilingual Plane. |
| JsText.JoinLength | app/page.tsx:58-61 | Joining n texts adds exactly n-1 separators and nothing else. |
| JsText.JoinSnoc | app/page.tsx:58-61 | Joining one more text appends the separator and that text at the end. The texts appear in list order. |
| History.Take | app/page.tsx:46 | `slice(0, n)` returns the first min(n, length) entries. |
| History.Remove | app/page.tsx:81-82 | The filtered list is no longer than the input. It contains exactly the entries of the input that differ from the query. |
| History.RemoveSpec | app/page.tsx:82 | Removal keeps the other entries in their original order (a subsequence), with as many copies as before, and leaves no copy of the query. |
| History.RemoveKeepsOrder | app/page.tsx:82 | What removal keeps is a subsequence of the list: the original order is kept. |
| History.RemoveCounts | app/page.tsx:82 | After removal every other entry occurs as often as before, and the query does not occur. |
| History.RemoveAbsent | app/page.tsx:82 | Removing a query that is not in the list returns the list unchanged. |
| History.RemovePreservesWellFormed | app/page.tsx:81-84 | A list without repeats and at most 5 long stays so after a removal. |
| History.Add | app/page.tsx:44-46 | The result has 1 to 5 entries. Its first entry is the trimmed query, and the trimmed query occurs nowhere else. This holds even when the loaded list was longer than 5. |
| History.AddShape | app/page.tsx:46 | For any loaded list, over-long or with repeats included: after the trimmed query come the first entries of the list without it, as many as fit in 5, and the length is 1 plus that list's length, capped at 5. |
| History.AddKeepsOrder | app/page.tsx:46 | The entries after the first are old entries in their old relative order. |
| History.AddNew | app/page.tsx:14-46 | A new query goes in front of the whole list. If the list had 5 or more entries, every entry from the fifth on falls off. |
| History.AddExisting | app/page.tsx:46 | Re-adding a query already in a well-formed list only moves it to the front. The result has the same entries, none added and none lost. |
| History.AddPreservesNoDuplicates | app/page.tsx:46 | A list without repeats stays without repeats. |
| History.AddIdempotent | app/page.tsx:46 | Adding the same query twice equals adding it once. |
| History.Push | app/page.tsx:46 | The list step of `addToHistory` (filter, prepend, slice): 1 to 5 entries, the pushed entry first and nowhere else. |
| History.PushIdempotent | app/page.tsx:46 | Pushing the same entry twice equals pushing it once. |
| History.RemoveFront | app/page.tsx:82 | Filtering out an entry found only at the front leaves the rest of the list. |
| History.AddTrimmed | app/page.tsx:96-97 | Adding the trimmed input equals adding the raw input. |
| History.DisplayLabel | app/page.tsx:192 | An entry of 35 characters or fewer is shown unchanged. A longer entry is shown as its first 35 characters followed by "...", 38 characters in all. |
| Messages.IsLoading | app/page.tsx:29 | The controls are enabled exactly in the `ready` and `error` states. |
| Messages.UserMessage | app/page.tsx:90-98 | The message `append({role: 'user', content})` adds: a user message with that content and no parts (a definition; see `UserMessageText`). |
| Messages.TextsOf | app/page.tsx:58-60 | A text is returned exactly when some text part carries it, and there are no more texts than parts. With `TextsAppend` and `ExtractOne` this fixes the order too. |
| Messages.InvocationsOf | app/page.tsx:109-113 | An invocation is returned exactly when some tool-invocation part carries it, and there are no more invocations than parts. With `InvocationsAppend` and `ExtractOne` this fixes the order too. |
| Messages.PartsText | app/page.tsx:58-61 | The text parts' texts joined by "\n" (a definition; its properties are `PartsTextAppend` and `ExtractOne`). |
| Messages.GetMessageText | app/page.tsx:52-64 | A non-empty string content is returned as is. Otherwise a parts array gives its text parts' texts joined by "\n", other parts skipped (`PartsText`). With neither, the result is "". |
| Messages.GetToolInvocations | app/page.tsx:104-116 | A `toolInvocations` array is returned as is, whatever the parts hold. Otherwise a parts array gives the invocations of its tool-invocation parts, in order (`InvocationsOf`). With neither field, the result is empty. |
| Messages.TextsAppend | app/page.tsx:58-60 | The text extractor distributes over concatenation of the parts, so it keeps the parts' order. |
| Messages.InvocationsAppend | app/page.tsx:109-113 | The tool-invocation extractor distributes over concatenation of the parts, so it keeps the parts' order. |
| Messages.ExtractOne | app/page.tsx:57-61 | A single text part gives its text, a single tool-invocation part its invocation, any other part nothing; no parts give "". |
| Messages.PartsReadOnce | app/page.tsx:108-113 | Together the two extractors return at most one item per part. |
| Messages.PartsTextAppend | app/page.tsx:57-61 | Appending a text part adds "\n" and its text at the end, or only its text when no text came before. Appending any other part adds nothing. |
| Messages.MessageTextWithoutTextParts | app/page.tsx:57-63 | Without string content and without text parts, a message shows "". |
| Messages.UserMessageText | app/page.tsx:98 | A sent user message with non-empty content shows exactly that content and has no tool calls. |
| Session.Home.constructor | app/page.tsx:18-21 | The page starts with an empty history, an empty input and nothing sent. |
| Session.Home.LoadHistory | app/page.tsx:32-41 | A decodable stored list replaces the history. A missing or corrupt entry leaves the history as it was. |
| Session.Home.AddToHistory | app/page.tsx:44-49 | The history becomes `History.Add` of the old one. Storage holds the same list. Input and sent messages are untouched (frame). |
| Session.Home.RemoveFromHistory | app/page.tsx:81-85 | The history becomes `History.Remove` of the old one. Storage holds the same list. Nothing else changes. |
| Session.Home.SetInput | app/page.tsx:154 | Typing replaces the query field. |
| Session.Home.ClickQuery | app/page.tsx:88-91 | The history gets the trimmed query and storage follows. Exactly one user message is sent, with the query untrimmed. |
| Session.Home.SubmitForm | app/page.tsx:94-101 | Blank input changes nothing. Otherwise the history gets the trimmed input in front and storage follows. Exactly one user message is sent, with the trimmed input as its content. The input becomes "". |
| DigestRoute.LookbackDays | app/api/digest/route.ts:59-62 | `week` gives 7 days and `quarter` gives 90. Anything else, including absent, `month` and unknown values, gives 30. |
| DigestRoute.LastTooLong | app/api/digest/route.ts:47-49 | The last message has string content longer than 500 UTF-16 units (a definition; its behaviour is `LengthLimit`). |
| DigestRoute.StartDay | app/api/digest/route.ts:59-62 | Stepping the start day back in place lands exactly `LookbackDays` before today. |
| DigestRoute.LookbackMatchesLabel | app/api/digest/route.ts:59-62 | For every timeframe string, the day window agrees with the prompt label: 7 with "past week", 90 with "past 3 months", 30 with "past 30 days". |
| DigestRoute.Post | app/api/digest/route.ts:10-54 | Checks run in order, and the first failing one decides: Anthropic key 500, Exa key 500, invalid JSON 400, absent, non-array or empty messages 400. A status is 500 exactly for a configuration error. The request proceeds exactly when every check passes. It then forwards `messages` unchanged, with the resolved window. |
| DigestRoute.MissingKeyIgnoresBody | app/api/digest/route.ts:12-24 | With a key missing, the response is 500 and the same for every body. |
| DigestRoute.OnlyLastMessageChecked | app/api/digest/route.ts:48-49 | Changing earlier messages never changes whether a request proceeds, nor which rejection it gets. |
| DigestRoute.LengthLimit | app/api/digest/route.ts:48-54 | A string last content passes exactly when it has at most 500 UTF-16 units, and fails with 400 "exceeds maximum length" otherwise. Non-string content always passes. |
| BufferedRoute.Check | route.ts:8-48 | The input is accepted exactly when the query is a non-blank string of at most 500 UTF-16 units (untrimmed), the timeframe is whitelisted (absent means "month"), and the key is set. On acceptance the model receives the trimmed query and the timeframe. Every rejection is a failure envelope. A 500 rejection is exactly the configuration error. |
| BufferedRoute.EffectiveTimeframe | route.ts:8 | An absent timeframe defaults to "month" (a definition). |
| BufferedRoute.IsValidTimeframe | route.ts:33-34 | The timeframe is one of "week", "month" and "quarter" (a definition). |
| BufferedRoute.InputGuards | route.ts:11-39 | The four input rejections, each with its message: absent, non-string or "" gives "Query is required"; whitespace-only gives "Query cannot be empty"; over 500 UTF-16 units gives the length error; not whitelisted gives "Invalid timeframe". |
| BufferedRoute.InputBeforeKey | route.ts:11-48 | Invalid input gets the same 400 response whether or not the key is set. |
| BufferedRoute.MissingKeyOnlyForValidInput | route.ts:41-48 | Without a key, the response is 500 exactly when the input is otherwise valid. |
| BufferedRoute.Classify | route.ts:54-76 | Every caught error becomes a failure envelope with status 429 or 500. |
| BufferedRoute.ClassifyOutcomes | route.ts:57-76 | "authentication" is checked first and gives "Server configuration error". Otherwise "rate limit" gives 429. Anything else, including a non-Error, gives "Failed to process request". |
| BufferedRoute.UnreadableBody | route.ts:54-76 | A body that fails to parse goes straight to the classifier: 500 "Failed to process request", unless its error message names one of the two provider conditions. |
| BufferedRoute.Post | route.ts:4-78 | `success` is true exactly for status 200. A success carries data and no error. Every failure carries `success: false` and an error. The status is one of 200, 400, 429 or 500. An unreadable body gets the classifier's reply, and a rejected input gets exactly the guard's reply from `Check`. |
| BufferedRoute.SuccessForwardsTrimmedQuery | route.ts:50-53 | For valid input, the reply is the model call's text as `{success: true, data}`, or the classified error. The call receives the trimmed query and the validated timeframe. |
| SystemPrompt.TimeframeLabel | lib/system-prompt.ts:49-55 | `week` gives "past week" and `quarter` gives "past 3 months". Every other string, `month` included, gives "past 30 days". The three known timeframes get three different labels. |
| SystemPrompt.BuildUserPrompt | lib/system-prompt.ts:48-62 | The prompt is the fixed prefix, then the query verbatim and untrimmed, then the fixed tail that holds the label. |
| SystemPrompt.Tail | lib/system-prompt.ts:59-61 | The template text after the query, holding the label (a definition). |
| SystemPrompt.QueryRoundTrip | lib/system-prompt.ts:57-61 | Reading the query back out of a built prompt gives the original query. |
| SystemPrompt.PromptRoundTrip | lib/system-prompt.ts:57-61 | Any query read out of a prompt rebuilds that exact prompt. |
| SystemPrompt.PromptInjective | lib/system-prompt.ts:49-61 | Equal prompts have equal queries and equal labels, whatever text the query contains. |

## Left out

- Model and search calls (`streamText`, the `search_web` tool, the Exa client, the five-step cap, the streamed response) are foreign SDK calls. `DigestRoute.Post` stops at `Proceed`, which is the only outcome under which those calls are made.
- `callDigest` (lib/anthropic.ts) is a parameter of `BufferedRoute.Post`. Its own text-block join is not part of this model.
- Calendar dates: `StartDay` counts days as integers. The `Date` arithmetic and the ISO date string are not modelled.
- The content of `SYSTEM_PROMPT` and of the streaming route's inline system text is natural language with nothing to verify.
- Browser side effects are not modelled: React rendering, `useChat` streaming into assistant messages, the timeframe select, clipboard copying (`copyResults`) and its 2-second reset. Storage is the ghost field `persisted`. The decoded stored value is passed to `LoadHistory` as a parameter.
- Session.Home.LoadHistory: a stored JSON value that parses to a non-array is treated like a corrupt entry. The page would in fact put that value into its state.
- JSON parsing itself: a body is given already decoded. A streaming-route body that parses to `null` makes the destructuring throw outside the guards. `Option<Body>` has no such value, so that case is not modelled.
- `timeframeMap[timeframe]` also answers for prototype keys such as `"constructor"`. Only the three keys and the fallback are modelled. The buffered route's whitelist makes such keys unreachable there.
- `BufferedRoute.UnreadableBody` covers parse errors through their message. An engine whose parse-error message quotes a body containing "rate limit" or "authentication" would get 429 or the configuration error. The model classifies such a message the same way the code does.
- History.DisplayLabel: counts characters, not UTF-16 units. For entries outside the Basic Multilingual Plane (emoji), JavaScript's `length > 35` and `slice(0, 35)` count such a character twice and can cut a surrogate pair in half. A Dafny `char` cannot hold half a pair.
- Logging (`console.error` for a missing key and for a caught error in the buffered route) is a side effect on the server console and does not change a response. It is not modelled.
- Tool-call arguments are modelled as string-to-string maps. The page only reads `searchQuery` from them, for display.
