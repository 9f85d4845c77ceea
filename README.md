# idevo generative-tool API: a Dafny model

This project models the server side of idevo, a small web app. The app takes
a developer's role, technology stack and project complexity, asks a
generative-language model for a project idea, and returns the model's JSON
answer. Everything with logic sits in two API handlers:

- `POST /api/generative-tool` (`src/app/api/generative-tool/route.ts`). It
  counts the attempt under a client key and refuses the request once the key
  has more than three attempts. It then validates the body, builds the
  prompt, calls the generator, extracts the JSON from the reply and parses
  it. If the reply does not parse, it returns the raw reply with status 200.
  Any exception gives a 500.
- The placeholder handler (`src/app/api/generative-tool/index.ts`). It counts
  attempts on the same process-wide record. It answers with a fixed sample
  body that reports the attempt number, or with a 429.

Modules, one per concern:

- `JsText` (jstext.dfy) models the JavaScript built-ins the handlers use:
  `trim`, `split(",")[0]`, `join`, truthiness of optional strings, and
  number-to-decimal.
- `ClientKey` (clientkey.dfy) derives the client key for each handler.
- `Limiter` (limiter.dfy) holds the shared usage record. It is a class
  `UsageStore` with a `usage: map<string, nat>` field and a `Hit` method.
  It also has the replay lemmas over request sequences and the as-written
  model of the record as a JavaScript object literal (see Findings).
- `Extract` (extract.dfy) models `extractJSON`: its regular expression,
  matched exactly, and the `m[1] || m[2] || m[3]` chain.
- `Route` (route.dfy) holds the `POST` pipeline as a function `Respond` over
  an `Outcome` datatype (`TooMany | Invalid | Parsed(v) | Raw(text) |
  ServerError`). `Post` is the method that runs it on the shared store.
- `Index` (index.dfy) holds the placeholder handler.
- `Service` (service.dfy) has a client of both handlers that shows the
  two endpoints share one record.

Outside collaborators are parameters. The generator is
`generate: Prompt -> Option<string>`, where `None` means the call threw.
`JSON.parse` is `parse: string -> Option<V>`, where `None` means the text is
not JSON. A body that `req.json()` cannot decode, or that decodes to `null`, is `None`.

## Behaviour worth noting

- Fenced blocks are recognised only at the start of the reply. The third
  alternative of the regular expression matches at index 0 of every string,
  so a fence later in the reply is never reached.
- A fenced block with empty content makes `.trim()` throw on the missing
  group, and the handler answers 500 instead of falling back to the raw text.
- `POST` takes the client address from `x-forwarded-for`, then `req.ip`, then
  `x-real-ip`; the placeholder handler uses `x-forwarded-for`, then the
  socket's remote address.
- The placeholder handler's 429 body carries its text in an `error` field.

## Model

| member | source | states |
|---|---|---|
| JsText.Trim | src/app/api/generative-tool/route.ts:27 | `trim` gives the infix that starts after the leading whitespace and is followed only by whitespace; neither end of the result is whitespace |
| JsText.TrimIdempotent | src/app/api/generative-tool/route.ts:87-88 | trimming the already-trimmed reply again (inside `extractJSON`) changes nothing |
| JsText.TrimIgnoresLeadingWhitespace | src/app/api/generative-tool/route.ts:15 | whitespace in front of a text does not change its trim |
| JsText.TrimOfPadded | src/app/api/generative-tool/route.ts:87 | a trimmed, non-empty text padded with whitespace on both sides trims back to itself |
| JsText.TrimKeepsPrefix | src/app/api/generative-tool/route.ts:87 | trimming keeps a trimmed, non-empty prefix intact, so a reply's opening fence survives `trim` |
| JsText.BeforeFirst | src/app/api/generative-tool/route.ts:27 | `split(",")[0]` is the longest comma-free prefix, ending just before the first comma if there is one |
| JsText.BeforeFirstOfList | src/app/api/generative-tool/route.ts:27 | the first element of `a,b` is `a` when `a` has no comma |
| JsText.Join | src/app/api/generative-tool/route.ts:48 | `join` of one item is that item, with no separator; of no items, the empty string |
| JsText.JoinSnoc | src/app/api/generative-tool/route.ts:48 | appending an item appends the separator and the item, so items keep their order |
| JsText.JoinLength | src/app/api/generative-tool/route.ts:48 | the joined length is the items' total length plus one separator between each pair of neighbours |
| JsText.Decimal | src/app/api/generative-tool/index.ts:25 | a number renders as a non-empty string of decimal digits with no leading zero |
| JsText.DecimalRoundTrip | src/app/api/generative-tool/index.ts:25 | reading the rendered digits back gives the number |
| ClientKey.KeyOf | src/app/api/generative-tool/route.ts:27 | the key has no comma, no surrounding whitespace, and is no longer than its source |
| ClientKey.RouteKey | src/app/api/generative-tool/route.ts:22-27 | the key comes from the first truthy of `x-forwarded-for`, `req.ip` and `x-real-ip`, else it is "unknown"; it has no comma and no surrounding whitespace |
| ClientKey.IndexKey | src/app/api/generative-tool/index.ts:13-14 | the key comes from `x-forwarded-for`, else the socket's remote address, else "unknown"; it has no comma and no surrounding whitespace |
| ClientKey.PlainAddressIsItsOwnKey | src/app/api/generative-tool/route.ts:27 | a trimmed address without a comma is its own key |
| ClientKey.UnknownIsItsOwnKey | src/app/api/generative-tool/route.ts:26 | the fallback bucket's key is exactly "unknown" |
| ClientKey.ForwardedListKey | src/app/api/generative-tool/route.ts:27 | for a forwarded list `client,rest` the key is the trimmed client entry, whatever follows |
| ClientKey.EndpointsAgreeOnForwardedFor | src/app/api/generative-tool/index.ts:13-14 | the same truthy `x-forwarded-for` gives the same key on both endpoints |
| ClientKey.AnonymousClientsShareBucket | src/app/api/generative-tool/route.ts:22-27 | every client with no address source, on either endpoint, is counted under "unknown" |
| Limiter.Bump | src/app/api/generative-tool/route.ts:30 | one request raises its key's count by exactly one from a default of 0; no other key's count changes |
| Limiter.UsageStore.constructor | src/app/api/generative-tool/route.ts:7-12 | the record starts empty |
| Limiter.UsageStore.Hit | src/app/api/generative-tool/route.ts:29-37 | the new record is the old one bumped at the key; the returned count is the old count plus one; the request is allowed exactly when that count is at most 3 |
| Limiter.ReplayCounts | src/app/api/generative-tool/route.ts:29-37 | after any request sequence a key's count is its old count plus the number of requests under it, refused ones included, so counts never decrease |
| Limiter.RepeatedRequests | src/app/api/generative-tool/route.ts:30-32 | the i-th of repeated requests on a key with c earlier attempts is allowed exactly when c + i + 1 is at most 3 |
| Limiter.FreshKeyLimit | src/app/api/generative-tool/route.ts:30-32 | on a fresh key, requests 1 to 3 pass and every later request is refused |
| Limiter.AsWrittenAgreesOnOrdinaryKeys | src/app/api/generative-tool/route.ts:29-32 | for every key that is not an inherited member name, the object-literal record gives the same new counts and the same verdict as `Hit` |
| Limiter.InheritedKeyNeverRefusedAsWritten | src/app/api/generative-tool/route.ts:29-32 | as written, a key naming an Object.prototype member is never refused, however many requests it makes |
| Limiter.FourthConstructorRequestAllowedAsWritten | src/app/api/generative-tool/route.ts:29-32 | as written, four requests under `constructor` all pass |
| Limiter.FourthConstructorRequestRefused | src/app/api/generative-tool/route.ts:29-32 | with own entries only, the fourth request under `constructor` is refused |
| Extract.FirstFence | src/app/api/generative-tool/route.ts:15 | a lazy group followed by a fence stops at the first fence at or after its start, or there is none |
| Extract.FirstFenceSkipsWhitespace | src/app/api/generative-tool/route.ts:15 | skipping whitespace does not move the first fence, so backtracking the greedy `\s*` cannot change the match |
| Extract.ContentStart | src/app/api/generative-tool/route.ts:15 | group 1 starts after the label and all the whitespace that follows it |
| Extract.MatchAtStart | src/app/api/generative-tool/route.ts:15-16 | the match is never null: a labeled match needs a leading "```json", an unlabeled one a leading fence, and otherwise group 3 is the whole text |
| Extract.ExtractJson | src/app/api/generative-tool/route.ts:14-18 | the extracted text is trimmed; only a text that begins with a fence can throw; a text that does not begin with a fence is simply trimmed |
| Extract.ExtractLabeled | src/app/api/generative-tool/route.ts:15-17 | a text that begins with "```json" and has a later fence yields the trimmed text up to the first such fence; it throws when that text is only whitespace |
| Extract.ExtractUnlabeled | src/app/api/generative-tool/route.ts:15-17 | otherwise, a text that begins with a fence and has another yields the trimmed text between them; it throws when the fences touch |
| Extract.ExtractUnclosedLabel | src/app/api/generative-tool/route.ts:15 | a "```json" opening with no later fence is not rescued by the unlabeled alternative; the whole text is used |
| Extract.ExtractUnclosedFence | src/app/api/generative-tool/route.ts:15 | an opening fence with no later fence gives the whole trimmed text |
| Extract.ExtractedIsTrimmed | src/app/api/generative-tool/route.ts:17 | re-trimming the extracted text changes nothing |
| Extract.FencedBlock | src/app/api/generative-tool/route.ts:15 | in `open + body + fence + tail`, with no backtick in body, the first fence after `open` closes the body |
| Extract.ExtractLabeledBlock | src/app/api/generative-tool/route.ts:15-17 | a text that opens with a "```json" block whose body has no backtick yields the trimmed body, whatever follows; a whitespace-only body throws |
| Extract.ExtractUnlabeledBlock | src/app/api/generative-tool/route.ts:15-17 | a text that opens with an unlabeled block whose body has no backtick and does not start with `j` yields the trimmed body, whatever follows; touching fences throw |
| Extract.ExtractLabeledRoundTrip | src/app/api/generative-tool/route.ts:14-18 | wrapping a trimmed JSON text in a "```json" block with any whitespace and extracting gives the text back |
| Extract.ExtractUnlabeledRoundTrip | src/app/api/generative-tool/route.ts:14-18 | the same for an unlabeled block that does not itself read as "```json" |
| Extract.ExtractBareRoundTrip | src/app/api/generative-tool/route.ts:14-18 | a trimmed text that does not start with a backtick is extracted unchanged |
| Extract.ExtractEmptyBlockThrows | src/app/api/generative-tool/route.ts:17 | a labeled block holding only whitespace, or two touching fences, make the call throw, whatever follows |
| Extract.ExtractEmpty | src/app/api/generative-tool/route.ts:17 | the empty text does not throw; it extracts to the empty text |
| Extract.FencedBlockAfterTrim | src/app/api/generative-tool/route.ts:87-88 | a reply made of a fenced block with whitespace around it trims to the block, and the block extracts to the text inside it |
| Extract.EmptyBlockAfterTrim | src/app/api/generative-tool/route.ts:87-88 | a reply that opens with an empty block, labeled or not, still opens with it after `trim`, so `extractJSON` throws |
| Route.RenderAll | src/app/api/generative-tool/route.ts:46-47 | each entry renders as `technology (category)`, in input order |
| Route.TechStackSingle | src/app/api/generative-tool/route.ts:46-48 | a single entry is rendered alone, with no separator |
| Route.TechStackAppend | src/app/api/generative-tool/route.ts:46-48 | appending an entry appends ", " and its rendering |
| Route.Respond | src/app/api/generative-tool/route.ts:29-101 | 429 exactly when the count exceeds 3, whatever the body; 400 exactly when within the limit, decoded, and `role`, `stacks` or `complexity` fails the check; a 200 only for a valid request the generator answered |
| Route.ReplyOutcome | src/app/api/generative-tool/route.ts:88-98 | after the reply is trimmed, the outcome is a 200 exactly when extraction does not throw; it is the parsed value exactly when the extracted text parses; otherwise the message is the whole trimmed reply |
| Route.Post | src/app/api/generative-tool/route.ts:20-103 | the attempt is counted under the route key before anything else, whatever the outcome, and the outcome is `Respond` on the new count |
| Route.Answer | src/app/api/generative-tool/route.ts:39-98 | within the limit, the method's early returns (undecodable body, invalid input, failed generator call) give exactly `Respond`'s outcome |
| Route.ParseReply | src/app/api/generative-tool/route.ts:88-98 | extracting and parsing the trimmed reply step by step gives exactly `ReplyOutcome` |
| Route.ExtractedReply | src/app/api/generative-tool/route.ts:88-98 | once the trimmed reply extracts to a text, the outcome is that text's parsed value, or the trimmed reply when it does not parse |
| Route.ParsedReply | src/app/api/generative-tool/route.ts:90-98 | when the extracted text parses, the parsed value is returned unchanged with 200 |
| Route.UnparsableReply | src/app/api/generative-tool/route.ts:91-96 | when it does not parse, the response is 200 and its message is the whole trimmed reply, not the extracted text |
| Route.EmptyFencedReply | src/app/api/generative-tool/route.ts:86-101 | a reply that begins with an empty fenced block gives 500, whatever the parser would say |
| Route.GeneratorFailure | src/app/api/generative-tool/route.ts:84-101 | a failed generator call gives 500 with "Internal server error." |
| Route.UndecodableBody | src/app/api/generative-tool/route.ts:39-40 | a body that cannot be decoded gives 500 |
| Route.BareReply | src/app/api/generative-tool/route.ts:87-98 | an unfenced reply is parsed whole: its value is echoed back, or the trimmed reply is the message |
| Route.FencedReply | src/app/api/generative-tool/route.ts:87-98 | a fenced reply is parsed on the block's content; if that does not parse, the message is the whole block, fences included |
| Index.ReplyFor | src/app/api/generative-tool/index.ts:19-38 | 429 with the `error` text exactly when the count exceeds 3; otherwise 200 with the fixed sample, which has two steps and two points |
| Index.AttemptMessages | src/app/api/generative-tool/index.ts:25 | the three allowed attempts read "Attempt 1/3.", "Attempt 2/3." and "Attempt 3/3." |
| Index.SuccessReportsAttempt | src/app/api/generative-tool/index.ts:24-25 | a successful reply's message names the count as its single digit, "Attempt n/3" |
| Index.SuccessBodyConstant | src/app/api/generative-tool/index.ts:24-38 | two successful replies have the same sample, and the same message exactly when the counts are equal |
| Index.Handler | src/app/api/generative-tool/index.ts:12-39 | the attempt is counted under the index key on the shared record, no other key changes, and the reply follows the new count |
| Service.SharedRecordScenario | src/app/api/generative-tool/index.ts:5-10 | two `POST` requests and then two placeholder requests from one forwarded address, on a fresh record: the third reports attempt 3/3 and the fourth gets 429 |

## Findings

| source | as written | input that shows it | evidently intended | confidence | as-written member | corrected member |
|---|---|---|---|---|---|---|
| src/app/api/generative-tool/route.ts:29-32 | The record is a plain object literal. A key with no own entry that names an Object.prototype member (`constructor`, `toString`, `__proto__`, …) reads that member. `+ 1` then builds a string, and `> 3` on that string is false. | Any number of `POST` requests with `x-forwarded-for: constructor`: all pass the limiter. | Every client key is limited to three attempts. | not executed; high (standard JavaScript semantics) | Limiter.InheritedKeyNeverRefusedAsWritten | Limiter.FreshKeyLimit |
| src/app/api/generative-tool/index.ts:16-19 | The same object literal and the same increment, in the placeholder handler. | Four requests with `x-forwarded-for: constructor`: the fourth still succeeds. | Every client key is limited to three attempts. | not executed; high (standard JavaScript semantics) | Limiter.FourthConstructorRequestAllowedAsWritten | Limiter.FourthConstructorRequestRefused |

The rest of the model uses the corrected record. `UsageStore.Hit` keeps own
entries only, in a Dafny `map`. `Limiter.AsWrittenAgreesOnOrdinaryKeys`
shows that for every other key the as-written record behaves exactly like
`Hit`.

## Left out

- The generator call (route.ts:84-87) is the parameter `generate`. The model name, the API key and the network are not modelled.
- `JSON.parse` (route.ts:92) is the parameter `parse`. The JSON grammar is not modelled.
- The prompt's literal wording (route.ts:50-82) is not modelled. `Prompt` keeps only the three interpolated values.
- `req.json()` (route.ts:39) is an input `Option<Body>`. A body that does not decode, or decodes to `null` (destructuring it throws), is `None` and gives 500 after the attempt was counted.
- Request fields are modelled as optional strings. Other JSON types are not modelled: numbers or booleans for `role`/`complexity` (and their truthiness), `null` rendering as "null", a string-valued `stacks`, and `null` stack entries (which would throw and give 500).
- Strings are sequences of Unicode characters, not JavaScript's UTF-16 code units. Every character the model inspects (whitespace, backtick, comma, digits) lies in the Basic Multilingual Plane, where the two views agree.
- Headers are optional strings. An array-valued header, hidden by the `as string` cast at index.ts:13, is not modelled.
- The lazy creation of `global.ipUsageMap` (route.ts:7-12, index.ts:5-10) becomes one `UsageStore` object passed to both handlers.
- The unlocked read-increment-write race between concurrent requests is not modelled; requests are sequential.
- Counts are unbounded `nat`. JavaScript numbers stop counting exactly at 2^53, far beyond any reachable count.
- `console.error` logging and JSON serialisation of responses (`NextResponse.json`, `res.status().json`) are not modelled. `Outcome` and `Reply` stand for the response bodies and statuses.
- `src/app/page.tsx` and `src/app/layout.tsx` are presentational React and are not part of this model.
- The `if (!jsonMatch) return text;` branch (route.ts:16) cannot run: the regular expression always matches. `MatchAtStart` is total and has no such branch.
