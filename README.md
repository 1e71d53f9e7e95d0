# BugTrackerLite, modelled in Dafny

BugTrackerLite is a small bug-list demo in two parts:

- **The bug list manager** (`script.js`, runs in the browser). It keeps an ordered in-memory list of bug records. Each record has a title, a description, a priority and a solution. The user adds records with a form and deletes them by position. "Ask AI" on a record first shows a pending text as its solution. It then posts the record's description to the relay. Finally it writes the relay's answer, or a fixed failure text, into that record. `renderBugs` turns the list into display items. An item shows `No solution yet` when the solution is falsy.
- **The solution relay** (`server.js`, a stateless HTTP service). `POST /suggest-solution` rejects a missing or blank description with 400. For any other description it sends a prompt to an external completion API and answers with the trimmed first choice. When that call fails, it propagates the API's status and error, or answers 500. `GET /health` always answers 200.

Modules:

- `Wrappers` (`wrappers.dfy`): `Option`. `None` stands for JavaScript's `null`/`undefined`.
- `JsString` (`js_string.dfy`): `String.prototype.trim`, with the exact ECMAScript whitespace and line-terminator set. It is characterised by its contract and by the lemmas `TrimIsSlice` and `TrimOfPadded`.
- `Relay` (`relay.dfy`): the two request handlers as functions. The external completion call is a parameter `upstream: string -> Upstream`. It maps the prompt sent to what the HTTP client reports: `Completed(choices)`, `Rejected(status, error)` or `NoResponse`.
- `BugList` (`bug_list.dfy`): the class `BugTracker`. Its field `bugs: seq<Bug>` is reassigned by methods that mirror `addBug`, `deleteBug` and the two halves of `suggestSolution`. `Render` is the `forEach` loop of `renderBugs`. It is proved against the specification function `Rows`.
- `SolutionFlow` (`solution_flow.dfy`): how the browser reads a relay reply (`response.ok`, `response.json()`). It also proves what a record's solution ends up as after one "Ask AI" round trip.

I/O is represented by parameters. The browser's `fetch` outcome is the `Fetched` value passed to `CompleteSuggestion`. The completion API is the `upstream` function. Form field values are the arguments of `AddBug`.

## Model

| member | source | states |
|---|---|---|
| `JsString.Trim` | server.js:40 | Neither end of the result of `trim` is whitespace. The result is empty exactly when the input is all whitespace. |
| `JsString.TrimIsSlice` | server.js:40 | `trim` returns a slice of its input, and only whitespace lies outside that slice. |
| `JsString.TrimOfPadded` | server.js:40 | A string that neither starts nor ends with whitespace comes back unchanged from `trim` after any whitespace padding on both sides, so the contract of `Trim` determines its result. |
| `JsString.TrimIdempotent` | server.js:40 | Trimming an already trimmed solution changes nothing. |
| `Relay.Prompt` | server.js:28 | The prompt is the fixed lead-in, then the description verbatim and untrimmed, then a closing quote. |
| `Relay.PromptInjective` | server.js:28 | Two different descriptions never produce the same prompt. |
| `Relay.Complete` | server.js:40-51 | A success with at least one choice gives 200 with the trimmed first choice. That text has no surrounding whitespace and is empty only when the choice was blank. A rejection keeps the upstream status and answers with the truthy `error` field or "Error fetching solution from OpenAI.". No response, or a success with no choices, gives 500 "Server error. Please try again later.". |
| `Relay.MissingIffBlank` | server.js:18 | The validation test `IsMissing` (the description is falsy, or its `trim()` is the empty string) holds exactly for a missing description or one made only of whitespace, the empty one included. |
| `Relay.SuggestSolution` | server.js:14-53 | Nothing is sent upstream exactly when the description is missing or whitespace-only. That case answers 400 "Bug description is required.". Otherwise the prompt for the untrimmed description is sent, and the reply is the one `Complete` gives for the upstream outcome. |
| `Relay.OkStatusIffSolution` | server.js:19-50 | A relay reply has a 2xx status exactly when it carries a solution. This assumes the HTTP client reports only non-2xx answers as rejections. |
| `Relay.Health` | server.js:56-58 | The health check always answers exactly status 200 with "Server is running successfully.". |
| `BugList.InitialBugs` | script.js:6-19 | The list starts with exactly two records, "Login Failure" (High) and "Page Not Loading" (Medium). Both have a non-empty solution. |
| `BugList.ShownPlaceholder` | script.js:32 | `Shown` models the fallback to 'No solution yet' for a falsy solution: a row shows "No solution yet" exactly when the solution is null/undefined or empty, or is that very text. Otherwise it shows the solution. |
| `BugList.Rows` | script.js:22-40 | Rendering gives one row per record, in list order. Row k shows record k and its buttons address index k. |
| `BugList.Removed` | script.js:65 | `splice(i, 1)` with `i` in range removes exactly the record at `i`. The length drops by one, earlier records stay in place, later ones move down one, and the multiset loses only that record. With `i` past the end the list is unchanged. |
| `BugList.ResolutionCases` | script.js:87-97 | `Resolution`, the completion decision, writes the parsed `solution` of an ok response. A non-ok status, a rejected `fetch` or an unparsable body all write "Unable to fetch solution. Please try again later.". |
| `BugList.WithSolution` | script.js:74 | Writing a solution changes that field of record `i` only. The other fields of `i` and all other records are unchanged. |
| `BugList.RowsAfterAppend` | script.js:51-59 | After `addBug` the rendered list is the old one plus one final row. That row has the new fields, shows "No solution yet" and addresses the new last index. |
| `BugList.RowsAfterDelete` | script.js:64-66 | After deleting `i`, rows before `i` are unchanged. Every later record is now addressed by an index one smaller. |
| `BugList.RowsAfterSolutionWrite` | script.js:74-75 | Writing record `i`'s solution changes only the shown solution of row `i`. |
| `BugList.BugTracker.constructor` | script.js:6-19 | The page's list starts as `InitialBugs`. |
| `BugList.BugTracker.Render` | script.js:22-40 | The `forEach` loop builds exactly `Rows(bugs)` and changes nothing. Two renders with no change in between give the same rows. |
| `BugList.BugTracker.AddBug` | script.js:44-61 | Appends one record with the given title, description and priority and no solution. The length grows by one and the earlier records are unchanged. |
| `BugList.BugTracker.DeleteBug` | script.js:64-67 | The list becomes `Removed(bugs, i)`: `bugs[..i] + bugs[i+1..]` when `i` is in range, unchanged otherwise. |
| `BugList.BugTracker.BeginSuggestion` | script.js:70-84 | Record `i`'s solution becomes "Fetching AI-generated solution..." and nothing else changes. The request carries that record's description only. |
| `BugList.BugTracker.CompleteSuggestion` | script.js:86-101 | Record `i`'s solution becomes the `Resolution` of the fetch outcome and nothing else changes. |
| `SolutionFlow.Delivered` | script.js:79-92 | The browser treats a relay reply as ok exactly when its status is 2xx. The parsed body has a `solution` exactly when the relay sent one. |
| `SolutionFlow.AskAiOutcome` | script.js:79-97 | After one round trip through the relay, the record's solution is always set. A blank description gives the failure text. Otherwise an upstream success with a choice gives the trimmed first choice, and every other outcome gives the failure text. So the result is either the failure text or has no surrounding whitespace. |

## Left out

- The DOM: markup, `innerHTML`, element creation, `bugForm.reset` and the event wiring in `init`. Rows are abstract values, not HTML, and markup injection through the fields is not modelled.
- `createBugWatermarks`: cosmetic, built on `Math.random` and floating-point styling.
- Network and framework I/O. `fetch` and `response.json()` are the `Fetched` value, and `axios.post` is the `upstream` parameter. Express, CORS, dotenv, `app.listen` and the port default are not modelled.
- The model name, `max_tokens` and `temperature` passed to the completion API: they have no local behaviour.
- `console.error` / `console.log` logging.
- Asynchronous interleaving in `suggestSolution`. The pending step and the completion step are separate methods, and each requires the index to be in range when it runs. A delete or add while the request is in flight (a stale index), and the path where `bugs[index]` is undefined in both `try` and `catch`, are not modelled.
- Negative indices to `splice` (counting from the end). `DeleteBug` takes a `nat`, because rendered buttons only carry indices `0..|bugs|-1`.
- JSON values other than strings. `solution` and the upstream `error` field are `Option<string>`. A non-string `description` reaching `.trim()`, and non-string choice texts, are not modelled.
- `res.status` with a status code Express refuses (outside 100-999) is not modelled. The upstream status is propagated as given.
- The HTML form's own required-field enforcement: `addBug` itself validates nothing, so `AddBug` accepts any strings, empty ones included.
- Strings are sequences of Unicode scalar values, whereas JavaScript strings are sequences of UTF-16 code units. Lone surrogates, which JSON text can carry, cannot be represented. The lengths in the contracts, such as that of `Prompt`, count code points, not UTF-16 code units.
