# Auth sync, Stack Auth payments and parse-error reporting, in Dafny

This project models four parts of a Next.js starter app that uses Stack Auth for
identity and payments and InstantDB as its real-time database:

- **`useInstantDBAuth`** keeps the InstantDB session in step with the Stack Auth
  session. One run of its effect (`syncAuth`) either signs out of InstantDB, does
  nothing, or goes through the sign-in path: fetch a token from the backend, then call
  `signInWithToken`. The path is guarded by the run's `isMounted` cell. The model is the
  class `InstantDBAuth.AuthSync`. Its fields are the hook's `isAuthenticating` and
  `error` state, the current run's `isMounted` cell, and the list of SDK and backend
  calls issued so far.
- **The Stack Auth payments helpers** (`src/lib/stack-payments.ts`):
  - environment validation;
  - the server header set;
  - the inline product shape;
  - the classification of the checkout and entitlement responses.
- **The checkout route (`POST`) and the status route (`GET`)**. Each is a ladder of
  checks: environment, then user, then body or query parameter, then the upstream call.
  Each awaited outcome (the user lookup, the request body, the upstream response) is a
  parameter.
- **The parse-error reporter** (`scripts/parse.mjs`):
  - offset to line and column;
  - the context window with its caret;
  - normalisation of the parser's errors;
  - the script kind picked from a file name;
  - recognising a missing native binding in an error's cause chain;
  - the directory scan's aggregation, human-readable listing and JSON summary.

The model follows the JavaScript semantics the code relies on, and writes each one out:

- truthiness, `??` and `typeof x === "number"`;
- `String.prototype.trim` (the ECMAScript white-space set);
- `split` and `join`;
- `Response.ok` (status 200-299);
- property access on a `null` JSON value, which throws;
- `Math.min` of a JavaScript number (`NaN`, the infinities, fractions) with an integer length;
- Node's POSIX `path.extname`.

src/components/auth-sync-provider.tsx:15 advertises account switching, but the hook has
no code for it: use-instantdb-auth.ts:42-44 returns whenever both users are present,
whatever the ids. It keeps no in-flight flag and no last-synchronised user. The model
follows the hook.

Some JavaScript operations are plain definitions without contracts of their own: `??`
(`JsValues.Coalesce`), property access with and without `?.` (`JsValues.Property`,
`JsValues.OptionalProperty`), the body fallback (`CheckoutRoute.BodyDoc`), the 500 response
(`HttpResponses.UnexpectedError`) and the caught-error message (`InstantDBAuth.ErrorMessage`).
The same holds for `normalizeErrors` on one error (`ParseErrors.NormalizeOne`) and for `parseFile`
(`ParseErrors.ParseFileResult`). The contracts of the routes, the hook and the listing
state what these definitions contribute.

Some specification functions likewise carry no contract of their own. Their properties
are lemmas, each with a row below:

- `ParserSelection.ScriptKindOf` (`getScriptKindFromFilename`): `ScriptKindOfStemAndExt`, `KindOfExtensionCases`, `UpperTsxKind` and `DotFileKind`;
- `ParsePositions.LineContextOf` (`getLineContext`): `LineContextWindow`, `ErrorLineInWindow` and `WindowMatchesOnce`;
- `JsText.Split`: `SplitFacts` and `JoinSplit`;
- `ParseReport.TotalErrors` (the error count of a scan): `TotalErrorsAppend`, `FilterKeepsTotal` and `NoFailingFileIffNoError`;
- `ParseReport.FlatErrors` (the summary's `errors`): `FlatErrorsSingle`, `FlatErrorsAppend`, `FlatErrorsLength`, `FlatErrorsMembership` and `FlatErrorsAt`.

Two edge cases of the code are kept:

- The checkout route reads `resJson.url` outside its `try`. An upstream body of JSON
  `null` therefore reaches the outer `catch`, which answers 500 "Unexpected error".
- Cleanup may run while `signInWithToken` is pending. The sign-in call has then already
  been issued, and the run leaves `isAuthenticating` true.

Modules:

| file | module | source |
|---|---|---|
| wrappers.dfy | `Wrappers` | `Option` and `Completion` (a value or a thrown message) |
| js_text.dfy | `JsText` | trim, split, join, `includes`, number formatting |
| js_values.dfy | `JsValues` | JavaScript values, numbers, JSON documents |
| stack_payments.dfy | `StackPayments` | src/lib/stack-payments.ts |
| http_responses.dfy | `HttpResponses` | the `NextResponse.json` results of the routes |
| checkout_route.dfy | `CheckoutRoute` | src/app/api/payments/checkout/route.ts |
| route_guards.dfy | `RouteGuards` | the environment and user checks both routes make first |
| status_route.dfy | `StatusRoute` | src/app/api/payments/status/route.ts |
| instantdb_auth.dfy | `InstantDBAuth` | src/hooks/use-instantdb-auth.ts |
| parse_positions.dfy | `ParsePositions` | scripts/parse.mjs: `offsetToLineColumn`, `getLineContext` |
| parse_errors.dfy | `ParseErrors` | scripts/parse.mjs: `normalizeErrors`, `parseFile` |
| parser_selection.dfy | `ParserSelection` | scripts/parse.mjs: `isNativeBindingError`, `getScriptKindFromFilename` |
| parse_report.dfy | `ParseReport` | scripts/parse.mjs: aggregation in `main`, `formatHumanReadable`, `formatJsonSummary` |

## Model

| member | source | states |
|---|---|---|
| InstantDBAuth.Decide | src/hooks/use-instantdb-auth.ts:27-44 | The four cases, each one exactly for its combination of "Stack user present" and "InstantDB user present": sign out, nothing (neither user), nothing (both users), sign in |
| InstantDBAuth.FinalError | src/hooks/use-instantdb-auth.ts:59-73 | A run that finishes mounted has no error exactly when a token was received and sign-in succeeded; a non-ok token response gives "Failed to authenticate: " + statusText |
| InstantDBAuth.AuthSync.constructor | src/hooks/use-instantdb-auth.ts:18-19 | The first render: not authenticating, no error, no call issued |
| InstantDBAuth.AuthSync.Cleanup | src/hooks/use-instantdb-auth.ts:83-85 | Cleanup sets `isMounted` false and touches nothing else |
| InstantDBAuth.AuthSync.SignInPath | src/hooks/use-instantdb-auth.ts:46-78 | Always one token request. `signInWithToken` is called only with a received token and only while mounted. A run torn down at a reached await keeps `isAuthenticating` true and the error cleared. A run that finishes mounted ends not authenticating, with `FinalError` as its error |
| InstantDBAuth.AuthSync.SyncAuth | src/hooks/use-instantdb-auth.ts:21-44 | The run starts mounted. The stale-session case issues exactly one sign-out and changes no state. The two nothing-to-do cases issue no call and change no state. The sign-in case issues exactly the calls `SignInPath` does, and ends in the same state for each teardown: torn down at a reached await, still authenticating with no error; otherwise idle with `FinalError` |
| InstantDBAuth.SignInThenSettle | src/hooks/use-instantdb-auth.ts:21-86 | A successful sign-in run, then the re-run once the InstantDB user appears: one token request and one sign-in call in all, and the hook ends idle with no error |
| JsText.TrimEmptyIffBlank | src/lib/stack-payments.ts:27 | `trim()` gives the empty string exactly when the value is all white space |
| StackPayments.MissingMeansBlank | src/lib/stack-payments.ts:26-28 | A key is missing exactly when it is unset or all white space |
| StackPayments.MissingAmong | src/lib/stack-payments.ts:26-28 | The filter keeps the order of the keys, and keeps exactly the missing ones |
| StackPayments.ValidatePaymentsEnv | src/lib/stack-payments.ts:13-29 | The missing required keys, in the fixed order of the three required names |
| StackPayments.ValidEnvHasAllKeys | src/lib/stack-payments.ts:21-29 | An empty result means all three variables are set and not blank |
| StackPayments.HeaderNamesCount | src/lib/stack-payments.ts:43-50 | The five header names are distinct |
| StackPayments.ServerHeaders | src/lib/stack-payments.ts:43-50 | Exactly the five header names, with the two fixed values and the three credentials |
| StackPayments.ServerHeadersNotBlank | src/lib/stack-payments.ts:43-50 | With non-blank credentials the header object has five entries, none of them blank |
| StackPayments.GetStackPaymentsHeaders | src/lib/stack-payments.ts:35-51 | Throws exactly when a key is missing, with the message listing the missing keys joined by ", ". Otherwise the result has five headers, each credential taken from its variable, and no value blank |
| StackPayments.BuildInlineProduct | src/lib/stack-payments.ts:61-89 | The item key is `planId + "_access"`, with quantity 1. There is one price: keyed by the interval, or "one_time" for `null`. Its `interval` is `[1, interval]` exactly when an interval is given. The customer type is "user"; `server_only` and `stackable` are false |
| StackPayments.ItemKeyInjective | src/lib/stack-payments.ts:67 | Distinct plan ids give distinct item keys |
| StackPayments.PriceKeyInjective | src/lib/stack-payments.ts:81 | The price key determines the interval |
| StackPayments.ClassifyCheckoutResponse | src/lib/stack-payments.ts:117-132 | A non-ok status gives "Stack Auth checkout failed (status)" with the text. A URL is returned exactly when the status is ok, the JSON parses to an object and its `url` is truthy. Unparsable JSON or `null` gives "Invalid JSON response"; any other body gives "No checkout URL in response" |
| StackPayments.CheckoutFailureNamesStatus | src/lib/stack-payments.ts:119-124 | The failure message embeds the status as decimal digits that read back as the status |
| StackPayments.CreateCheckoutUrl | src/lib/stack-payments.ts:95-133 | Rejects with the header error when a key is missing, and with the fetch error when the request fails. Otherwise it resolves to the classified response |
| StackPayments.ClassifyEntitlementResponse | src/lib/stack-payments.ts:154-161 | Access exactly when the status is ok, the body is an object and its `quantity` is a number greater than 0. A body that does not parse gives no access |
| StackPayments.CheckItemEntitlement | src/lib/stack-payments.ts:139-162 | Rejects exactly when the headers cannot be built or the request fails. It resolves to true exactly when the classified response grants access |
| StackPayments.BuildReturnUrl | src/lib/stack-payments.ts:167-179 | An unparsable base URL comes back unchanged |
| CheckoutRoute.ReturnUrlArguments | src/app/api/payments/checkout/route.ts:60-62 | `buildReturnUrl` is called exactly when `returnUrl` is truthy. The plan id is the body's `planId`, or "default" when that is nullish |
| CheckoutRoute.UpstreamToResponse | src/app/api/payments/checkout/route.ts:84-117 | A non-ok upstream response passes its status on, with "Failed to create checkout URL", unless a JSON response cannot have that status: above 599 (`RangeError`) or a null body status (101, 204, 205, 304, `TypeError`). `NextResponse.json` then throws, and the route answers 500 "Unexpected error" with the error's message. Unparsable JSON gives 502 "Invalid response from Stack Auth". `null` throws, giving 500. No non-empty string `url` gives 502. The status is 200 exactly with a non-empty string `url`, and the body is that URL |
| CheckoutRoute.Post | src/app/api/payments/checkout/route.ts:25-119 | The ladder in order: missing env gives 500 with the missing list; no user id gives 401; no `productInline` gives 400; then the upstream call. The status is 200 exactly when every check passes and the upstream gave a non-empty string URL. No response is marked no-store |
| CheckoutRoute.PostStatuses | src/app/api/payments/checkout/route.ts:25-119 | Every status is 200, 400, 401, 500 or 502, or the upstream's own non-ok status. It is never above 599 and never a null body status |
| CheckoutRoute.UpstreamStatuses | src/app/api/payments/checkout/route.ts:84-117 | The upstream step answers 200, 500 or 502, or passes on a failing status that a JSON response can have |
| CheckoutRoute.UpstreamOutOfRangeIsUnexpected | src/app/api/payments/checkout/route.ts:84-117 | An upstream status above 599 is not passed on: the route answers 500 "Unexpected error" with the `RangeError`'s message |
| CheckoutRoute.UpstreamNotModifiedIsUnexpected | src/app/api/payments/checkout/route.ts:84-117 | An upstream 304 is not passed on: the JSON response with status 304 cannot be built, and the route answers 500 "Unexpected error" with the constructor's message |
| CheckoutRoute.EnvCheckedFirst | src/app/api/payments/checkout/route.ts:28-34 | With a variable missing, the response does not depend on the user, the body or the upstream |
| CheckoutRoute.AuthCheckedBeforeBody | src/app/api/payments/checkout/route.ts:36-43 | Without a user id, the response does not depend on the body or the upstream |
| StatusRoute.Get | src/app/api/payments/status/route.ts:21-67 | Every response is marked no-store. The ladder: env gives 500, auth gives 401, a missing `item` gives 400, and an exception gives 500. The status is 200 exactly when every check passes and the entitlement request returned. The body is then `hasAccess` from the classified response |
| StatusRoute.AccessMeansPositiveQuantity | src/app/api/payments/status/route.ts:51-57 | A 200 response grants access exactly when the entitlement response is ok with a positive numeric `quantity` |
| StatusRoute.AuthCheckedBeforeItem | src/app/api/payments/status/route.ts:32-49 | Without a user id, the response does not depend on the query parameter or the entitlement |
| ParsePositions.PrefixLengthClosedForm | scripts/parse.mjs:85 | The loop visits `code[0 .. min(offset, length))`. A fractional offset rounds up; an offset of 0 or less, or -Infinity, visits nothing; +Infinity visits all of it |
| ParsePositions.LineColumnOf | scripts/parse.mjs:79-94 | Both fields are `null` exactly for a non-number or `NaN`, and otherwise both are at least 1 |
| ParsePositions.LineColumnMeaning | scripts/parse.mjs:83-93 | The line is 1 + the number of newlines in the prefix. The column is 1 + the number of characters after the prefix's last newline |
| ParsePositions.PositionMatchesSplit | scripts/parse.mjs:83-100 | Splitting the prefix at newlines gives `line` pieces, the last of length `column - 1` |
| ParsePositions.OffsetToLineColumn | scripts/parse.mjs:79-94 | The counting loop returns `LineColumnOf` |
| ParsePositions.Indicator | scripts/parse.mjs:108-109 | For a positive column, `column - 1` spaces then "^"; otherwise "^" |
| ParsePositions.LineContextWindow | scripts/parse.mjs:96-111 | A falsy line gives no lines and "". Otherwise the consecutive line numbers from `max(1, line - radius)` to `min(count, line + radius)`, each with its text, at most `2·radius + 1` of them |
| ParsePositions.ErrorLineInWindow | scripts/parse.mjs:100-107 | A line of the file is in its own window |
| ParsePositions.GetLineContext | scripts/parse.mjs:96-111 | The loop builds `LineContextOf` |
| ParsePositions.PushWindowLines | scripts/parse.mjs:104-107 | The loop pushes one entry per line number from `start` to `end`, each with that line's text |
| JsText.SplitFacts | scripts/parse.mjs:100 | One piece more than there are separators, and no piece contains the separator |
| JsText.JoinSplit | scripts/parse.mjs:237 | Joining the split pieces with the separator gives back the text |
| ParseErrors.NormalizeErrors | scripts/parse.mjs:166-192 | A missing array is empty; otherwise length and order are kept, entry by entry |
| ParseErrors.OxcIgnoresReportedPosition | scripts/parse.mjs:170-180 | With oxc, the line, column and context the parser reported play no part in the normalised error |
| ParseErrors.TypeScriptIgnoresCode | scripts/parse.mjs:183-190 | With the TypeScript parser, the normalised error does not depend on the file's text |
| ParseErrors.NormalizedMessages | scripts/parse.mjs:175-185 | A present message is kept, and a missing one becomes "Unknown parse error" |
| ParseErrors.OxcErrorLineInContext | scripts/parse.mjs:170-180 | An oxc error with a numeric offset lands on a line of the file, and that line is one of its own context lines |
| ParseReport.ParseFileReported | scripts/parse.mjs:194-217 | A read or parse failure is a failing file with exactly one error, whose headline is "error: " + file + " - Failed to read/parse file: " + message, with no location. A run with no error array is a passing file; otherwise the file has one error per raw error |
| ParserSelection.CauseChain | scripts/parse.mjs:25-31 | The walk visits only truthy values |
| ParserSelection.IsNativeBindingError | scripts/parse.mjs:24-40 | True exactly when some value in the cause chain has a message containing "Cannot find native binding" or "MODULE_NOT_FOUND" |
| ParserSelection.WrappedBindingError | scripts/parse.mjs:24-40 | Wrapping an error as a cause keeps the answer, and adds the wrapper's own message |
| ParserSelection.Extname | scripts/parse.mjs:114 | The extension is empty, or a "." followed by no "." and no "/" |
| ParserSelection.ExtnameInDirectory | scripts/parse.mjs:114 | A file has the same extension in any directory |
| ParserSelection.ExtnameOfStemAndExt | scripts/parse.mjs:114 | `stem + ".ext"` has extension ".ext", unless the name is ".." |
| ParserSelection.ToLowerAscii | scripts/parse.mjs:114 | Lower-casing is character by character and keeps the length |
| ParserSelection.ScriptKindOfStemAndExt | scripts/parse.mjs:113-119 | The kind of a file name is the kind of its lower-cased extension |
| ParserSelection.KindOfExtensionCases | scripts/parse.mjs:115-118 | ".tsx" is TSX, ".jsx" is JSX, ".js", ".mjs" and ".cjs" are JS, and an extension is TS exactly when it is none of these five |
| ParserSelection.UpperTsxKind | scripts/parse.mjs:114-115 | ".TSX" is TSX as well |
| ParserSelection.DotFileKind | scripts/parse.mjs:113-118 | A dot file named ".tsx" has no extension, so it is TS |
| ParseReport.FilesWithErrors | scripts/parse.mjs:351-353 | Only files with errors are kept, every such file is kept, and there are no more of them than results |
| ParseReport.FilesWithErrorsSingle | scripts/parse.mjs:351-353 | A single result is kept exactly when it has errors |
| ParseReport.FilesWithErrorsAppend | scripts/parse.mjs:351-353 | Filtering a concatenation concatenates the filtered parts: scan order is kept, and no result is merged or repeated |
| ParseReport.FilterKeepsTotal | scripts/parse.mjs:351-365 | The failing files hold all the errors |
| ParseReport.NoFailingFileIffNoError | scripts/parse.mjs:351-360 | The scan reports success exactly when there are no errors, and there are no more failing files than errors |
| ParseReport.EntryErrors | scripts/parse.mjs:266-271 | A file contributes one summary entry per error, in order, each with the file name |
| ParseReport.FlatErrorsLength | scripts/parse.mjs:265-272 | The summary's `errors` has one entry per error |
| ParseReport.FlatErrorsMembership | scripts/parse.mjs:265-272 | An entry is in the summary exactly when it reports some error of some file under that file's name |
| ParseReport.FlatErrorsSingle | scripts/parse.mjs:265-272 | One file's part of the summary is that file's entries |
| ParseReport.FlatErrorsAppend | scripts/parse.mjs:265-272 | The entries of two groups of files are the first group's entries followed by the second's: file order is kept, and no entry is merged or repeated |
| ParseReport.TotalErrorsAppend | scripts/parse.mjs:351-353 | The error count of two groups of files is the sum of their counts |
| ParseReport.FlatErrorsAt | scripts/parse.mjs:265-272 | Error `j` of file `i` is the entry at position (errors of the files before `i`) + `j` |
| ParseReport.FormatJsonSummary | scripts/parse.mjs:259-275 | `passed` is false. `filesWithErrors` is the number of entries. `errors` has as many entries as there are errors, exactly the errors of the files. The totals are passed through; the order of `errors` is stated by `JsonSummaryOrder` |
| ParseReport.JsonSummaryOrder | scripts/parse.mjs:259-275 | In the summary, error `j` of file `i` is at position (errors of the files before `i`) + `j`, under that file's name |
| ParseReport.ScanSummaryConsistent | scripts/parse.mjs:351-373 | In a scan, the summary's `totalErrors` equals the length of its `errors` and the errors of all results. There are no more failing files than errors or files |
| JsText.IntToString | scripts/parse.mjs:232-233 | `String(n)` of an integer: non-empty, a leading "-" exactly when negative, and digits everywhere else |
| JsText.IntToStringInjective | scripts/parse.mjs:232-233 | Distinct integers print differently, so a printed line or column reads back as one number |
| ParseReport.LocationOnlyWhenTruthy | scripts/parse.mjs:232-233 | The location suffix is present exactly when both line and column are truthy, and it starts with ":" |
| ParseReport.HeadlineWithoutLocation | scripts/parse.mjs:232-233 | Without a truthy line the headline is "error: " + file + " - " + message |
| ParseReport.Indented | scripts/parse.mjs:237-239 | Each codeframe line is indented by four spaces, in order |
| ParseReport.MarkerOnlyOnErrorLine | scripts/parse.mjs:245-246 | The ">" marker is on exactly the lines whose number is the error line; the others carry " " |
| ParseReport.ContextLinesCount | scripts/parse.mjs:243-252 | One listing line per context line, plus one caret line per matching line when the indicator is non-empty |
| ParseReport.WindowMatchesOnce | scripts/parse.mjs:96-111 | In a window from `getLineContext`, at most one line is the error line, so at most one caret line is printed |
| ParseReport.CodeframeTakesPrecedence | scripts/parse.mjs:236-242 | With a truthy codeframe, the block is the headline, the codeframe lines and a blank line, whatever the context |
| ParseReport.BlocksAppend | scripts/parse.mjs:230-254 | The listing of two groups of files is the first group's listing followed by the second's |
| ParseReport.BlocksCoverErrors | scripts/parse.mjs:230-234 | Every error contributes at least its headline |
| ParseReport.HumanLinesCoverErrors | scripts/parse.mjs:223-234 | The listing starts with the header and a blank line, and has at least one more line per error |
| ParseReport.FormatHumanReadable | scripts/parse.mjs:223-257 | The nested loops build the header, blank line and per-error blocks, joined with newlines |
| ParseReport.PushErrorBlock | scripts/parse.mjs:231-253 | One error's block: the headline, then the codeframe or the context lines, each group followed by a blank line |
| ParseReport.PushFrameLines | scripts/parse.mjs:237-239 | The codeframe loop appends the indented pieces |
| ParseReport.PushContextLines | scripts/parse.mjs:244-250 | The context loop appends each context line's entry |
| ParseReport.ScanReport | scripts/parse.mjs:351-375 | Success, with its message, exactly when there are no errors. Otherwise there is a listing of the failing files, and a summary that is exactly `formatJsonSummary` of the failing files, the scan's error total and its file count. Its error count matches its list and the results. Through `FormatJsonSummary` and `JsonSummaryOrder`, its `errors` are exactly the scanned errors, in scan order |

## Left out

- Every network and SDK call is an input rather than a model:
  - `fetch`, `res.text()` and `res.json()`;
  - `stackServerApp.getUser`;
  - `db.auth.signOut` and `db.auth.signInWithToken`,
  - `request.json()`, `JSON.parse` and `new URL`.

  The outgoing request bodies and `JSON.stringify` are not modelled.
- StackPayments.BuildReturnUrl: the URL built with the `checkout` and `plan` search parameters is an input. Only the fallback for an unparsable base is modelled.
- React machinery is not modelled: `useState`, rendering, and the effect re-firing when `stackUser?.id` or `instantAuth.user` change. A re-run is a new call to `SyncAuth`.
- The `console.error` logging of the hook is not modelled.
- src/app/api/auth/instantdb/route.ts is not part of this model. It mints the InstantDB token from the user's `primaryEmail`. Here it is only the token-request outcome.
- InstantDBAuth.AuthSync.SignInPath: the cleanup runs at most once per run, at one of three points: never (`StaysMounted`), during the token request (`WhileAwaitingToken`), or during `signInWithToken` (`WhileAwaitingSignIn`). When no token arrives, the run never reaches `signInWithToken`, and `WhileAwaitingSignIn` then means cleanup after the run has finished. A cleanup between two runs is a separate `Cleanup` call.
- The following parts of scripts/parse.mjs are not modelled:
  - `readStdin`, `listSourceFiles`, `fs.stat` and `fs.readFile`;
  - the stdin and single-file modes;
  - `Promise.all`, console output and `process.exit`;
  - the top-level crash handler.
- The oxc parser, `loadOxcParseSync` and the TypeScript parser (`parseWithTypeScript`, `ts.createSourceFile`) are not modelled. Their error lists are inputs.
- ParseErrors.NormalizeOne: oxc reports label offsets in bytes, while `offsetToLineColumn` counts string indices. The model takes the offset as given and does not convert bytes to indices.
- ParsePositions.LineColumnOf, ParsePositions.OffsetToLineColumn, ParsePositions.GetLineContext and ParsePositions.LineContextOf: the model's strings are sequences of Unicode code points, while JavaScript's `length` and `code[i]` count UTF-16 code units. After a character outside the Basic Multilingual Plane, offsets and columns in the model differ from the code's. For `"😀x"` at offset 3, JavaScript gives column 4 and the model gives column 3.
- ParserSelection.IsNativeBindingError: a cyclic `cause` chain makes the source loop forever. Causes here are finite, so the model does not capture that case.
- ParserSelection.MentionsMissingBinding treats a message that is not a string as absent. `String(...)` of such a value is not modelled.
- ParserSelection.ToLowerAscii lower-cases only `A`-`Z`. No other character lower-cases into the ASCII letters of the extensions compared, so the comparisons are unaffected.
- JsText.IntToString covers the integer line and column numbers only. JavaScript's formatting of fractional or huge numbers is not modelled.
- StackPayments.HttpStatus ranges over 200-999. Statuses below 200 are not represented: `fetch` treats 101 as a network error and skips the other informational responses.
- CheckoutRoute.UpstreamToResponse: the 500 response's `details` is the message of Node.js's `Response` constructor, for a status above 599 or a null body status. Other runtimes word it differently.
- The `?? ""` fallback in `getLineContext` (scripts/parse.mjs:105) is never taken, because the window ends at the line count. It is not modelled.
