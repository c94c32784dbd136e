# Users-and-posts report pipeline, modelled in Dafny

This project models the data path of a small HTTP service. The service
receives a report request (`reportType`, `to`, `subject`, `body`) and
validates it. It then fetches the users and their posts, counts each user's
posts and computes the mean post length. It joins those statistics with the
user names and lays the result out as a spreadsheet or a PDF table.

Modules:

- `Wrappers`: an `Option` type for fetches that fail and for lookups that may find nothing.
- `JsValues`: the dynamically typed JavaScript values the guards inspect. It covers truthiness, the operand-returning `||`, `Array.isArray`, `typeof`, `String.prototype.trim` with the ECMAScript whitespace set, and `String.prototype.length` counted in UTF-16 code units.
- `IntegerKeys`: an ascending, duplicate-free key list. This is the order in which `for..in` visits the array-index keys (0 to 2^32 − 2) of a plain object. The model uses it for every id.
- `ReportService`: models `src/services/reportService.js`. This covers the user projection, the `getPosts` guard and filter, and `meanPostSizeByUser`. That function is two loops over a map (`TallyPosts`, `EmitStats`), proved against the specification function `Aggregate`. The module also covers the spreadsheet record mapping, the PDF layout arithmetic, the dispatch and `isValidString`.
- `ReportController`: models `src/controllers/reportController.js`. This covers the request guard, id extraction, the stat-to-row join with its name placeholder, and the response. `HandleReportRequest` runs the pipeline. `ReportData` states its rows as a function of the two fetch results.

External inputs become parameters:

- The users and posts responses are each an `Option<seq<...>>`, where `None` is a failed request.
- Whether the spreadsheet file could be written is `excelWriteOk`.
- `toString` and `toFixed(2)` are the two functions of a `Formatter`.

## Model

| member | source | states |
|---|---|---|
| JsValues.Or | src/services/reportService.js:33 | the logical OR yields one of its two operands, and that result is truthy exactly when one of the operands is |
| JsValues.Trim | src/services/reportService.js:175 | the result is a slice of the input with only whitespace cut off before and after it; it starts and ends with a non-whitespace character; it is empty exactly when the input has no non-whitespace character |
| JsValues.Utf16Length | src/services/reportService.js:68 | `body.length` lies between the number of characters and twice that number |
| JsValues.Utf16LengthIsCountIffBmp | src/services/reportService.js:68 | `body.length` equals the character count exactly when every character lies in the Basic Multilingual Plane |
| JsValues.Utf16LengthOfAstralCharacter | src/services/reportService.js:68 | an emoji counts two code units, and `"a"` followed by an emoji counts three |
| IntegerKeys.InsertKey | src/services/reportService.js:71-72 | adding a key keeps the key list strictly ascending; its members become the old ones plus the new key; the list is unchanged if the key was present and one longer otherwise |
| ReportService.GetAllUsers | src/services/reportService.js:12-21 | a failed fetch gives no users; otherwise one user per fetched record, in order, keeping only `id` and `name` |
| ReportService.FilterPosts | src/services/reportService.js:43 | the result is a subsequence of the fetched posts (original order); every kept post's `userId` is in the id list; every post with a listed `userId` is kept as often as it occurs; all other posts are dropped |
| ReportService.GetPosts | src/services/reportService.js:30-50 | as written: every non-array argument, a number included, gives `[]`; a failed fetch gives `[]`; an array gives the filter of the fetched posts by that array |
| ReportService.PostsGuardRejectsExactlyNonArrays | src/services/reportService.js:33-35 | the mis-parenthesised guard throws exactly for the non-arrays, and so for every number |
| ReportService.GetPostsDropsSingleId | src/services/reportService.js:33-39 | with `userIDs = 1` and one post of user 1, the code as written returns `[]` and the intended guard returns that post |
| ReportService.GetPostsIntended | src/services/reportService.js:33-39 | with the guard its comment describes, a number is wrapped as a one-element list and filters by that id; arrays are filtered; anything else, or a failed fetch, gives `[]` |
| ReportService.GetPostsAgreesOnArrays | src/services/reportService.js:33-39 | for an array argument, the code as written and the corrected version give the same posts |
| ReportService.PostCountPositiveIffPresent | src/services/reportService.js:71-76 | a user's post count is at least 1 exactly when the user owns a post; an absent user's total body length is 0 |
| ReportService.AscendingUserIds | src/services/reportService.js:82 | the distinct owner ids, strictly ascending, as many as there are distinct owners |
| ReportService.Aggregate | src/services/reportService.js:67-90 | one stat per distinct owner id, in strictly ascending id order, so no duplicates; each count equals that user's number of posts and is at least 1; each mean is the user's total body length divided by that count; the result is empty exactly when there are no posts |
| ReportService.AggregateCountsEveryPost | src/services/reportService.js:67-77 | the counts sum to the number of posts: none dropped, none counted twice |
| ReportService.AggregateExample | src/services/reportService.js:67-90 | posts of lengths 2 and 4 by user 1 and of length 1 by user 2 give `[(1, 2, 3.0), (2, 1, 1.0)]` |
| ReportService.MeanPostSizeByUser | src/services/reportService.js:58-97 | a non-array argument gives `[]`; an array of posts gives exactly `Aggregate` of it |
| ReportService.TallyPosts | src/services/reportService.js:64-77 | after the `forEach`, the map's keys are exactly the owner ids, and each holds that user's total body length and post count |
| ReportService.EmitStats | src/services/reportService.js:79-92 | visiting the tallied ids in ascending order and emitting count and total/count yields exactly `Aggregate` |
| ReportService.SpreadsheetHeaderOnlyWithRows | src/services/reportService.js:101-113 | an empty report writes a sheet with neither header nor records; a non-empty one has the four labels as its header |
| ReportService.ExcelRecords | src/services/reportService.js:101-106 | one record per row, in order; id, name and count copied; the mean is replaced by its two-decimal text |
| ReportService.PdfLayout | src/services/reportService.js:121-151 | the title; the four header labels at the column offsets 60, 170, 370, 490 and y = 100; the rule from (50, 122) to (550, 122); for each row, four cells at the same x offsets and y = 130 + 32·i, with the row's texts |
| ReportService.PdfRowBelowRule | src/services/reportService.js:132-146 | every row, the first and the last included, lies below the header rule; row i lies 8 + 32·i below it |
| ReportService.PdfRowsDescend | src/services/reportService.js:133-146 | a later row lies strictly lower, by 32 per row |
| ReportService.GenerateUsersPostsReport | src/services/reportService.js:161-172 | something is produced exactly when the type is `"PDF"`, or the type is `"Excel"` and the spreadsheet write succeeds; `"Excel"` produces the single sheet at `./report.xlsx`, with a header row only when there are rows, and `"PDF"` the document at `./report.pdf`; every other value, and a failed spreadsheet write, produces nothing and raises nothing |
| ReportService.IsValidString | src/services/reportService.js:174-176 | true exactly for strings containing at least one character that `trim` keeps |
| ReportController.RequestAccepted | src/controllers/reportController.js:8-11 | accepted exactly when `to`, `subject` and `body` are strings with a non-whitespace character and `reportType` is exactly the string `"PDF"` or `"Excel"` |
| ReportController.UserIdArray | src/controllers/reportController.js:14 | an array of the users' ids, in the same order and number as the users |
| ReportController.FindUser | src/controllers/reportController.js:19 | nothing is found exactly when no user has the id; otherwise the result is the first user with that id |
| ReportController.BuildReportRows | src/controllers/reportController.js:18-27 | one row per stat, in order; id, count and mean copied; the name is that of the first user with the stat's id, or `"Nome não encontrado"` when there is none |
| ReportController.HandleReportRequest | src/controllers/reportController.js:4-45 | a rejected request gets 400 with the fixed message and nothing is fetched or generated; an accepted one fetches users, then posts for the users' ids, generates the report from the joined rows, and gets 200 with the fixed message |
| ReportController.ReportCountsEveryFetchedPost | src/controllers/reportController.js:13-18 | the row counts of the report sum to the number of posts that `getPosts` returned |
| ReportController.ReportNamesResolve | src/controllers/reportController.js:13-27 | in the pipeline every row's user is found, because posts are fetched only for the fetched users' ids; each name is that of the first user with the row's id |
| ReportController.NoUsersGivesEmptyReport | src/controllers/reportController.js:13-18 | when the users fetch fails, the report has no rows |
| ReportController.NoPostsGivesEmptyReport | src/controllers/reportController.js:15-18 | when the posts fetch fails, the report has no rows |
| ReportController.UnknownUserGetsPlaceholder | src/controllers/reportController.js:19-23 | a stat for user 2 with only user 1 known gets the placeholder name |
| ReportController.RejectedMissingFields | test/test.js:29-33 | an empty body and a body without `body` are rejected |
| ReportController.RejectedEmptyFields | test/test.js:30-31 | an empty `to` and an empty `subject` are rejected |
| ReportController.RejectedUnknownType | test/test.js:32 | the report type `"Invalid"` is rejected |
| ReportController.RejectedBlankRecipient | test/test.js:34 | a `to` of three spaces is rejected |
| ReportController.RejectedNullsAndWrongTypes | test/test.js:37-42 | `null` fields, numbers and an object in place of strings are rejected |
| ReportController.RejectedLowercaseType | test/test.js:45 | `"pdf"` is rejected |
| ReportController.AcceptedPdfRequest | test/test.js:48 | the valid PDF request is accepted |
| ReportController.AcceptedExcelRequest | test/test.js:49 | the valid Excel request is accepted |

## Left out

- HTTP calls, their 5-second timeouts and network errors (src/services/reportService.js:15,41): the response bodies are parameters, and `None` means the request failed.
- pdfkit drawing, fonts, `moveDown` spacing and stream piping, and the XLSX workbook and buffer: these are foreign library calls. Only the sheet's header row and records, the cell positions and the rule coordinates are modelled.
- PdfLayout: the coordinates are the ones handed to pdfkit, and they assume every row fits on one page. pdfkit would move a line that passes the bottom margin to a new page, which with these coordinates happens from about the 20th row on. Page breaks are not modelled.
- File writes: a single `excelWriteOk` flag stands for `fs.writeFileSync` of the spreadsheet succeeding or throwing.
- GenerateUsersPostsReport: the PDF is streamed to `./report.pdf` after the function has returned. A failure to open or write that file is reported asynchronously, escapes both `try`/`catch` blocks, and is not modelled. The document is always produced in the model.
- `Number.prototype.toString` and `toFixed(2)`: left uninterpreted as the `Formatter` functions.
- IEEE-754 doubles: the mean is an exact `real`, and ids and counts are unbounded integers.
- String-keyed objects: `postsInfo` is a map from integer ids, so the `Number(userId)` conversion is the identity.
- Aggregate: the source visits ids outside 0 to 2^32 − 2 (negative or larger) after the others, in first-occurrence order. The model puts every id in ascending order.
- Malformed posts (no `body`, a non-string `body`, an undefined `userId`) and malformed user records are not modelled. A post is always an integer owner id and a string body.
- GenerateUsersPostsReport: takes `reportType` as a string. The loose `==` is reached only with a validated string, so its coercions for other types are not modelled.
- HandleReportRequest: the 500 branch (src/controllers/reportController.js:41-44) cannot be reached in the model, because every callee catches its own errors. A missing `req.body`, which would make the destructuring throw, is not modelled.
- The express server, the route and the JSON middleware (server.js) are plumbing and are not part of this model.
- The simulated e-mail output and all logging are side effects only.
- The `for..in` loop of `EmitStats` picks the least remaining key on each step. The engine's own key bookkeeping is not modelled.

The model follows the code as written:

- The placeholder name is the literal `"Nome não encontrado"`.
- Stats come out in ascending user id order, which is what the `for..in` loop produces for array-index ids.
- The `getPosts` guard is modelled as written. The intended guard is modelled beside it (see Findings).
- A rejected `getPosts` argument throws inside the `try` and gives `[]` (src/services/reportService.js:33-35, 46-49).
- A non-array passed to `meanPostSizeByUser` gives `[]` (src/services/reportService.js:60-62, 93-96).
- A failed spreadsheet write is rethrown and then swallowed by the dispatch (src/services/reportService.js:114-117, 169-171).
- A post's size is `body.length`, the UTF-16 code unit count.

## Findings

| source | as written | input that shows it | evidently intended | confidence | as-written member | corrected member |
|---|---|---|---|---|---|---|
| src/services/reportService.js:33-39 | the logical OR sits inside the `Array.isArray` call, so a truthy non-array is passed to it; every number is rejected and the scalar normalisation is unreachable | `userIDs = 1` with one post of user 1 | reject only what is neither an array nor a number, and wrap a number as a one-element list | not executed | ReportService.GetPostsDropsSingleId | ReportService.GetPostsIntended |

The controller always passes an array, so both versions return the same
posts on its call (`ReportService.GetPostsAgreesOnArrays`). The pipeline
therefore uses the code as written.
