# APEX theme order fulfilment — a Dafny model

The storefront sells one Shopify theme. A customer pays offline and submits
an order with a payment screenshot. An administrator reviews the order on a
dashboard and approves or rejects it. Approval issues a download link that
expires after 48 hours and allows three downloads. Where it can, approval
also produces a copy of the theme archive stamped with the buyer's details.
This project models the four pieces that decide what happens to an order:

- the order intake and listing route (`OrdersRoute`, `intake.dfy`);
- the review route that approves or rejects (`ApproveRoute`, `approve.dfy`);
- the download gate that redeems a link (`DownloadRoute`, `download.dfy`);
- the dashboard's filter and counters (`AdminPage`, `admin_page.dfy`).

Supporting modules:

- `OrderModel` (`order.dfy`): the order record and its enumerations.
- `Store` (`store.dfy`): the orders table as an `OrderStore` object holding a `map` from id to row.
- `AdminAuth` (`auth.dfy`): the bearer-password check that two routes share.
- `Text` (`text.dfy`): the JavaScript string operations the routes use.
- `Lifecycle` (`lifecycle.dfy`): how the routes compose over one order's life.
- `Options` (`options.dfy`): the option type.
- `Collections` (`collections.dfy`): generic facts about sequences and multisets that the proofs share.

Intake, review and download each have two forms:

- a specification function on the table: `Intake`, `Review` or `Download`;
- a handler method, `Post` or `Get`, that takes the `OrderStore` object and follows the route step by step.

Each handler method is proved to answer and update the table exactly as its
specification function says. The listing route's `OrdersRoute.Get` has no
specification function: its own contract states the list it returns. The
lemmas state what the source promises about these functions and methods.

The routes' non-deterministic and external inputs are parameters:

- Clock readings: `now`, in milliseconds, plus the ISO text that the notice prints.
- Fresh UUIDs: `uploadId`, `orderId`, `freshToken`.
- Blob-store outcomes: the URL an upload returned, or `None` when it failed.
- The approval's pipeline outcomes, in `ApprovalEffects`: whether the theme archive was fetched and opened, whether the rewritten archive was packed, and the upload's URL.
- Whether the email was delivered.
- Configuration: `ADMIN_PASSWORD`, `ORIGINAL_THEME_URL`, `NEXT_PUBLIC_APP_URL`.

Conventions:

- A form field or a configuration value the source tests for truthiness is an `Option<string>`. It counts as present when it is `Some` of a non-empty string (`Filled`).
- The database's `.single()` lookup by token is modelled as follows: it finds a row only when exactly one row holds the token (`Store.RowByToken`).

In three places the code is looser than the order lifecycle suggests; the model follows the code:

- The review route does not check that an order is pending. Only the dashboard hides the buttons for orders that are not pending (`src/app/admin/page.tsx:339`, `:506`). Rejecting an already approved order therefore keeps its token, and the link keeps working (`Lifecycle.RejectAfterApprovalKeepsLink`). So "a token exists iff the order is approved" is not an invariant of the code. What does hold is that no pending row has a token (`Lifecycle.PendingUnlinked`).
- Validation tests only that `name` is non-empty, and the name is trimmed afterwards. A name of blanks is therefore accepted and stored as the empty string (`OrdersRoute.BlankNameAccepted`).
- The payment method is stored as submitted. It is not checked against the three methods the type declares (`OrdersRoute.PaymentMethodUnchecked`).

## Model

| member | source | states |
|---|---|---|
| OrderModel.ParsePaymentMethod | src/types/order.ts:1 | the three payment methods and their wire names correspond one to one: a parsed name prints back to itself, and every method's name parses to that method |
| Text.IsSpace | src/app/api/orders/route.ts:26 | the white-space class `\s` of the email pattern and of `trim()`: ASCII space, tab to carriage return, and the ECMAScript non-ASCII white space and line terminators |
| Text.Trim | src/app/api/orders/route.ts:50-52 | `trim()`: the leading white space cut off, then the trailing white space |
| Text.SkipSpace | src/app/api/orders/route.ts:50-52 | the scan from an index stops at the first non-space character or at the end, and passes only white space |
| Text.SkipSpaceBack | src/app/api/orders/route.ts:50-52 | the scan back from an index stops just after the last non-space character or at the start, and passes only white space |
| Text.TrimStart | src/app/api/orders/route.ts:50-52 | the result is a suffix of the input; everything cut off is white space; the result does not start with white space |
| Text.TrimEnd | src/app/api/orders/route.ts:50-52 | the result is a prefix of the input; everything cut off is white space; the result does not end with white space |
| Text.TrimSlice | src/app/api/orders/route.ts:50-52 | `trim()` is the slice of the input between the leading and the trailing white space, and that slice starts and ends with non-space |
| Text.TrimFixed | src/app/api/orders/route.ts:50-52 | trimming a string that is empty or starts and ends with non-space changes nothing |
| Text.TrimEmptyIff | src/app/api/orders/route.ts:52 | `trim()` is empty exactly when the input is all white space, which is when `trim() \|\| null` yields null |
| Text.ToLower | src/app/api/orders/route.ts:49 | lower-casing keeps the length and maps each character on its own |
| Text.ToLowerFacts | src/app/admin/page.tsx:133-135 | lower-casing neither creates nor removes white space, and lower-casing twice is lower-casing once |
| Text.TrimLowerWithoutSpace | src/app/api/orders/route.ts:49 | on a string without white space, `toLowerCase().trim()` is just `toLowerCase()` |
| Text.Contains | src/app/admin/page.tsx:133-136 | `includes`: the part occurs in the string at some index |
| Text.ContainsEmpty | src/app/admin/page.tsx:133-136 | every string includes the empty string |
| Text.ContainsMiddle | src/app/admin/page.tsx:133-136 | a string includes each of its infixes |
| Text.ConcatAppend | src/app/api/orders/approve/route.ts:82-102 | joining two lists of text pieces is joining their joins |
| Text.ConcatSplit | src/app/api/orders/approve/route.ts:82-102 | cutting the pieces at two points cuts their join into the three corresponding joins |
| Text.ContainsRun | src/app/api/orders/approve/route.ts:82-102 | a text includes the join of any run of consecutive pieces it is built from |
| Text.ContainsPiece | src/app/api/orders/approve/route.ts:82-102 | a text includes every piece it is built from |
| Text.ConcatThree | src/app/api/orders/approve/route.ts:82-102 | joining three pieces is their concatenation |
| Text.ContainsThree | src/app/api/orders/approve/route.ts:82-102 | a text includes any three consecutive pieces it is built from, concatenated |
| AdminAuth.IsAdmin | src/app/api/orders/approve/route.ts:11-16 | an accepted header is exactly `Bearer ` followed by a configured, non-empty password |
| AdminAuth.AdminHeaderUnique | src/app/api/orders/route.ts:85-90 | with no password configured nobody is admitted; with one configured, `Bearer <password>` is admitted and nothing else is |
| Store.RowByToken | src/app/api/download/route.ts:16-22 | the lookup finds a row exactly when one row holds the token, and the row it finds holds it |
| Store.RowByTokenUnique | src/app/api/download/route.ts:16-22 | a token held by one row and no other is found, and it finds that row |
| Store.InsertFresh | src/app/api/orders/route.ts:47-58 | inserting under an unused id adds exactly that id and leaves every existing row as it was |
| Store.OrderStore.constructor | src/app/api/download/route.ts:13 | a fresh table is empty and well formed |
| Store.OrderStore.FindByToken | src/app/api/download/route.ts:16-22 | the lookup answers as `RowByToken` on the current table |
| DownloadRoute.RedirectTarget | src/app/api/download/route.ts:123-136 | the redirect goes to the row's artifact URL when it is non-empty, otherwise to the configured original when that is non-empty, otherwise nowhere; a target is never empty |
| DownloadRoute.Redeem | src/app/api/download/route.ts:52-136 | the gate's checks on the found row in source order: a lapsed link is 410, a spent allowance 403, otherwise the counter rises by one and the answer redirects to `RedirectTarget` or is 404 |
| DownloadRoute.Download | src/app/api/download/route.ts:7-136 | the whole request: a missing or empty token is 400, a token no single row holds is 404, otherwise `Redeem` on the found row and its write-back |
| DownloadRoute.Get | src/app/api/download/route.ts:4-136 | the handler answers and updates the table as `Download` says, and the table stays well formed |
| DownloadRoute.DownloadRefusals | src/app/api/download/route.ts:7-112 | a missing or empty token is 400; a token that no single row holds is 404; 410 only for a lapsed link, whatever its counter; 403 only for a link that has not lapsed and whose counter reached the allowance, naming it; none of these writes |
| DownloadRoute.FoundRowRefusals | src/app/api/download/route.ts:52-112 | for every found row: a lapsed link is refused 410 whatever its counter, and a live link whose counter reached the allowance is refused 403 naming it; neither writes |
| DownloadRoute.DownloadSuccessFootprint | src/app/api/download/route.ts:84-136 | a redemption within window and allowance raises that row's counter by exactly one and stamps its update time; nothing else changes; it redirects to `RedirectTarget` or answers 404 without undoing the count |
| DownloadRoute.DownloadKeepsWellFormed | src/app/api/download/route.ts:84-121 | a redemption keeps every counter between 0 and its allowance |
| DownloadRoute.IsExpired | src/app/api/download/route.ts:53 | a link has lapsed exactly when an expiry is recorded and lies strictly before the current instant |
| DownloadRoute.ExpiryLasts | src/app/api/download/route.ts:53 | a lapsed link stays lapsed at every later instant; a row without an expiry never lapses |
| DownloadRoute.ExpiryIsStrict | src/app/api/download/route.ts:53 | a link whose expiry equals the current instant has not lapsed and still redeems |
| ApproveRoute.Notice | src/app/api/orders/approve/route.ts:82-102 | the licence notice: the banner, the name, email, phone and business lines, a margin, the purchase id and date, and the licence terms, joined in that order |
| ApproveRoute.NoticeIdentifiesBuyer | src/app/api/orders/approve/route.ts:82-102 | the licence notice carries the buyer's name, email, phone and purchase id, each on its own line |
| ApproveRoute.NoticeWithBusiness | src/app/api/orders/approve/route.ts:92 | with a non-empty business name, the line after the phone is `Business: <name>` |
| ApproveRoute.NoticeWithoutBusiness | src/app/api/orders/approve/route.ts:92 | without a business name, the line after the phone is blank, and the notice is the one for no business at all |
| ApproveRoute.Watermarked | src/app/api/orders/approve/route.ts:104-118 | the archive gains the two licence files holding the notice; each of the three listed assets that is present gets the notice and a newline prepended; absent ones stay absent; every other file is unchanged |
| ApproveRoute.WatermarkArchive | src/app/api/orders/approve/route.ts:104-118 | the loop over the three listed assets produces `Watermarked` |
| ApproveRoute.ArtifactUrl | src/app/api/orders/approve/route.ts:67-135 | the recorded URL is empty without a configured original, the uploaded URL when fetch, rewrite and upload all succeed, and the original after any failure |
| ApproveRoute.DownloadUrl | src/app/api/orders/approve/route.ts:159-160 | the link: the configured app URL, or `http://localhost:3000` when it is unset or empty, then `/api/download?token=` and the token |
| ApproveRoute.Review | src/app/api/orders/approve/route.ts:11-182 | the whole request: 401, 400, 404 in that order, then a rejection or an approval of the named row, or 400 for any other action |
| ApproveRoute.Post | src/app/api/orders/approve/route.ts:8-190 | the handler answers, updates the table, uploads and emails as `Review` says, and the table stays well formed |
| ApproveRoute.ReviewRefusals | src/app/api/orders/approve/route.ts:11-182 | 401 exactly for a bad credential; 400 exactly for a missing id or action; 404 exactly for an unknown id; 400 "Invalid action" exactly for any other action on an existing order; no refusal writes, uploads or emails |
| ApproveRoute.RejectFootprint | src/app/api/orders/approve/route.ts:41-55 | a rejection changes only the status and the update time of the named row, whatever its status was, and neither uploads nor emails |
| ApproveRoute.ApproveFootprint | src/app/api/orders/approve/route.ts:58-179 | an approval sets the status, the fresh token, an expiry 48 hours after the approval instant, the artifact URL, the approval and update times, and nothing else; counter and allowance are kept; the link returned and emailed is the app URL (by default `http://localhost:3000`), `/api/download?token=` and the token; the email goes to the order's address |
| ApproveRoute.EmailOutcomeIrrelevant | src/app/api/orders/approve/route.ts:164-183 | whether the email is delivered changes nothing: the answer, the table and the upload are the same either way |
| ApproveRoute.Personalize | src/app/api/orders/approve/route.ts:69-136 | the fetch, stamp and upload step records the URL `ArtifactUrl` names and attempts exactly the upload `AttemptedUpload` names |
| ApproveRoute.ApproveArtifact | src/app/api/orders/approve/route.ts:67-135 | which URL an approval records, and that its upload happens exactly when an original is configured, fetched and repacked, under `downloads/<id>-apex-theme.zip`, with the buyer's notice as its licence file |
| ApproveRoute.ReviewKeepsWellFormed | src/app/api/orders/approve/route.ts:41-149 | reviews keep every counter within its allowance and every row under its own id |
| OrdersRoute.MatchesEmailPattern | src/app/api/orders/route.ts:26 | the pattern `^[^\s@]+@[^\s@]+\.[^\s@]+$`: a run without white space or `@`, an `@`, such a run, a `.`, and such a run |
| OrdersRoute.HasRequiredFields | src/app/api/orders/route.ts:18 | name, email, phone and payment method are non-empty and a screenshot is attached |
| OrdersRoute.EmailPatternIsCharacterTest | src/app/api/orders/route.ts:26 | the email pattern `^[^\s@]+@[^\s@]+\.[^\s@]+$` holds exactly when there is no white space, exactly one `@` with text before it, and a `.` after it with text on both sides |
| OrdersRoute.PatternGivesCharacters | src/app/api/orders/route.ts:26 | a string the pattern matches has the characters described above |
| OrdersRoute.CharactersGivePattern | src/app/api/orders/route.ts:26 | a string with those characters matches the pattern |
| OrdersRoute.CheckIntake | src/app/api/orders/route.ts:17-32 | a form is refused for missing fields exactly when a required field is missing or empty; it is refused for its email exactly when the fields are present but the email fails the pattern; an accepted email has no white space |
| OrdersRoute.NormalizeBusiness | src/app/api/orders/route.ts:52 | the business name becomes null exactly when it is absent or only white space; otherwise it is stored as the trimmed input, which has no white space at its ends |
| OrdersRoute.NewOrderRow | src/app/api/orders/route.ts:47-58 | the new row is pending with no downloads of the default allowance of 3, no token, expiry or artifact; the email is the input lower-cased, with the trim a no-op; name and phone trimmed; payment method verbatim |
| OrdersRoute.Intake | src/app/api/orders/route.ts:17-72 | the whole submission: 400 for a refused form, 500 when the screenshot upload fails, 500 when the new id is taken, otherwise the `NewOrderRow` inserted under the new id |
| OrdersRoute.Post | src/app/api/orders/route.ts:6-80 | the handler answers, uploads and inserts as `Intake` says, and the table stays well formed |
| OrdersRoute.IntakeRefusal | src/app/api/orders/route.ts:17-32 | 400 exactly for a missing field or a malformed email, missing fields reported first; a refused form uploads nothing and inserts nothing |
| OrdersRoute.IntakeUploadsFirst | src/app/api/orders/route.ts:34-41 | an accepted form's screenshot goes to `screenshots/<uuid>-<file name>` before any insert; a failed upload is 500 with no insert |
| OrdersRoute.IntakeInsertsOneRow | src/app/api/orders/route.ts:43-72 | a created order adds exactly one row, under the new id, built by `NewOrderRow`, and answers with that id |
| OrdersRoute.IntakeCreatedCase | src/app/api/orders/route.ts:17-72 | an order is created only when the form passes, the screenshot upload returned a URL and the new id is unused, and then the table gains exactly the `NewOrderRow` under that id |
| OrdersRoute.IntakeWritesOnlyOnCreate | src/app/api/orders/route.ts:17-66 | every answer other than a created order leaves the table unchanged |
| OrdersRoute.IntakeKeepsWellFormed | src/app/api/orders/route.ts:47-58 | intake keeps every counter within its allowance and every row under its own id |
| OrdersRoute.PaymentMethodUnchecked | src/app/api/orders/route.ts:53 | any non-empty payment method, whether or not it names one of the three declared ones, is accepted and stored as submitted; "paypal", which names none, is stored as it is |
| OrdersRoute.BlankNameAccepted | src/app/api/orders/route.ts:18-50 | any name made only of white space passes validation and is stored empty |
| OrdersRoute.InsertNewestFirst | src/app/api/orders/route.ts:94-97 | inserting into a newest-first list keeps it newest first and adds exactly that order |
| OrdersRoute.Get | src/app/api/orders/route.ts:82-115 | 401 exactly for a bad credential; otherwise every row of the well-formed table, each exactly once, sorted by creation time descending |
| AdminPage.MatchesSearch | src/app/admin/page.tsx:133-136 | the search: the email or the name includes the term ignoring case, or the phone includes it as typed |
| AdminPage.CountStatus | src/app/admin/page.tsx:145-147 | the number of orders with a given status |
| AdminPage.FilterOrders | src/app/admin/page.tsx:132-141 | an order is shown exactly when its email or name contains the term ignoring case, or its phone contains it verbatim, and the status filter is "all" or its status; each shown order appears as many times as in the input and no other does; the result is an order-preserving subsequence, no longer than the input |
| AdminPage.FilterIdempotent | src/app/admin/page.tsx:132-141 | filtering twice with the same settings is filtering once |
| AdminPage.EmptySearchShowsAll | src/app/admin/page.tsx:132-141 | an empty search with "all" statuses shows every order in its order |
| AdminPage.StatusCountsAddUp | src/app/admin/page.tsx:143-148 | the pending, approved and rejected counts add up to the number of orders |
| AdminPage.CountIsFilterLength | src/app/admin/page.tsx:143-148 | each count is the length of the list its status filter shows |
| AdminPage.ComputeStats | src/app/admin/page.tsx:143-148 | the total is the number of orders; each status counter is the length of the list filtered to that status; the three counters partition the total |
| AdminPage.ActionsOffered | src/app/admin/page.tsx:339-340 | the list row offers approve and reject exactly on a pending order; the detail panel applies the same rule at lines 506-507 |
| Lifecycle.RedeemHeldToken | src/app/api/download/route.ts:16-121 | redeeming a token that exactly one row holds acts on that row alone, and the token stays with that row |
| Lifecycle.ApprovalGrantsLink | src/app/api/orders/approve/route.ts:58-149 | approving an unused order gives it a token no other row holds, an expiry 48 hours after approval, counter 0 of 3, and a redirect target when an original theme is configured |
| Lifecycle.RedeemUntilRefused | src/app/api/download/route.ts:52-130 | such a link redirects three times to the same target with the counter at 1, 2, 3, then is refused 403 for the allowance and 410 after it lapses, neither refusal writing |
| Lifecycle.ApprovalScenario | src/app/api/download/route.ts:52-130 | after approval at t with allowance 3, the link redirects at t+1h, t+2h and t+3h to the same target, with the counter at 1, 2, 3; it is 403 at t+4h and 410 at t+49h, neither writing |
| Lifecycle.IntakeKeepsPendingUnlinked | src/app/api/orders/route.ts:47-58 | intake inserts only pending rows without a token |
| Lifecycle.ReviewKeepsPendingUnlinked | src/app/api/orders/approve/route.ts:41-149 | a review never leaves a pending row with a token |
| Lifecycle.DownloadKeepsPendingUnlinked | src/app/api/download/route.ts:114-121 | redemption changes no status and no token |
| Lifecycle.RejectPendingLeavesNoLink | src/app/api/orders/approve/route.ts:41-46 | rejecting a pending order leaves it rejected with no token |
| Lifecycle.RejectAfterApprovalKeepsLink | src/app/api/orders/approve/route.ts:41-46 | rejecting an approved order keeps its token, and its link still redirects within window and allowance |
| Lifecycle.DashboardReviewIsFinal | src/app/admin/page.tsx:339 | the dashboard reviews only pending orders, each review leaves the order approved or rejected as asked, and the reviewed order offers no further buttons |

## Left out

- Error-page and JSON bodies: the HTML of the gate's three failure pages and the messages' wording are not modelled. Only the status and, for 403, the allowance it names are.
- Store failures with no cause the model can name: a failed lookup, update or insert other than a duplicate id is not modelled. The same goes for the routes' catch-all 500s. An insert with an id already in use is modelled, as a 500.
- Concurrency: each handler is one atomic step on the table. Two redemptions racing between the counter check and the increment can exceed the allowance in the deployed system, and the model does not show this.
- Clock arithmetic: the 48-hour expiry is 172 800 000 milliseconds added to the approval instant. The source adds 48 to the local hour field, which differs across a daylight-saving change.
- Clock readings within one request: the download and approval routes read the clock once in the model, as `now` (and `nowIso` for the notice). The approval route reads it several times: for the expiry base (`src/app/api/orders/approve/route.ts:61`), for the notice's purchase date (line 95), and for `approved_at` and `updated_at` after the archive has been fetched, stamped and uploaded (lines 146-147). In the source the expiry is therefore 48 hours after an instant slightly earlier than `approved_at`, and not exactly 48 hours after it, as `ApproveRoute.ApproveFootprint` states for the model.
- ApproveRoute.ApproveFootprint: states the expiry as exactly 48 hours after the recorded approval time. The source takes the two from separate clock readings, a few moments apart, and the model does not capture that gap.
- ISO timestamps: dates are stored as ISO strings by the source and as milliseconds by the model. The notice's purchase date is taken as a string parameter.
- Non-ASCII case: `toLowerCase` is modelled on ASCII letters only; other characters are kept.
- Unicode white space: `\s` and `trim()` use the ECMAScript white-space and line-terminator set, written out in `Text.IsSpace`. Surrogate pairs are not considered.
- Archive format: JSZip's parsing and packing, the fetch of the original, and the bytes of the archive are left out. An archive is a map from path to text, and fetching or packing is an outcome parameter.
- Email: the template, the formatting of the expiry date and the mail provider are not modelled. The email is modelled as the message the route hands over, and whether it is delivered is a parameter that changes nothing.
- Form shapes: a form field that holds a non-string value is not modelled. The screenshot is its file name and media type. The review route's JSON body (`orderId`, `action`, `src/app/api/orders/approve/route.ts:19-21`) can also hold non-string values; the model takes both as `Option<string>`, so a non-string value is not modelled either.
- OrdersRoute.NewOrderRow: `created_at` and `updated_at` of a new row are filled by the table's defaults, and the intake handler reads no clock; the model sets both to the request instant `now`.
- The `approved_by` column: no route writes it. It is kept in the record and never changes.
- OrdersRoute.Get: states that every row appears and that the list is newest first. It does not state where equal creation times fall; the database leaves that order unspecified.
- Dashboard: the rendering, the session-storage login, and the requests the page sends are not modelled. Only the filter, the counters and the pending-only rule for the buttons are.
