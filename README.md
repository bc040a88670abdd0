# Gift registry (presenteslele15) in Dafny

This project models a wedding/party gift registry. It has two parts:

- An Express + MySQL back end. Guests list the gifts and reserve one. An administrator logs in with a single password and then creates, edits, deletes, reserves or releases gifts, and corrects the name a gift is reserved under.
- A browser front end. It searches the list, shows it nine gifts to a page, counts reserved and available gifts, and checks a guest's name before sending a reservation.

The model is split into these modules:

| module | what it holds |
|---|---|
| `Wrappers` | `Option` and `Result` |
| `Js` | The JavaScript semantics the code relies on: <br>• request values (`Json`), truthiness and `String(v)` <br>• `trim`, `substring(0, n)`, `startsWith`, `includes`, `toLowerCase`, `join` and `slice` <br>• the thrown `Error` with the fields mysql2 adds <br>• how MySQL matches a request value against an integer id (`RowKey`) |
| `GiftModel` | The `gifts` table. <br>• Each write is a pure step function on `map<int, Gift>`. <br>• A class `GiftTable` performs the same change in place and is proved to agree with it. <br>• It also holds the ordering of `findAll`, its fallback query, and `Gift.validate`. |
| `AdminModel` | The `admin` table as a class holding a sequence of rows: `findById`, `verifyPassword`, `setPassword` |
| `Http` | The JSON responses: status, `success`, `message` and the rest of the body |
| `GiftController` | `getAllGifts` and `reserveGift` |
| `AdminController` | `login`, `getGifts`, `createGift`, `updateGift`, `deleteGift`, `updateGiftStatus`, `updateReservedBy` |
| `App` | The front end's state (`gifts`, `filteredGifts`, `currentGift`, `currentPage`, `searchTerm`) and its handlers |

Things outside the program become parameters:

- **Database failures.** `fault` stands for the first database statement an endpoint runs failing; the table then stays as it was. `ListFaults` stands for the two queries of `findAll`.
- **Time.** `now` stands for the time `NOW()` reads.
- **URL parsing.** `isUrl` stands for `new URL(...)` succeeding.
- **bcrypt.** `compare` stands for `bcrypt.compare`, and the new hash arrives as a computed string.
- **Guests' requests.** Concurrent reservations on one gift are modelled in the order the database grants the `FOR UPDATE` row lock (`ReserveInTurn`).

One might expect `reserved_by` to be set exactly when a gift is reserved. The code does not keep that. `updateReservedBy` with a blank name clears the name of a reserved gift (backend/controllers/adminController.js:478-485), and the front end shows such a gift as "Não informado". The model follows the code. Its invariant `GiftModel.Consistent` states only what holds: an available gift has no name and no time, and a reserved gift has a reservation time. `GiftTable.Valid` includes it for every row, so every method of the table keeps it.

## Model

| member | source | states |
|---|---|---|
| Js.RowKey | backend/models/Gift.js:76-78 | The row a request id selects: a number selects itself, `true` row 1 and `false` 0 (as mysql2 sends booleans), a digit string its value, anything else 0, which no row has |
| Js.ParseDecimalDigits | backend/models/Gift.js:76-78 | Reading back the decimal numeral of `n` gives `n`, so `String(id)` of a row id selects that row again |
| Js.Trim | backend/controllers/giftController.js:86-94 | `trim()` is never longer than its input, empty exactly when the input is all white space, and non-empty results neither start nor end with white space |
| Js.TrimSlice | backend/controllers/giftController.js:86-94 | The trimmed string is the contiguous slice of the input that starts after the leading white space, and every character cut off is white space |
| Js.TrimIdempotent | backend/controllers/adminController.js:329-331 | Trimming a trimmed value again changes nothing |
| Js.Prefix | backend/controllers/giftController.js:94 | `substring(0, n)` yields the first `min(n, len)` characters, the whole string when it is no longer than `n` |
| Js.Includes | backend/controllers/adminController.js:175 | `includes` holds exactly when the needle occurs at some position |
| Js.ToLower | frontend/js/app.js:272 | `toLowerCase` keeps the length and lower-cases character by character |
| Js.Slice | frontend/js/app.js:349 | `slice(start, end)` yields the elements between the two clamped indices, or nothing |
| GiftModel.OrNull | backend/models/Gift.js:101-102 | `value \|\| null`: an empty string is stored as NULL, any other value as is |
| GiftModel.ReserveRow | backend/models/Gift.js:191-227 | The lock-held transaction succeeds exactly when no database error occurs, the gift exists and it is not reserved. <br>It fails with "Presente não encontrado" or "Este presente já foi reservado" otherwise. <br>On failure the table is unchanged. On success only that row changes (status, guest, `NOW()`) and it is returned. <br>It keeps every row consistent. |
| GiftModel.ReserveInTurn | backend/models/Gift.js:192-195 | Concurrent reservations run one after another in lock order, each seeing its predecessor's commit; one result per attempt |
| GiftModel.ReservedGiftRejectsAll | backend/models/Gift.js:203-205 | Every attempt on a reserved gift fails with the conflict error and the table never changes |
| GiftModel.MissingGiftRejectsAll | backend/models/Gift.js:197-199 | Every attempt on an unknown id fails with the not-found error and the table never changes |
| GiftModel.FirstGrantedWins | backend/models/Gift.js:191-227 | Of concurrent attempts on an available gift exactly the first granted the lock succeeds; all others fail with the conflict error. <br>The gift ends reserved under the winner's name and time, and no other row changes. |
| GiftModel.TwoGuestsOneGift | backend/models/Gift.js:191-227 | Two guests on one available gift: whichever comes second gets the conflict, and the first one's name stays |
| GiftModel.SetStatus | backend/models/Gift.js:149-172 | Reserving records the given name and `NOW()` whatever the previous status; releasing clears name and time. <br>An unknown id changes nothing, only that row changes, and consistency is kept. |
| GiftModel.SetReservedBy | backend/models/Gift.js:177-186 | Only a reserved row gets its name replaced (`AND status = 'reserved'`); anything else is a no-op. <br>Only that column changes. |
| GiftModel.InsertRow | backend/models/Gift.js:85-107 | A new row under a fresh id, always available, with no reservation, empty links as NULL and the other rows untouched |
| GiftModel.UpdateRow | backend/models/Gift.js:112-135 | Exactly the five editable columns change (links with `\|\| null`). <br>Status, reservation and creation time stay; an unknown id is a no-op. |
| GiftModel.UpdateWithSameValues | backend/models/Gift.js:112-135 | Writing back a row's own values leaves the table unchanged |
| GiftModel.DeleteRow | backend/models/Gift.js:140-144 | The row is gone and every other row stays |
| GiftModel.RowsByIdDesc | backend/models/Gift.js:43 | `ORDER BY id DESC`: each row once, ids strictly decreasing |
| GiftModel.DescendingHasNoDuplicates | backend/models/Gift.js:43 | A listing ordered by strictly decreasing id lists no row twice |
| GiftModel.PermutedListing | backend/models/Gift.js:23 | Reordering a listing of the table is still a listing of exactly the table |
| GiftModel.InsertByCreation | backend/models/Gift.js:23 | Inserting into a newest-first list keeps it newest first (NULL `created_at` last) and adds exactly that row |
| GiftModel.SortNewestFirst | backend/models/Gift.js:23 | `ORDER BY created_at DESC`: newest first and a permutation of its input |
| GiftModel.WithoutReservationColumns | backend/models/Gift.js:47-52 | The fallback row has `reserved_by`, `reserved_at` and `created_at` NULL, and every other column as stored |
| GiftModel.StripAll | backend/models/Gift.js:47-52 | The fallback query returns one row per stored row, in the same order, each with the three optional columns NULL |
| GiftModel.FullListing | backend/models/Gift.js:8-22 | The full query lists every stored row exactly once, newest first |
| GiftModel.ReducedListing | backend/models/Gift.js:44-52 | The fallback lists rows by id, largest first; each entry is a stored row with the optional columns NULL, and every stored row shows up |
| GiftModel.CheckText | backend/models/Gift.js:235-245 | A required text check: it throws exactly for a truthy non-string; otherwise it reports its message exactly when the trimmed text is shorter than the minimum |
| GiftModel.CheckUrl | backend/models/Gift.js:248-262 | An optional URL check: it throws exactly for a truthy non-string; otherwise it reports exactly when a non-blank value does not parse |
| GiftModel.Validate | backend/models/Gift.js:232-265 | It throws exactly when some field is a truthy non-string; otherwise the list is empty exactly when all five rules hold |
| GiftModel.ValidateReportsEachRule | backend/models/Gift.js:232-265 | Each of the five messages is present exactly when its rule fails, and the messages come in the order name, category, description, link, image |
| GiftModel.Flag | backend/models/Gift.js:235-237 | `errors.push(m)` under a condition: the message is present exactly when the check failed |
| GiftModel.MessagesInOrder | backend/models/Gift.js:232-265 | The concatenated checks are empty exactly when none failed; each message is present exactly when its check failed, in rank order |
| GiftModel.MessagesPresent | backend/models/Gift.js:232-265 | The joined messages are empty exactly when no check failed, and each message is there exactly when its check failed |
| GiftModel.MessagesRanked | backend/models/Gift.js:232-265 | The messages appear in check order: name, category, description, product link, image URL |
| GiftModel.GiftTable.constructor | backend/models/Gift.js:3 | An empty table whose auto-increment counter starts at 1 |
| GiftModel.GiftTable.FindById | backend/models/Gift.js:62-80 | The row with that id, or null exactly when there is none |
| GiftModel.GiftTable.FindAll | backend/models/Gift.js:8-57 | The full query lists every row exactly once, newest first. <br>A missing-column error falls back to all rows by id, largest first, with the three optional columns NULL. <br>The fallback's own error, or any other error, propagates. |
| GiftModel.GiftTable.Reserve | backend/models/Gift.js:191-227 | The in-place reservation agrees with `ReserveRow`: same result, same new table, counter unchanged |
| GiftModel.GiftTable.UpdateStatus | backend/models/Gift.js:149-172 | The in-place update agrees with `SetStatus` and returns the row as `findById` reads it |
| GiftModel.GiftTable.UpdateReservedBy | backend/models/Gift.js:177-186 | The in-place update agrees with `SetReservedBy` and returns the row as `findById` reads it |
| GiftModel.GiftTable.Create | backend/models/Gift.js:85-107 | Inserts per `InsertRow` under the next id, bumps the counter, and `findById` then returns the new row |
| GiftModel.GiftTable.Update | backend/models/Gift.js:112-135 | The in-place update agrees with `UpdateRow` and returns the row as `findById` reads it |
| GiftModel.GiftTable.Delete | backend/models/Gift.js:140-144 | Removes per `DeleteRow`, returns true, and `findById` then finds nothing |
| GiftController.ListErrorMessage | backend/controllers/giftController.js:38-57 | A failed listing gets its own message for each known database code, and the generic one exactly for any other code |
| GiftController.KnownCodesHaveTheirOwnMessage | backend/controllers/giftController.js:41-51 | Two different known codes share a message only when both are the connection codes |
| GiftController.ListFailure | backend/controllers/giftController.js:37-67 | A 500 with the code's message. <br>The details are the SQL message of a missing column, or the error's message for an unknown code outside production; they are present only when not empty. <br>Code and SQL state are added exactly outside production. |
| GiftController.GetAllGifts | backend/controllers/giftController.js:6-69 | 200 with every gift, newest first, when the full query works. <br>200 exactly when `findAll` succeeds; otherwise the explained 500. |
| GiftController.CheckReserveRequest | backend/controllers/giftController.js:79-94 | 400 "Dados incompletos" for a missing field, 400 for a non-string or short name, before any database access. <br>Otherwise the claim uses the request's id and the trimmed name cut to 100 characters, 3 to 100 long. |
| GiftController.ReserveOutcome | backend/controllers/giftController.js:97-124 | 200 exactly on success; 404 and 409 for the two domain errors by message; 500 for any other error |
| GiftController.ReserveGift | backend/controllers/giftController.js:74-126 | A refused request never touches the table. <br>An accepted one answers the outcome of the reserve transaction on the claimed id and name, and leaves its table behind. |
| GiftController.SecondRequestConflicts | backend/controllers/giftController.js:107-119 | Two accepted requests for one available gift: the first gets 200, the second 409, and the first guest's name stays |
| AdminModel.FindRow | backend/models/Admin.js:8-12 | The row with that id exactly when one exists |
| AdminModel.SetPasswordRows | backend/models/Admin.js:38-55 | With a row present, only the first row's hash changes. <br>With none, one row is inserted under the next id with the new hash. |
| AdminModel.SetPasswordKeepsOneRow | backend/models/Admin.js:38-55 | A table of at most one row ends with exactly one row holding the new hash |
| AdminModel.AdminTable.constructor | backend/models/Admin.js:4 | An empty admin table, counter at 1 |
| AdminModel.AdminTable.FindById | backend/models/Admin.js:8-12 | The row with that id, or null exactly when there is none |
| AdminModel.AdminTable.VerifyPassword | backend/models/Admin.js:17-33 | "Admin não configurado" on an empty table. <br>Success exactly when the comparison with the first row's hash says true. <br>"Senha incorreta" on a mismatch; a comparison error propagates. |
| AdminModel.AdminTable.SetPassword | backend/models/Admin.js:38-55 | The in-place change agrees with `SetPasswordRows`; the counter grows only on insert |
| AdminController.Login | backend/controllers/adminController.js:10-47 | 400 without a password, 200 exactly when the password verifies (carrying the admin's id), 401 exactly for the two verification refusals, 500 otherwise |
| AdminController.GetGifts | backend/controllers/adminController.js:52-67 | 200 exactly when `findAll` succeeds, with its listing newest first when the full query works; otherwise a plain 500 |
| AdminController.UploadPath | backend/controllers/adminController.js:129 | An uploaded file is served under `/uploads/images/` followed by its stored name |
| AdminController.CatchResponse | backend/controllers/adminController.js:175-185 | 400 with the message exactly when it mentions "Tipo de arquivo", otherwise the generic 500 |
| AdminController.CleanText | backend/controllers/adminController.js:121-123 | A string becomes its trimmed self, anything else "" |
| AdminController.NewImage | backend/controllers/adminController.js:126-133 | An uploaded file wins. <br>Otherwise there is an image exactly for a non-blank `image_url` string, and it is that string trimmed. |
| AdminController.CreatePlanProperties | backend/controllers/adminController.js:120-159 | It throws only for a truthy non-string link or (without a file) image URL. <br>It gives a 400 exactly when the cleaned fields fail validation. <br>A written gift has name 2-200, category 1-50 and description 5-500 characters, each the prefix of the trimmed input, with the trimmed link and the chosen image. |
| AdminController.CreateDataProperties | backend/controllers/adminController.js:152-159 | Once the cleaned fields pass validation, the stored name, category and description are the trimmed inputs cut to 200, 50 and 500 characters, and each is within those bounds and at least 2, 1 and 5 long |
| AdminController.PrepareCreate | backend/controllers/adminController.js:120-159 | The field-by-field preparation of `createGift` reaches the decision `CreatePlan` states |
| AdminController.CleanTextField | backend/controllers/adminController.js:121 | The in-place cleaning of one text field agrees with `CleanText` |
| AdminController.ChooseNewImage | backend/controllers/adminController.js:126-133 | The step-by-step image choice agrees with `NewImage` |
| AdminController.CreateGift | backend/controllers/adminController.js:72-187 | The upload filter's rejection is a 400. <br>A refused, invalid or failing request leaves the table and counter unchanged. <br>201 exactly when the prepared row is inserted, and it answers that row. |
| AdminController.WritePlan | backend/controllers/adminController.js:161-186 | A prepared 400 or a thrown error is answered without touching the table. A failing insert is caught as a 500 and changes nothing. Otherwise the row is inserted under the next id and sent back with 201 |
| AdminController.KeptText | backend/controllers/adminController.js:257-279 | A missing, null or blank field keeps the stored text, a string is trimmed, any other value becomes `String(v)`, and an empty `String(v)` (as for `[]`) keeps the stored text too |
| AdminController.KeptLink | backend/controllers/adminController.js:282-288 | A missing link keeps the stored one (empty as null), a blank string clears it, a string is trimmed, anything else passes through |
| AdminController.KeptImage | backend/controllers/adminController.js:290-308 | An uploaded file wins, then a non-blank `image_url` string trimmed, then the stored image. <br>It throws exactly for a truthy non-string `image_url` without a file. |
| AdminController.UpdatePlanProperties | backend/controllers/adminController.js:257-334 | It throws exactly for a truthy non-string image URL (without a file) or merged link. <br>It gives a 400 exactly when the merged fields fail validation. <br>A write stores the merged texts trimmed and cut to 200/50/500 (with minimum lengths 2/1/5), the merged link and the chosen image. |
| AdminController.UpdateDataBounds | backend/controllers/adminController.js:328-334 | Merged texts whose trimmed lengths pass validation are written within 2-200, 1-50 and 5-500 characters |
| AdminController.PrepareUpdate | backend/controllers/adminController.js:257-334 | The field-by-field merge of `updateGift` reaches the decision `UpdatePlan` states |
| AdminController.MergeTextField | backend/controllers/adminController.js:257-263 | The in-place merge of one text field agrees with `KeptText` |
| AdminController.MergeLinkField | backend/controllers/adminController.js:282-288 | The in-place merge of the link agrees with `KeptLink` |
| AdminController.ChooseKeptImage | backend/controllers/adminController.js:290-308 | The step-by-step image choice agrees with `KeptImage` |
| AdminController.UpdateGift | backend/controllers/adminController.js:192-362 | The upload rejection comes first (400), then the lookup error (caught) and the 404 for an unknown id. <br>Any non-200 leaves the table unchanged. <br>200 exactly when the merge prepares a write, and then only that row changes, per `UpdateRow`. |
| AdminController.EmptyEditKeepsGift | backend/controllers/adminController.js:255-256 | Saving the edit form with nothing filled in writes back a normalised gift's own values, so the table does not change |
| AdminController.EmptyEditIsValid | backend/models/Gift.js:232-265 | A normalised gift's own name, category, description and link pass every validation check, so validation returns no messages |
| AdminController.DeleteGift | backend/controllers/adminController.js:367-401 | A lookup failure is 500, an unknown id is 404, both changing nothing; otherwise the row is deleted and 200 |
| AdminController.ParseStatus | backend/controllers/adminController.js:411-416 | Exactly the strings "available" and "reserved" name a status |
| AdminController.StatusDecision | backend/controllers/adminController.js:406-450 | 400 for an invalid status before the lookup, then 500/404 for the lookup. <br>Reserving needs a string name of at least 3 characters once trimmed (400 otherwise, 500 for a non-string). <br>It records the trimmed name, and none when releasing. |
| AdminController.UpdateGiftStatus | backend/controllers/adminController.js:406-450 | A refusal changes nothing; an accepted change is applied per `SetStatus` and answered with the row afterwards |
| AdminController.NameDecision | backend/controllers/adminController.js:455-509 | 404, then 400 for a gift that is not reserved. <br>A missing or blank name removes it, a short one is refused, a non-string is 500, otherwise the trimmed name (at least 3 characters). |
| AdminController.UpdateReservedBy | backend/controllers/adminController.js:455-509 | A refusal changes nothing; an accepted name is applied per `SetReservedBy` and answered with the row afterwards |
| AdminController.NameChangeKeepsReservation | backend/controllers/adminController.js:478-497 | An accepted name change keeps the gift reserved with its reservation time and sets exactly the decided name |
| App.BuildImageUrl | frontend/js/app.js:17-27 | No image gives "". An absolute `http://`/`https://` URL is kept. Anything else is prefixed with the page's origin. |
| App.UploadedImageIsServedFromOrigin | frontend/js/app.js:21-26 | An uploaded image's stored path is fetched from the page's own origin |
| App.FilterByTerm | frontend/js/app.js:279-287 | Exactly the gifts whose lower-cased name, category or description contains the term, and never more than the input |
| App.FilterAppend | frontend/js/app.js:279-287 | Filtering keeps the original order: the filter of a concatenation is the concatenation of the filters |
| App.FilterCounts | frontend/js/app.js:279-287 | Each matching gift is kept as many times as it occurs, each other gift not at all |
| App.SearchResults | frontend/js/app.js:271-288 | A term blank after lower-casing and trimming shows every gift in order; otherwise exactly the matching gifts |
| App.TotalPages | frontend/js/app.js:346 | `Math.ceil(n / 9)`: zero exactly for no gifts, otherwise the least number of 9-item pages holding them |
| App.PageItems | frontend/js/app.js:347-349 | Page `p` shows `filteredGifts[(p-1)*9 .. min(p*9, len))`, at most 9 gifts, and is non-empty exactly for `p` up to the page count |
| App.ItemOnItsPage | frontend/js/app.js:347-349 | Gift `i` appears on page `i / 9 + 1` at position `i % 9` |
| App.PagesFromRest | frontend/js/app.js:347-349 | The pages from `p` on hold the rest of the list from `(p-1)*9`, in order |
| App.PagesCoverList | frontend/js/app.js:346-349 | Pages 1 to the page count, one after another, are exactly the list: no overlap, no gap |
| App.CountReserved | frontend/js/app.js:563 | The reserved count never exceeds the number of gifts |
| App.CountReservedAppend | frontend/js/app.js:563 | The reserved count of a concatenation is the sum of the two counts |
| App.ReservingOneCountsOne | frontend/js/app.js:533-538 | Marking one available gift reserved raises the reserved count by exactly one |
| App.UpdateMetrics | frontend/js/app.js:561-569 | Total is the list length, reserved the number of reserved gifts, and available + reserved = total |
| App.IndexOfId | frontend/js/app.js:479 | The first index holding that id, or -1 exactly when no gift has it |
| App.ClientCheckMatchesServer | frontend/js/app.js:501-511 | A name the client accepts (at least 3 trimmed characters) passes the server's checks unchanged, cut to 100; a name it refuses the server answers with 400 |
| App.AppState.constructor | frontend/js/app.js:30-38 | The initial state: no gifts, nothing chosen, page 1, empty search |
| App.AppState.FilterGifts | frontend/js/app.js:271-293 | The shown list becomes the search results of the current term and the page goes back to 1 |
| App.AppState.Search | frontend/js/app.js:574-593 | A new search text (or "" on Escape) is stored and the list refiltered from page 1 |
| App.AppState.LoadGifts | frontend/js/app.js:247-266 | A failed fetch keeps everything. <br>Otherwise `gifts` is the fetched list (absent as empty), refiltered, at page 1. |
| App.AppState.VisibleGifts | frontend/js/app.js:345-349 | At most 9 gifts, all from the shown list, and some exactly when the shown list has some |
| App.AppState.PaginationBullets | frontend/js/app.js:365-384 | No bullets for at most one page; otherwise one bullet per page 1..total, exactly the current one active |
| App.AppState.GoToPage | frontend/js/app.js:401-406 | A page outside 1..total is ignored; otherwise it becomes the current page; nothing else changes |
| App.AppState.ChooseGift | frontend/js/app.js:478-491 | An unknown id does nothing and a reserved gift is refused; otherwise the first gift with that id becomes the chosen one |
| App.AppState.ReserveGift | frontend/js/app.js:498-549 | A blank or short trimmed name, or no chosen gift, sends nothing and changes nothing. <br>Otherwise it sends the chosen id with the trimmed name. <br>A refusal becomes an alert. On success only the first gift with that id changes, to reserved under that name at `now`. |

## Left out

- Networking, HTTP routing, CORS, the static file server, logging and the `server.js` bootstrap are not modelled: they are I/O.
- The connection pool and `db.transaction` are not modelled. The reserve transaction is modelled as atomic, and concurrent reservations run in lock-grant order.
- JWT signing and checking (`generateToken`, the auth middleware) are left out. A successful login carries the admin id the token would be signed for.
- bcrypt is a parameter:
  - `hashPassword` and the hash computed inside `setPassword` arrive as a string;
  - `compare` stands for `bcrypt.compare`.
- The multer configuration and the File System calls (`unlinkSync` of rejected uploads and old images) are left out: they change the disk, not the responses. The upload filter's verdict is the `fileValidationError` field.
- How `createGift` and `updateGift` choose among a `data` JSON field, form fields and a JSON body is collapsed into one record of five fields. `JSON.parse` is not modelled.
- `Json` numbers are integers; floating-point request values are not modelled.
- `RowKey` models MySQL matching a string id only for all-digit strings. A string such as "12abc" selects 0 here (no row), where MySQL would select 12. An array or object sent as an id also selects 0 here; how mysql2 binds such a value is not modelled.
- String lengths count code points, not UTF-16 units.
- `ToLower` lower-cases only ASCII and Latin-1 capitals.
- `TrimTypeError` fixes one message for the `TypeError` of calling `trim` on a non-string. Its text never contains "Tipo de arquivo", so it always maps to 500, as in the program.
- `created_at` is assumed to default to the insertion time. The schema file is not part of this model.
- The non-array guard of `getAllGifts` (`Array.isArray`) is not modelled: `findAll` always yields an array.
- A failure of an endpoint's later statement after a write has committed is not modelled. `fault` is the first statement failing, so a failure always leaves the table unchanged.
- Database failures of the admin queries (`findById`, `verifyPassword` and `setPassword` hitting the database) are left out. A comparison error stands for the failure `login` answers with 500.
- `App.AppState.ReserveGift`:
  - The local edit is made on a value, so the aliasing between `gifts`, `filteredGifts` and `currentGift` is not modelled. The page re-renders only after the reload.
  - The reload after success (`loadGifts`) is modelled separately by `LoadGifts`.
  - `reserved_at` is the abstract time `now` rather than an ISO string.
- DOM rendering, HTML templates and `escapeHtml` are left out. So are modals, the admin panel's screens, `localStorage`, `FileReader`, the 300 ms debounce and date formatting.
- The admin panel's front-end handlers (`handleGiftFormSubmit`, `handleDeleteGift` and the rest) only call the endpoints modelled above, so they are left out.
- `App.IndexOfId`: `giftId` comes from `parseInt` of a DOM attribute; a `NaN` id is not modelled.
