# Bloqs, lockers and rents: a verified model of the in-memory store

The service keeps three ordered, process-wide arrays: bloqs (sites), lockers
(each names its bloq by `bloqId`) and rents (each names its locker by
`lockerId`). Three controllers expose the same resource operations over them:
a paginated `list`, `getById`, `save`, a partial `update` and `delete`.
`src/db/dbManager.ts` loads the arrays from snapshot files. Then it wraps
each array's mutating methods. After that, a snapshot is rewritten by every
`push` whose first argument is a model instance, and by every `splice` after
which the array's first element is one.

The model is split into these modules:

- `Js` (`js.dfy`): the JavaScript semantics the code relies on, stated on
  sequences. This covers `undefined` as `None`, truthiness, the exact
  `slice` and `splice` (negative positions included), `find`,
  `map(...).indexOf`, `includes`, and a `TypeError` completion.
- `Models` (`models.dfy`): the Bloq, Locker and Rent records, the `Rent`
  constructor with its conditional timestamps, and the two status guards.
- `Http` and `Pagination` (`pagination.dfy`): the response kinds, a parsed
  query parameter (`Absent | NaN | Num`), and the `list` algorithm that the
  three controllers share.
- `DbManager` (`db_manager.dfy`):
  - the `Store` class holds the three collections as `seq` fields and a
    `listening` flag that says whether the hook has been attached;
  - a ghost log `writes` records the snapshot rewrites;
  - the wrapped `push`/`splice` methods, the `populate*` loops and
    `initDb`/`initTestDb` are methods of `Store`;
  - the hook's decision is the pure function `WriteTargets`.
- `BloqsController`, `LockersController` and `RentsController`: one module
  per controller.
  - Pure helpers (`findById`, `getIndexById`, the filters) and `list` and
    `getById` are functions.
  - `save`, `update` and `delete` are methods on the `Store`.

An `update` assigns fields on the record that `find` returned, and then calls
`splice(idx, 1, record)`. The model follows those same two steps:
`Mutate*At` writes the patched record in place, which the hook does not see.
The wrapped splice follows. So the response (the element splice removed) is
the updated record, as it is in JavaScript.

## Model

| member | source | states |
|---|---|---|
| Js.MapSeq | src/controllers/bloqs.controller.ts:151-153 | `map(key)` has one entry per element, in the same order, and entry k is the key of element k. |
| Js.Includes | src/controllers/bloqs.controller.ts:158 | `includes` is true exactly when the text occurs as a contiguous run at some position of the string. |
| Js.IsAtTail | src/controllers/bloqs.controller.ts:158 | The text occurs in a non-empty string exactly when it starts at position 0 or occurs in the rest of the string. |
| Js.Slice | src/controllers/bloqs.controller.ts:28 | `slice(start, end)` is the run between the resolved start and end. A negative position counts back from the end, and positions are clamped to the array. |
| Js.Splice | src/db/dbManager.ts:57 | `splice` returns the removed run and the array afterwards. Together they hold exactly the old elements plus the inserted ones, and the lengths add up. |
| Js.SpliceReplacesAt | src/controllers/bloqs.controller.ts:116 | `splice(i, 1, x)` at an in-range index returns `[old element]` and leaves the array with x at i and every other element unchanged. |
| Js.SpliceRemovesAt | src/controllers/bloqs.controller.ts:135-137 | `splice(i, 1)` at an in-range index returns `[old element]` and closes the gap, keeping the others in order. |
| Js.IndexOf | src/controllers/bloqs.controller.ts:150-154 | `indexOf` is -1 exactly when the value is absent. Otherwise it is a position holding the value with no earlier occurrence. |
| Js.Find | src/controllers/bloqs.controller.ts:144-148 | `find` is undefined exactly when no element has the key. Otherwise it returns an element of the array with that key. |
| Js.FindIsFirstMatch | src/controllers/bloqs.controller.ts:144-154 | `find` returns the element at the first position whose key matches, which is the position `map(key).indexOf` reports. So `findById` is defined exactly when `getIndexById` >= 0, and then it returns the element at that index. |
| Js.CutAtFirstMatch | src/controllers/bloqs.controller.ts:134-137 | Cutting at the first position whose key matches equals the reference definition "remove the first element with that key". |
| Js.RemoveFirstOfUniqueIsGone | src/controllers/rents.controller.ts:114-119 | When at most one element carries the key, no element carries it after the first one is removed. |
| Models.NewRent | src/models/rent.ts:25-40 | `id`, `lockerId`, `weight`, `size` and `status` are stored as passed, with no validation and no failure. Each of `createdAt`, `droppedAt` and `pickedUpAt` is present exactly when the argument is truthy, and then equals it. |
| Models.RentStatusKey | src/controllers/rents.controller.ts:82 | `status in RentStatus` accepts exactly the four key names. An accepted name gives the status of that name. |
| Models.LockerStatusValue | src/controllers/lockers.controller.ts:75 | The locker status guard accepts exactly "OPEN" and "CLOSED". An accepted value gives the status of that name. |
| Models.StatusNamesRoundTrip | src/controllers/rents.controller.ts:82 | Every rent status and every locker status passes its guard under its own name and comes back as itself. |
| Pagination.PageValue | src/controllers/bloqs.controller.ts:10-15 | `page` is NaN only when the parameter parses to NaN. An absent parameter gives 1, 0 becomes 1, and any other number is kept. The page is never 0. |
| Pagination.PerPageValue | src/controllers/bloqs.controller.ts:11-20 | `per_page` is NaN only when the parameter parses to NaN. An absent parameter gives 10, and any number, 0 and negatives included, is kept. |
| Pagination.Skip | src/controllers/bloqs.controller.ts:26 | For page >= 1 and per_page >= 0, the number of skipped items is non-negative. |
| Pagination.Window | src/controllers/bloqs.controller.ts:28 | `slice(skip).slice(0, per_page)` is always a contiguous run of the collection. For a non-negative skip and per_page it is the run from skip up to skip + per_page, clamped to the collection. |
| Pagination.List | src/controllers/bloqs.controller.ts:9-36 | Absent parameters default to page 1 and 10 per page, and page 0 becomes 1. The result is Bad Request exactly when a parameter is NaN, and never Not Found. Otherwise total is the collection size and data is the window at (page-1)*per_page. |
| Pagination.WindowLength | src/controllers/bloqs.controller.ts:26-33 | For page >= 1 and per_page >= 0, the page holds min(per_page, max(0, total - (page-1)*per_page)) items. |
| Pagination.ListOfValidPage | src/controllers/bloqs.controller.ts:21-35 | For page >= 1 and per_page >= 0 the response is OK with those values, the collection size, and the window that skips (page-1)*per_page items. |
| Pagination.WindowItem | src/controllers/bloqs.controller.ts:28 | Item j < per_page of the window at skip is item skip + j of the collection, whenever that exists. |
| Pagination.ItemOnItsPage | src/controllers/bloqs.controller.ts:26-33 | With per_page >= 1, item k of the collection is item k % per_page of page k / per_page + 1, so pagination loses nothing. |
| DbManager.WriteTargets | src/db/dbManager.ts:58-75 | Only a Bloq/Locker/Rent first argument, or a splice that leaves a model instance first, triggers a rewrite. Push/unshift of an instance rewrites that class's snapshot. A splice with a number first rewrites the snapshot of the array's new first element, or nothing once the array is empty. A call with no instance argument that is not a splice writes nothing. |
| DbManager.Store.Hook | src/db/dbManager.ts:56-75 | Before the hook is attached, no call rewrites anything. Once it is, push/unshift of an instance rewrites that class's snapshot, a splice with a number first rewrites the snapshot of the new first element (or nothing), and other calls without an instance argument write nothing. |
| DbManager.ReorderingNeverWrites | src/db/dbManager.ts:55-75 | pop, shift, reverse and sort never rewrite a snapshot. |
| DbManager.LoadRent | src/db/dbManager.ts:16 | A loaded rent keeps its five required fields and never carries a timestamp. |
| DbManager.LoadRents | src/db/dbManager.ts:15-17 | Loading maps each snapshot rent through that rule, one for one, in file order. |
| DbManager.Store.constructor | src/db/dbManager.ts:9-11 | All three collections start empty, with no hook and no writes. |
| DbManager.Store.Listen | src/db/dbManager.ts:53-56 | Attaching the hook changes no collection and writes nothing. |
| DbManager.Store.PushBloqs | src/db/dbManager.ts:56-66 | The wrapped push appends the items, returns the new length and leaves the other collections alone. It logs the rewrites of the hook rule. |
| DbManager.Store.PushLockers | src/db/dbManager.ts:56-66 | As PushBloqs, for lockerCollection. |
| DbManager.Store.PushRents | src/db/dbManager.ts:56-66 | As PushBloqs, for rentCollection. |
| DbManager.Store.SpliceBloqs | src/db/dbManager.ts:56-76 | The wrapped splice makes the same change and returns the same value as plain `splice`. It logs a rewrite chosen by the new first element. |
| DbManager.Store.SpliceLockers | src/db/dbManager.ts:56-76 | As SpliceBloqs, for lockerCollection. |
| DbManager.Store.SpliceRents | src/db/dbManager.ts:56-76 | As SpliceBloqs, for rentCollection. |
| DbManager.Store.MutateBloqAt | src/controllers/bloqs.controller.ts:107-112 | Assigning a field of a found bloq changes that one record only, and writes nothing. |
| DbManager.Store.MutateLockerAt | src/controllers/lockers.controller.ts:75-80 | As MutateBloqAt, for a locker. |
| DbManager.Store.MutateRentAt | src/controllers/rents.controller.ts:73-93 | As MutateBloqAt, for a rent. |
| DbManager.Store.PopulateBloqs | src/db/dbManager.ts:20-25 | The snapshot's bloqs are appended after the existing contents, in file order. Each push is logged only while the hook is attached. |
| DbManager.Store.PopulateLockers | src/db/dbManager.ts:27-32 | The same rule for lockers. |
| DbManager.Store.PopulateRents | src/db/dbManager.ts:13-18 | The same rule for rents, each loaded without timestamps. |
| DbManager.Store.InitTestDb | src/db/dbManager.ts:44-48 | Bloqs, then lockers, then rents are appended without clearing, and no hook is attached. The log grows by one bloqs-file write per bloq, then one lockers-file write per locker, then one rents-file write per rent if a hook was already attached, and by nothing otherwise. |
| DbManager.Store.InitDb | src/db/dbManager.ts:34-42 | The same loading, with the same log rule, happens before the hook is attached. So on a fresh store loading writes nothing. Afterwards the hook is attached. |
| BloqsController.GetIndexById | src/controllers/bloqs.controller.ts:150-154 | The result is -1 exactly when no bloq has the id. Otherwise it is the position of the first bloq with it. |
| BloqsController.FindById | src/controllers/bloqs.controller.ts:144-148 | `findById` is defined exactly when `getIndexById` >= 0, and it returns the bloq at that index. |
| BloqsController.FindByTitle | src/controllers/bloqs.controller.ts:156-160 | The search throws exactly when some bloq has no title. Otherwise it returns exactly the bloqs whose title contains the text. |
| BloqsController.FindByTitleSkippingUntitledAppend | src/controllers/bloqs.controller.ts:156-160 | The corrected search distributes over concatenation, so matches come back in collection order, each as often as it is stored. |
| BloqsController.FindByTitleSkippingUntitledKeepsAll | src/controllers/bloqs.controller.ts:156-160 | Bloqs whose titles all contain the text are returned in full and in collection order. |
| BloqsController.UntitledBloqBreaksFindByTitle | src/controllers/bloqs.controller.ts:156-160 | One untitled bloq anywhere makes the title search throw. |
| BloqsController.FindByTitleSkippingUntitled | src/controllers/bloqs.controller.ts:156-160 | The corrected search never throws. It returns exactly the titled bloqs whose title contains the text. |
| BloqsController.SkippingAgreesWhenAllTitled | src/controllers/bloqs.controller.ts:156-160 | Wherever the original search returns, the corrected one returns the same sequence. |
| BloqsController.List | src/controllers/bloqs.controller.ts:9-36 | Bad Request exactly on a NaN parameter. Otherwise total is the bloq count and data is a window of bloqCollection. |
| BloqsController.GetById | src/controllers/bloqs.controller.ts:38-63 | Not Found exactly when no bloq has the id. Otherwise the result is the first bloq with the id, the one at `getIndexById`, which `update` and `delete` also act on. Lockers are embedded exactly when the `lockers` query value is a non-empty string (even "false"), and they are then exactly `findByBloqId` of the stored lockers: those naming this bloq, in collection order. |
| BloqsController.NewLockersBelongToBloq | src/controllers/bloqs.controller.ts:75-80 | One locker is built per request entry, in order. Each carries the new bloq's id and its entry's status and isOccupied. |
| BloqsController.BuildLockers | src/controllers/bloqs.controller.ts:75-80 | The `forEach` loop builds exactly those lockers. |
| BloqsController.SavedLockersAreTheNewOnes | src/controllers/bloqs.controller.ts:83-90 | When no stored locker already names the new id, the response's lockers are exactly the lockers just created, in request order. |
| BloqsController.Save | src/controllers/bloqs.controller.ts:65-95 | One bloq with the fresh id is appended, then the built lockers. The response embeds the stored lockers that name the new id. The log gets the bloq push's rewrite, and the lockers push's rewrite only if there is at least one locker. |
| BloqsController.Patch | src/controllers/bloqs.controller.ts:107-112 | The id never changes. address and title take the supplied value exactly when it is a non-empty string, and keep the old value otherwise. |
| BloqsController.PatchWithoutFieldsIsIdentity | src/controllers/bloqs.controller.ts:107-112 | An update without a non-empty title or address leaves the bloq unchanged. |
| BloqsController.PatchIdempotent | src/controllers/bloqs.controller.ts:107-112 | Applying the same update twice gives the same record as applying it once. |
| BloqsController.AssignFields | src/controllers/bloqs.controller.ts:107-112 | Only the found bloq changes. Address and title take a non-empty supplied value, and the id never changes. |
| BloqsController.Update | src/controllers/bloqs.controller.ts:97-121 | An unknown id gives Not Found and changes nothing. Otherwise the bloq is patched at its own index, the length and the other bloqs are unchanged, and the response is `[updated bloq]`. Lockers and rents are untouched. |
| BloqsController.Delete | src/controllers/bloqs.controller.ts:123-142 | An unknown id gives Not Found and changes nothing. Otherwise exactly the first bloq with the id is removed and the rest keep their order. lockerCollection is unchanged: nothing cascades. |
| LockersController.GetIndexById | src/controllers/lockers.controller.ts:118-122 | The result is -1 exactly when no locker has the id. Otherwise it is the position of the first locker with it. |
| LockersController.FindById | src/controllers/lockers.controller.ts:112-116 | Defined exactly when `getIndexById` >= 0, and it returns the locker at that index. |
| LockersController.FindByBloqId | src/controllers/lockers.controller.ts:124-128 | Returns exactly the lockers whose bloqId is the argument. |
| LockersController.FindByBloqIdAppend | src/controllers/lockers.controller.ts:124-128 | The filter distributes over concatenation, so collection order is kept. |
| LockersController.FindByBloqIdKeepsAll | src/controllers/lockers.controller.ts:124-128 | Lockers that all name the bloq are kept in full and in order. |
| LockersController.List | src/controllers/lockers.controller.ts:8-35 | Bad Request exactly on a NaN parameter. Otherwise total is the locker count and data is a window of lockerCollection. |
| LockersController.GetById | src/controllers/lockers.controller.ts:37-48 | Not Found exactly when no locker has the id. Otherwise the result is the first locker with the id, the one at `getIndexById`, which `update` and `delete` also act on. |
| LockersController.Save | src/controllers/lockers.controller.ts:50-61 | One locker with the fresh id and the body's bloqId, status and isOccupied is appended. The response is that new last element. |
| LockersController.Patch | src/controllers/lockers.controller.ts:65-80 | id and bloqId never change, even when supplied. The status changes only to a value that passes the OPEN/CLOSED guard. isOccupied changes only to true. With PatchTakesStatusAndOccupancy this is an exact rule. |
| LockersController.PatchTakesStatusAndOccupancy | src/controllers/lockers.controller.ts:75-80 | A supplied "OPEN" or "CLOSED" is always taken, as the status of that name, and a supplied true always sets isOccupied to true. |
| LockersController.PatchNeverClearsOccupancy | src/controllers/lockers.controller.ts:78-80 | A supplied false, like an absent value, leaves isOccupied as it was. |
| LockersController.PatchIgnoresUnknownStatus | src/controllers/lockers.controller.ts:75-77 | Any status other than OPEN or CLOSED is ignored. |
| LockersController.PatchIdempotent | src/controllers/lockers.controller.ts:75-80 | Applying the same update twice gives the same record as applying it once. |
| LockersController.AssignFields | src/controllers/lockers.controller.ts:75-80 | Only the found locker changes, and it becomes its patched record. |
| LockersController.Update | src/controllers/lockers.controller.ts:63-89 | An unknown id gives Not Found and changes nothing. Otherwise the locker is patched at its own index and the response is `[updated locker]`. Bloqs and rents are untouched. |
| LockersController.Delete | src/controllers/lockers.controller.ts:91-110 | An unknown id gives Not Found and changes nothing. Otherwise exactly the first locker with the id is removed and the rest keep their order. rentCollection is unchanged. |
| RentsController.GetIndexById | src/controllers/rents.controller.ts:131-135 | The result is -1 exactly when no rent has the id. Otherwise it is the position of the first rent with it. |
| RentsController.FindById | src/controllers/rents.controller.ts:125-129 | Defined exactly when `getIndexById` >= 0, and it returns the rent at that index. |
| RentsController.FindByLockerId | src/controllers/rents.controller.ts:137-141 | Returns exactly the rents whose lockerId is the argument. |
| RentsController.FindByLockerIdAppend | src/controllers/rents.controller.ts:137-141 | The filter distributes over concatenation, so collection order is kept. |
| RentsController.List | src/controllers/rents.controller.ts:8-35 | Bad Request exactly on a NaN parameter. Otherwise total is the rent count and data is a window of rentCollection. |
| RentsController.GetById | src/controllers/rents.controller.ts:37-48 | Not Found exactly when no rent has the id. Otherwise the result is the first rent with the id, the one at `getIndexById`, which `update` and `delete` also act on. |
| RentsController.Save | src/controllers/rents.controller.ts:50-61 | One rent with the fresh id and the body's four fields is appended, with no default status and no timestamp. The response is that new last element. |
| RentsController.RequestedStatus | src/controllers/rents.controller.ts:82-84 | An update body sets a status exactly when it supplies one of the four RentStatus key names, and then it sets the status of that name. |
| RentsController.Patch | src/controllers/rents.controller.ts:73-94 | The id never changes. lockerId, weight and the three timestamps change only to a truthy supplied value, size only to a supplied one, and status only to a RentStatus key. With PatchTakesTruthy and PatchStatusRule this is an exact rule. |
| RentsController.PatchTakesTruthy | src/controllers/rents.controller.ts:73-93 | A truthy lockerId, weight or timestamp, and any supplied size, is always written. |
| RentsController.PatchKeepsOnFalsy | src/controllers/rents.controller.ts:73-93 | A weight of 0, an empty lockerId or a zero timestamp keeps the old value. |
| RentsController.PatchStatusRule | src/controllers/rents.controller.ts:82-84 | A status that is a RentStatus key is always taken, as the status of that name. Any other value is silently ignored. |
| RentsController.PatchIdempotent | src/controllers/rents.controller.ts:73-93 | Applying the same update twice gives the same record as applying it once. |
| RentsController.AssignFields | src/controllers/rents.controller.ts:73-93 | Only the found rent changes, and it becomes its patched record. |
| RentsController.Update | src/controllers/rents.controller.ts:63-102 | An unknown id gives Not Found and changes nothing. Otherwise the rent is patched at its own index and the response is `[updated rent]`. lockerCollection is never touched, so no occupancy changes. |
| RentsController.Delete | src/controllers/rents.controller.ts:104-123 | An unknown id gives Not Found and changes nothing. Otherwise exactly the first rent with the id is removed and the rest keep their order. Lockers are untouched. |
| RentsController.DeletedUniqueRentIsGone | src/controllers/rents.controller.ts:114-119 | With unique ids, a deleted rent can no longer be found. |

## Left out

- Reading the snapshot files and `JSON.parse` are outside the model: a snapshot is an input sequence of records. `fs.writeFileSync` is also outside it: each rewrite is an entry of the ghost log `writes`, naming the file; the written contents (the whole collection) are not recorded.
- A failing snapshot write is caught and only logged (src/db/dbManager.ts:81-88). It cannot undo or alter the in-memory change, so it has no place in the model.
- `randomUUID()` is a parameter:
  - locker and rent `save` take the fresh id;
  - bloq `save` takes `uuid`, where `uuid(0)` is the bloq's id and `uuid(k + 1)` is the id of its k-th locker.
- `parseInt` of the query strings is abstracted to `Absent | NaN | Num(n)`: a falsy parameter (missing or empty) is `Absent`.
- The handlers are `async` but never await, so they are modelled as sequential calls.
- Express routing, the response status codes as numbers, the bodies of Not Found responses ("unregistered bloq", ...) and the Internal Server Error path are left out. No operation in the model can throw inside those `try` blocks.
- Numbers are integers. JSON bodies carry no NaN, and fractional weights are not modelled.
- Dates are integer timestamps. The stored `Rent` constructor is only ever called without timestamps (src/controllers/rents.controller.ts:53, src/db/dbManager.ts:16), so a Date object always being truthy plays no part.
- The enumeration types are assumed to be string enums whose values equal their keys. The enum source files are not part of this model.
- Request bodies hold well-typed values.
  - `status` of a save body is a `LockerStatus`/`RentStatus` or undefined, and `size` is a `RentSize` or undefined. Other JSON values, which the code would store unchecked, are not represented.
  - An `isOccupied` that is a non-boolean truthy value is not represented.
  - A `lockers` field that is not an array is not represented.
- RentsController.Patch: JavaScript's `status in RentStatus` is also true for names inherited from Object.prototype (for example "toString"). The model accepts only the four key names.
- LockersController.Patch: the loose `==` comparison in the status guard also matches non-string values that convert to "OPEN" or "CLOSED" (such as `["OPEN"]`). The model only covers string statuses.
- One `listening` flag covers the three arrays, because `initDb` attaches the hook to all three together.
- The rent lifecycle described for the system is not implemented by the controllers, and the model follows the code, which has none of it:
  - status transitions CREATED → WAITING_DROPOFF → WAITING_PICKUP → DELIVERED;
  - stamping of droppedAt and pickedUpAt;
  - updating a locker's occupancy when a rent changes;
  - rejecting a second rent for an occupied locker;
  - a default CREATED status.
- Embedding a locker's rents in the locker `getById` response is not implemented by the code (src/controllers/lockers.controller.ts:37-48), so it is not modelled.
- The repository's test files and the `destroyTestDb`/`testPopulate*` helpers they import are not part of this model.

## Findings

| source | as written | input that shows it | evidently intended | confidence | as-written member | corrected member |
|---|---|---|---|---|---|---|
| src/controllers/bloqs.controller.ts:156-160 | `findByTitle` calls `bloq.title.includes(title)` on every bloq | a bloq saved with a body that has no `title` (save does not check it), then any title search | bloqs without a title are not matches | medium, not executed | BloqsController.UntitledBloqBreaksFindByTitle | BloqsController.FindByTitleSkippingUntitled |
