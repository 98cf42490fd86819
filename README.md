# The Wild Oasis admin: reservation pricing, cabin validation and reservation queries

A Dafny model of the three pieces of decision logic in the Wild Oasis
back-office (a Next.js application over a relational store):

- **Seeding** (`seeding.dfy`, from `app/_utils/serverHelpers.ts`):
  `createReservations` turns the bundled dummy reservations into records for
  the store. Each seed is priced against the dummy cabin it names
  (`cabinPrice = nights * (regularPrice - discount)`, breakfast at 15 per
  guest per night, `totalPrice = cabinPrice + extrasPrice`), assigned a cabin
  id and a guest id round-robin by its position, and given a status from its
  dates and today. A seed whose cabin lookup fails is dropped. An unusable id
  throws, and the catch turns the whole batch into `[]`.
- **Cabin schemas** (`cabin_schemas.dfy`, from `app/_schemas/cabinSchemas.ts`):
  the shared `superValidate` refinement reports `discount` when the discount
  is not below the regular price. `CreateCabinSchema`, `CreateCabinsSchema`
  and `UpdateCabinSchema` each apply it, beside their own image and id rules.
- **Reservation actions** (`reservation_query.dfy`, `reservation_store.dfy`,
  from `app/_lib/reservationActions.ts`):
  - `getReservations` is an in-memory query: filter by column equality, take
    the page window, and return it with the pre-pagination count. Any
    rejected query yields `{[], 0}`.
  - The `getStaysTodayActivity` selection keeps a guest's unconfirmed
    arrivals and checked-in departures of today, oldest booking first.
  - `updateCheckout`, `updateCheckin` and `deleteReservation` are methods of a
    `Store` class whose `rows` map holds the table.

Shared shapes (status, role, stored row) are in `records.dfy`; `wrappers.dfy`
holds `Option`.

Modelling conventions:
- Dates are whole day numbers, and `today` is a parameter instead of the clock.
- `numNights` is `endDate - startDate`.
- `dummyCabins.at(cabinId - 1)` follows `Array.prototype.at`: a negative index
  counts from the end. So a seed with cabin id 0 is priced against the last
  cabin instead of being dropped (`ZeroCabinIdPicksLastCabin`).
- An id list that could not be fetched (`undefined`) behaves exactly like an
  empty one: `?.at` and `.at(NaN)` both give `undefined`, which throws. So
  both are passed as an empty sequence. A zero id is falsy and throws too.
- The status code assigns `unconfirmed`, then overwrites it with
  `checked-out`, then with `checked-in`. The two guards are disjoint, so the
  order of the overwrites does not matter (`DeriveStatus`).

## Model

| member | source | states |
|---|---|---|
| `Seeding.DeriveStatus` | app/_utils/serverHelpers.ts:74-86 | status is `checked-out` iff the stay ended before today, `checked-in` iff it started before today and ends today or later, `unconfirmed` iff it starts and ends today or later; the three are exclusive |
| `Seeding.StatusExamples` | app/_utils/serverHelpers.ts:74-86 | ended before today gives checked-out, spanning today gives checked-in, starting after today gives unconfirmed |
| `Seeding.LookupFindsCabin` | app/_utils/serverHelpers.ts:54-60 | the cabin lookup succeeds exactly when `cabinId - 1` is an `at` index of the seed cabins, and finds that cabin |
| `Seeding.ZeroCabinIdPicksLastCabin` | app/_utils/serverHelpers.ts:54 | cabin id 0 looks up the last seed cabin |
| `Seeding.At` | app/_utils/serverHelpers.ts:54 | `at(i)` is defined exactly for `-len <= i < len` and returns the element at `i` taken modulo the length |
| `Seeding.RoundRobin` | app/_utils/serverHelpers.ts:69-70 | the id is defined exactly when the list is non-empty, and is `ids[index % len]` |
| `Seeding.EnrichSeed` | app/_utils/serverHelpers.ts:53-98 | the callback returns null iff the cabin lookup fails, throws iff the cabin is found but an id is missing or zero, and otherwise returns the seed with copied fields, the three prices, the round-robin ids and the derived status |
| `Seeding.EnrichSeedOutcome` | app/_utils/serverHelpers.ts:53-97 | the per-seed callback returns null iff the cabin is not found, throws iff it is found but a round-robin id is missing or zero, and otherwise returns the seed priced, assigned and given its status with every other field copied |
| `Seeding.Rows` | app/_utils/serverHelpers.ts:99 | the null filter returns no more records than outcomes, and none when no outcome is a record |
| `Seeding.RowsAppend` | app/_utils/serverHelpers.ts:52-99 | the null filter distributes over concatenation, so the records keep seed order and each outcome contributes exactly its own record |
| `Seeding.RowsSound` | app/_utils/serverHelpers.ts:99 | every record after the null filter is one of the mapped records |
| `Seeding.RowsComplete` | app/_utils/serverHelpers.ts:99 | every mapped record survives the null filter |
| `Seeding.RowsCount` | app/_utils/serverHelpers.ts:99 | the filtered list is exactly as long as the number of non-null outcomes |
| `Seeding.CreateReservations` | app/_utils/serverHelpers.ts:42-105 | the output is never longer than the seed list |
| `Seeding.CreateReservationsSound` | app/_utils/serverHelpers.ts:52-99 | every output record describes some seed k: found cabin, `cabinPrice = nights * (regularPrice - discount)`, `extrasPrice = nights * 15 * guests` with breakfast else 0, `totalPrice = cabinPrice + extrasPrice`, ids `cabinIds[k % n]` and `userIds[k % m]`, derived status, other fields copied |
| `Seeding.CreateReservationsComplete` | app/_utils/serverHelpers.ts:52-99 | when every found seed gets non-zero round-robin ids, every seed whose cabin is found has its enriched record in the output |
| `Seeding.UnusableIdYieldsNothing` | app/_utils/serverHelpers.ts:69-104 | when some found seed gets a missing or zero id, the call throws and returns `[]` |
| `Seeding.EmptyIdListYieldsNothing` | app/_utils/serverHelpers.ts:69-104 | with no cabin ids or no guest ids the call returns `[]` |
| `Seeding.CreateReservationsCount` | app/_utils/serverHelpers.ts:52-99 | with usable ids the output has one record per seed whose cabin is found |
| `CabinSchemas.SuperValidate` | app/_schemas/cabinSchemas.ts:10-21 | an issue is added iff `discount >= regularPrice`, on path `["discount"]` with message "Discount should be less than regular price" |
| `CabinSchemas.CreateCabinIssues` | app/_schemas/cabinSchemas.ts:23-37 | "Image is required" is reported iff the image is empty, the discount issue iff the discount is not below the price; no issue iff neither, and exactly one issue per failed rule |
| `CabinSchemas.CreateCabinsIssues` | app/_schemas/cabinSchemas.ts:39-46 | the bulk schema reports only the discount issue, iff the discount is not below the price |
| `CabinSchemas.UpdateCabinIssues` | app/_schemas/cabinSchemas.ts:48-56 | a missing cabin id is reported as required; with an id, any image or none passes and the only issue is the discount one |
| `CabinSchemas.SchemasShareDiscountRule` | app/_schemas/cabinSchemas.ts:37-56 | with a valid image and an id, the three schemas report the same issues, and those are the discount issue iff `discount >= regularPrice` |
| `CabinSchemas.EqualDiscountRefused` | app/_schemas/cabinSchemas.ts:14-19 | price 100 with discount 100 is refused on `discount` |
| `ReservationQuery.BuildPlan` | app/_lib/reservationActions.ts:191-198 | `where` is the filter; `take` is the page size; `skip` is `(page - 1) * PAGE_SIZE` from page 1 on, 0 for page 0, negative for a negative page |
| `ReservationQuery.Matches` | app/_lib/reservationActions.ts:191-194 | an empty `where` holds of every row; `status = s` holds exactly of rows with status s; `observations = v` exactly of rows with that text |
| `ReservationQuery.Window` | app/_lib/reservationActions.ts:197-211 | the window holds `take` rows, or what is left after `skip`, and its i-th row is row `skip + i` |
| `ReservationQuery.Select` | app/_lib/reservationActions.ts:191-194 | a row is selected iff it is in the table and matches the filter; never more rows than the table |
| `ReservationQuery.GetReservations` | app/_lib/reservationActions.ts:185-232 | a rejected query yields an empty page and count 0; a page holds at most `PAGE_SIZE` rows, each in the table and matching the filter |
| `ReservationQuery.GetReservationsPage` | app/_lib/reservationActions.ts:197-211 | for page p from 1, the page is the matching rows from `(p-1)*PAGE_SIZE`, at most `PAGE_SIZE` of them, and the count is the number of matching rows |
| `ReservationQuery.PageZeroIsPageOne` | app/_lib/reservationActions.ts:197 | page 0, being falsy, gives `skip = 0`: the same result as page 1, the first `PAGE_SIZE` matching rows |
| `ReservationQuery.CountIndependentOfPage` | app/_lib/reservationActions.ts:204-227 | the count is the same for any two pages the store accepts (page ≥ 0) |
| `ReservationQuery.NegativePageCountsZero` | app/_lib/reservationActions.ts:204-227 | a negative page gives a negative skip, which the store rejects: empty page and count 0 |
| `ReservationQuery.NoFilterSelectsAll` | app/_lib/reservationActions.ts:191-194 | a null filter selects every row, in order |
| `ReservationQuery.SelectAppend` | app/_lib/reservationActions.ts:201-211 | filtering keeps the store's order: it distributes over concatenation |
| `ReservationQuery.PagesTile` | app/_lib/reservationActions.ts:197-211 | the first n pages together are the first `n * PAGE_SIZE` matching rows, or all of them once the last, partial page is included |
| `ReservationQuery.ThirdPageOfTwentyFive` | app/_lib/reservationActions.ts:197-227 | with 25 matching rows, page 3 holds rows 21 to 25 and the count is 25 |
| `ReservationQuery.IsTodayActivity` | app/_lib/reservationActions.ts:93-107 | a selected row belongs to a guest, is never checked out, and is either an unconfirmed arrival starting today or a checked-in departure ending today |
| `ReservationQuery.ActivityRows` | app/_lib/reservationActions.ts:92-107 | a row is selected iff it belongs to a guest and is unconfirmed starting today or checked in ending today; each selected row appears exactly as often as in the table |
| `ReservationQuery.InsertByCreation` | app/_lib/reservationActions.ts:108-110 | insertion adds exactly the one row |
| `ReservationQuery.InsertKeepsOrder` | app/_lib/reservationActions.ts:108-110 | inserting into rows ordered by `createdAt` keeps them ordered |
| `ReservationQuery.SortByCreation` | app/_lib/reservationActions.ts:108-110 | the result is ordered by `createdAt` ascending and is a permutation of the input |
| `ReservationQuery.StaysTodayActivity` | app/_lib/reservationActions.ts:90-127 | exactly the activity rows of the table, each as often as it is stored, ordered by `createdAt` ascending |
| `ReservationQuery.ActivityExcludes` | app/_lib/reservationActions.ts:94-107 | checked-out stays and admins' stays are never today's activity |
| `ReservationStore.Store.UpdateCheckout` | app/_lib/reservationActions.ts:129-145 | an existing row gets status `checked-out` and nothing else in the table changes; a missing id returns "There was an error while checking out" and changes nothing |
| `ReservationStore.Store.UpdateCheckin` | app/_lib/reservationActions.ts:147-171 | an existing row gets status `checked-in` and each supplied breakfast, extras and total value, other columns and rows unchanged; a missing id returns "There was an error while checking in" |
| `ReservationStore.Store.DeleteReservation` | app/_lib/reservationActions.ts:18-30 | exactly the row with that id is removed; a missing id leaves the table as it was |
| `ReservationStore.Store.Get` | app/_lib/reservationActions.ts:234-260 | the stored row with that id, present iff the id is in the table |

## Left out

- Data access: the ORM calls become the `Store` map and sequences of rows. Cabins and guest ids fetched for seeding become parameters. `app/_lib/cabinActions.ts`, `app/_lib/db.ts` and `app/_utils/helpers.ts` are not part of this model.
- Time: `subtractDates`, `getToday` and the date-fns wall-clock tests are not modelled. Dates are whole days and `today` is a parameter. Time-of-day and time-zone effects of `new Date(string)` are not captured.
- `PAGE_SIZE` comes from `app/_utils/constants.ts`, which is not part of this model; the model uses 10. Every property is stated in terms of the constant, except the worked example `ThirdPageOfTwentyFive`, which assumes a page size of 10.
- Sorting in `getReservations`: the `orderBy` built from `sortBy` is not modelled. The table is passed already in the order the store gives for it.
- Relation includes: the cabin name and user name/email attached to each listed row are not modelled.
- Page numbers are integers; a NaN page (treated as 0 by the source) and fractional pages are not modelled.
- Numbers: prices, discounts and ids are unbounded integers, not JavaScript floating-point numbers.
- `ReservationQuery.GetReservations`: only `status` and `observations` are filterable. A filter on any other field is modelled as rejected by the store. For unknown columns and for numeric or boolean columns given a string value, Prisma does reject the query. Date columns (`startDate`, `endDate`, `createdAt`) accept an ISO-8601 string in the source and can match rows; they are not filterable in the model because dates are day numbers there, so such a filter returns the empty page and count 0 here.
- `ReservationStore.Store.UpdateCheckout`, `ReservationStore.Store.UpdateCheckin`: only the missing-row failure is modelled. Connection failures, which return the same error, are not.
- `GetReservations` models an unreachable store as `None`. Other store faults behave the same way and are not told apart.
- Status column: stored as one of the three statuses. A null status is not modelled.
- Lifecycle order: check-out and check-in do not test the current status. A checked-out reservation can be checked in again, so "never transitions backward" is not a property of these actions. The detail page offers Check out only for a checked-in reservation. No file of this model guards check-in; the page that calls `updateCheckin` is not part of this model.
- Cabin schemas: the field shapes reused from `app/_schemas/databaseSchemas.ts` and `app/_schemas/index.ts` are not part of this model. A form already carries well-typed values, so only this file's own image, id and discount rules are modelled.
- `deleteReservations`, `createDummyReservations`, `getReservationsAfterDate`, `getStaysAfterDate` are plain single-call store operations without decision logic.
- `revalidatePath`, `console.error`, authentication (`isAuthenticated`, `app/_lib/authActions.ts`), settings and all UI components are side effects or foreign calls.
