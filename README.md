# the-cage: reservation admission and lifecycle, modelled in Dafny

the-cage is the equipment-checkout web application of the SIUE media lab.
Students reserve equipment in fixed four-hour blocks. Staff check the
equipment out to them and back in, mirroring each hand-over in the
Snipe-IT asset tracker. The application keeps its own reservation table,
which it calls the shadow ledger.

This project models the logic that decides those outcomes:

- the block calendar (which blocks may start on which weekday) and the
  older admission check of `src/lib/reservation-logic.ts`;
- the three quota paths: the ISO-week count of `src/lib/block-limit.ts`,
  the Monday-week count of `src/services/rules-engine.ts`, and the
  caller-supplied quota of `reservation-logic.ts`;
- the buffered availability check of `src/lib/availability-checker.ts`;
- the `POST /api/reserve`, `/api/checkout` and `/api/checkin` routes, as
  guarded steps on an in-memory reservation table;
- the read-only `GET /api/availability`, `/api/calendar/availability` and
  `/api/catalog/summary` routes;
- sign-in (`auth.config.ts` and the mock provider of
  `src/auth/auth-factory.ts`), the route guard in `middleware.ts`, and the
  error envelopes of `src/lib/api-errors.ts`;
- the block snapping, filtering and paging of the three calendar components.

Each source file is one module; the file names follow the source.
`Wrappers`, `Seqs`, `Strings`, `Time`, `Reservations`, `Sessions`,
`SnipeIt`, `Inventory` and `Grouping` are shared helpers.

Conventions:

- **Time.** A time is an `int` number of milliseconds since Monday
  2025-12-08 00:00 in one fixed time zone. Day names, `getHours`/`setHours`,
  `startOfDay` and the date-fns week helpers are integer arithmetic on it.
- **The reservation table.** `Reservations.ReservationTable` is a class
  whose `rows` field is a sequence in which row `i` has id `i + 1`. The
  source's reservation ids are opaque strings; the model numbers the rows
  `1..|rows|` instead. An unknown id is one outside that range. The id 0
  stands for the empty string, the falsy id that `!reservationId` refuses,
  and names no row.
- **The routes.** Each state-changing route is two members.
  - A pure function (`ReserveRoute.Reserve`, `CheckoutRoute.Checkout`,
    `CheckinRoute.Checkin`) maps the old rows to the response, the new rows
    and the Snipe-IT call made. Its contract states every branch.
  - A `Post` method performs the same steps on a `ReservationTable`. Its
    contract is that its response and new table are exactly what the
    function gives.
- **External inputs.** The session, the request body, the clock (`now`) and
  the Snipe-IT replies are parameters.

The code does the following, and the model does the same:

- **Weekly quota.** `block-limit.ts` counts reservations of every status,
  not only active ones. It also demands that the reservation ends within
  the week as well as starting in it (`BlockLimit.StatusIgnored`,
  `BlockLimit.CrossWeekRowNotCounted`). date-fns ends the week at
  23:59:59.999, not 23:59:59.
- **Availability checker.** `availability-checker.ts` filters no status, so
  cancelled and completed reservations block too
  (`AvailabilityChecker.StatusIgnored`).
- **Course rule.** In `reservation-logic.ts` an asset with no required
  courses is always refused (`ReservationLogic.EmptyRequiredCoursesRejected`).
- **`/api/reserve`.**
  - The route checks neither the block length nor the course.
  - A quota failure answers 403 with the validator's message.
  - No property of the request other than overlap and quota is enforced.
- **Falsy id.** `/api/checkout` and `/api/checkin` test `!reservationId`,
  so the id 0 is answered 400 as missing, like an absent one
  (`CheckoutRoute.ZeroIdIsMissing`, `CheckinRoute.ZeroIdIsMissing`).
- **Snipe-IT user.** Checkout sends Snipe-IT the reservation user's
  `snipeItUserId`, not the local user id. That field may be null, and the
  call is made all the same (`CheckoutRoute.SnipeUserOf`).
- **Snipe-IT rejections.** The routes have their own branch for a reply
  whose `status` is `'error'`. The client functions of `src/lib/snipe-it.ts`
  already throw on such a reply, so through them that branch is never
  reached, and the 500 carries the client's message instead
  (`SnipeIt.ThroughClient`, `SnipeIt.ClientRejectionMessage`).
- **Session role.** `auth.ts` spreads `authConfig` and then replaces its
  `callbacks` with a `jwt` and a `session` callback that copy the id, the
  university id and the Snipe-IT user id, but not the role. Under that
  configuration `session.user.role` is never set, so the role test of
  `/api/checkout` refuses every session with 403. The model states the
  callbacks of `auth.config.ts` and of the mock provider as written
  (`AuthConfig.SignInRoleReachesSession`); `auth.ts` itself is not part of
  this model.
- **Cancellation.** No route performs it. `Reservations.LegalStep` still
  lists it as a legal step.
- **`/api/checkin` admin test.** This test is `email.includes('admin')`. No
  configured administrator's address contains that substring, so each of
  them is refused, and any signed-in address that contains it is admitted
  (`CheckinRoute.ConfiguredAdminsRefused`,
  `CheckinRoute.AdminInAddressPasses`).
- **`/api/availability` asset.** The route reports the first asset of a
  one-item Snipe-IT listing, whatever `assetId` was asked for
  (`AvailabilityRoute.AssetIgnoresRequestedId`).
- **Calendar window.** `/api/calendar/availability` decides availability
  only from the reservations inside the requested window. A current checkout
  that started before a later window is not seen
  (`CalendarAvailabilityRoute.LaterWindowHidesCurrentCheckout`).
- **Route guard.** The guard's matcher skips every path beginning `/api`,
  and the dot of `favicon.ico` in its pattern matches any character
  (`Middleware.ApiPathsBypassGuard`,
  `Middleware.FaviconDotMatchesAnyCharacter`).
- **Calendar pages.** The Prev and Next buttons of the resource calendar
  are disabled by the shown (clamped) page, but their handlers step the
  stored page number. From a stale page number past the end, Prev lowers
  the number without moving the shown page until it is back in range
  (`UnifiedCalendar.CalendarState.ClickPrev`).
- **Mock sign-in.** The mock provider checks the domain case-sensitively on
  the raw address but compares the administrator list in lower case
  (`AuthFactory.MockIsCaseSensitiveOnDomain`,
  `AuthFactory.MockAdminTestIgnoresCase`).

## Model

| member | source | states |
|---|---|---|
| ReservationLogic.GetAvailableBlocks | src/lib/reservation-logic.ts:24-42 | the loop over the BLOCKS keys yields exactly the blocks, among A, B, C in key order, whose start days include the date's weekday name |
| ReservationLogic.OfferedOnCharacterised | src/lib/reservation-logic.ts:8-21 | a block is offered on a day iff its startDays contain that day; offered blocks are in strictly increasing configuration order, hence duplicate-free |
| ReservationLogic.BlocksByWeekday | src/lib/reservation-logic.ts:8-42 | Monday to Thursday offer exactly [A, B], Friday exactly [C], Saturday and Sunday nothing |
| ReservationLogic.SharesCourse | src/lib/reservation-logic.ts:71-73 | true iff some required course is among the enrolled courses |
| ReservationLogic.ValidateReservationRequest | src/lib/reservation-logic.ts:45-80 | an existing row with the same asset, block and exact start gives 'Block Unavailable' whatever the quota or courses; otherwise a quota of 3 or more gives 'Weekly Limit Exceeded'; otherwise 'Course Restriction' iff no course is shared; null iff all three checks pass |
| ReservationLogic.EmptyRequiredCoursesRejected | src/lib/reservation-logic.ts:71-77 | an asset with no required courses is never admitted |
| BlockLimit.ValidateReservationRequest | src/lib/block-limit.ts:10-35 | success iff the week's count is below 3; a success carries no message; a refusal carries 'Weekly limit exceeded' |
| BlockLimit.CountThisWeek | src/lib/block-limit.ts:19-29 | at most the number of rows, and 0 exactly when no row has the user and category inside the requested date's ISO week |
| BlockLimit.CountedRowsExact | src/lib/block-limit.ts:19-29 | a row is counted iff it has the user and category, starts no earlier than Monday 00:00 and ends no later than Sunday 23:59:59.999 of the requested date's ISO week |
| BlockLimit.OtherUsersAndCategoriesIgnored | src/lib/block-limit.ts:24-25 | inserting a row of another user or another category anywhere leaves the result unchanged |
| BlockLimit.StatusIgnored | src/lib/block-limit.ts:22-29 | tables that differ only in row statuses give the same result, so rows of every status count |
| BlockLimit.StatusIgnoredCount | src/lib/block-limit.ts:22-29 | the count filter selects as many rows after any change of statuses |
| BlockLimit.SameWeekSameAnswer | src/lib/block-limit.ts:19-20 | any two requested dates of the same ISO week give the same result |
| BlockLimit.WeekBoundary | src/lib/block-limit.ts:26 | a qualifying row starting at Monday 00:00 of the week counts; one starting one millisecond earlier does not |
| BlockLimit.CrossWeekRowNotCounted | src/lib/block-limit.ts:27 | a row ending after the week's end is not counted even if it starts inside the week |
| BlockLimit.AddingNeverFrees | src/lib/block-limit.ts:22-33 | adding a row never turns a refusal into a success |
| AvailabilityChecker.CheckAvailability | src/lib/availability-checker.ts:13-36 | available iff every row on the asset starts after end + 1 h or ends before start - 1 h |
| AvailabilityChecker.EndingAtBufferEdgeBlocks | src/lib/availability-checker.ts:27-28 | a row on the asset ending exactly at start - 1 h makes it unavailable (inclusive overlap) |
| AvailabilityChecker.OtherAssetsIgnored | src/lib/availability-checker.ts:24 | inserting a row on another asset anywhere leaves the answer unchanged |
| AvailabilityChecker.StatusIgnored | src/lib/availability-checker.ts:22-32 | tables that differ only in row statuses give the same answer |
| AvailabilityChecker.StatusIgnoredFilter | src/lib/availability-checker.ts:22-32 | the overlap filter selects as many rows after any change of statuses |
| AvailabilityChecker.AddingNeverFrees | src/lib/availability-checker.ts:22-35 | adding a row never turns unavailable into available |
| AvailabilityChecker.StricterThanRouteCheck | src/lib/availability-checker.ts:18-35 | any row the reserve route would count as a conflict makes this check report unavailable |
| RulesEngine.RequiredCourse | src/services/rules-engine.ts:46-48 | some course iff a COURSE_ASSET_MAP entry maps to the category, and then the first such course in key order |
| RulesEngine.FirstCourseFor | src/services/rules-engine.ts:46-48 | the first entry whose category matches, iff one exists |
| RulesEngine.ValidateReservation | src/services/rules-engine.ts:31-56 | 3 or more reservations starting in the Monday-to-Sunday week give the block-limit refusal; otherwise a mapped course the user lacks gives the course refusal naming it; otherwise allowed with no reason; allowed iff there is no reason |
| RulesEngine.QuotaBeforeCourse | src/services/rules-engine.ts:41-52 | when the block limit refuses, the user's course tags make no difference |
| RulesEngine.EndTimeIgnored | src/services/rules-engine.ts:37-39 | reservations that differ only in end times give the same result |
| RulesEngine.EndTimeIgnoredCount | src/services/rules-engine.ts:37-39 | the week filter selects as many reservations when only end times change |
| RulesEngine.CourseMapping | src/services/rules-engine.ts:13-16 | Camera requires MC401, Lighting requires MC402, every other category requires nothing |
| Reservations.Lookup | src/app/api/checkout/route.ts:45-55 | finds a row iff some row has the id, and then that row |
| Reservations.ClashSymmetric | src/app/api/reserve/route.ts:37-48 | two active rows on one asset clash regardless of order |
| Reservations.LegalStepAdvances | src/app/api/checkout/route.ts:57-108 | every legal status step (PENDING to CONFIRMED, CONFIRMED to CHECKED_OUT, CHECKED_OUT to COMPLETED, PENDING or CONFIRMED to CANCELLED) strictly advances the lifecycle rank, so no status recurs |
| Reservations.ReservationTable.FindUnique | src/app/api/checkout/route.ts:45-48 | a row iff the id is in the table, and then the row with that id |
| Reservations.ReservationTable.FindFirstConflict | src/app/api/reserve/route.ts:37-48 | none iff no active row on the asset overlaps the window inclusively, otherwise the first such row |
| Reservations.ReservationTable.Create | src/app/api/reserve/route.ts:71-80 | appends exactly one row with the next id and the given fields, and returns it |
| Reservations.ReservationTable.UpdateStatus | src/app/api/reserve/route.ts:83-86 | changes only the status of the row with the id |
| SnipeIt.FailureMessage | src/app/api/checkout/route.ts:86-99 | a missing or error reply yields 'Snipe-IT <operation> failed: ' followed by the messages or 'Unknown error'; a thrown error keeps its own message |
| SnipeIt.ThroughClient | src/lib/snipe-it.ts:56-58 | no reply reaching a route is a rejection: a rejection becomes a thrown Error with the joined messages, or 'Unknown Snipe-IT error' when they join to nothing; other replies pass unchanged |
| SnipeIt.ClientRejectionMessage | src/lib/snipe-it.ts:73-76 | through the client the 500 message of a rejection is the client's, never the route's 'Snipe-IT ... failed: ' text |
| ReserveRoute.Reserve | src/app/api/reserve/route.ts:15-95 | no session gives 401; a missing field gives 400; a conflicting active row gives 409; a quota refusal gives 403 with the validator's message; only a success changes the table, by appending exactly one CONFIRMED row with the request's fields, and answers 201 with its id |
| ReserveRoute.Post | src/app/api/reserve/route.ts:15-95 | the find, validate, create-PENDING and update-to-CONFIRMED sequence on the table gives the response and the new table that Reserve states |
| ReserveRoute.NoConflictFromEmptyFilter | src/app/api/reserve/route.ts:37-50 | the overlap query finds nothing iff no row conflicts |
| ReserveRoute.InactiveRowsNeverConflict | src/app/api/reserve/route.ts:40 | adding a CANCELLED or COMPLETED row never changes whether the request gets 409 |
| ReserveRoute.TouchingActiveRowConflicts | src/app/api/reserve/route.ts:43-44 | an active row on the asset ending exactly at the requested start gives 409 and leaves the table unchanged |
| ReserveRoute.ReservePreservesNoDoubleBooking | src/app/api/reserve/route.ts:37-86 | a table without two clashing active rows on one asset stays so after any request |
| ReserveRoute.ReserveIsTableStep | src/app/api/reserve/route.ts:71-86 | existing rows are unchanged and the new row reached CONFIRMED from PENDING by a legal step |
| ReserveRoute.WeeklyLimitScenario | src/app/api/reserve/route.ts:57-68 | with a free slot, a week count of at most 2 creates the reservation and a count of 3 or more gives 403 'Weekly limit exceeded' with the table unchanged |
| CheckoutRoute.Checkout | src/app/api/checkout/route.ts:18-114 | 401, 403 for a role other than admin, 400 without id or with the falsy id 0, 404 for an unknown id, 400 with the current status unless CONFIRMED, 400 expired exactly when a CONFIRMED row's endTime is before now, 500 with the failure message when Snipe-IT fails; Snipe-IT is called iff every guard passes, with the row's asset and its user's Snipe-IT id (missing when the user has none); only a success changes the table, setting that row's status to CHECKED_OUT |
| CheckoutRoute.Post | src/app/api/checkout/route.ts:18-114 | the read, external call and status update on the table give the response, call and new table that Checkout states |
| CheckoutRoute.CheckoutIsTableStep | src/app/api/checkout/route.ts:105-108 | every row is unchanged or moved by a legal status step |
| CheckoutRoute.FailedCallKeepsConfirmed | src/app/api/checkout/route.ts:80-100 | a failed Snipe-IT checkout gives 500 and the row stays CONFIRMED |
| CheckoutRoute.CheckoutPreservesNoDoubleBooking | src/app/api/checkout/route.ts:105-108 | checkout keeps the table free of double bookings |
| CheckoutRoute.ExpiryIsStrict | src/app/api/checkout/route.ts:68-77 | checkout at exactly endTime proceeds to the external call; one millisecond later it is refused as expired with the table unchanged |
| CheckoutRoute.ZeroIdIsMissing | src/app/api/checkout/route.ts:35-41 | an admin request with id 0 is answered 400 as missing, calls nothing and leaves the table unchanged; no row has id 0 |
| CheckoutRoute.SnipeUserOf | src/app/api/checkout/route.ts:81-84 | the user's Snipe-IT id iff the user has one, and then that id |
| CheckinRoute.Checkin | src/app/api/checkin/route.ts:18-97 | 401, 403 unless the email contains 'admin', 400 without id or with the falsy id 0, 404 for an unknown id, 400 with the current status unless CHECKED_OUT, 500 when Snipe-IT fails; Snipe-IT is called iff every guard passes, with the row's asset; there is no time guard; only a success changes the table, setting that row's status to COMPLETED |
| CheckinRoute.Post | src/app/api/checkin/route.ts:18-97 | the read, external call and status update on the table give the response, call and new table that Checkin states |
| CheckinRoute.CheckinIsTableStep | src/app/api/checkin/route.ts:88-91 | every row is unchanged or moved by a legal status step |
| CheckinRoute.FailedCallKeepsCheckedOut | src/app/api/checkin/route.ts:68-85 | a failed Snipe-IT checkin gives 500 and the row stays CHECKED_OUT |
| CheckinRoute.CheckinPreservesNoDoubleBooking | src/app/api/checkin/route.ts:88-91 | checkin keeps the table free of double bookings |
| CheckinRoute.CheckinFreesWindow | src/app/api/checkin/route.ts:88-91 | after a successful checkin the row no longer conflicts with any window |
| CheckinRoute.ZeroIdIsMissing | src/app/api/checkin/route.ts:35-41 | an admin request with id 0 is answered 400 as missing, calls nothing and leaves the table unchanged |
| CheckinRoute.NoAdminInSiueAddress | src/app/api/checkin/route.ts:27 | an @siue.edu address whose user part has no 'd' does not contain 'admin' |
| CheckinRoute.AdminNamesHaveNoD | auth.config.ts:45 | none of the configured administrator names contains 'd' |
| CheckinRoute.ConfiguredAdminsRefused | src/app/api/checkin/route.ts:27-33 | a session of a configured administrator, even with the admin role, fails the checkin admin test |
| CheckinRoute.AdminInAddressPasses | src/app/api/checkin/route.ts:27-28 | any session whose email contains 'admin' passes the admin test, whatever its role |
| AvailabilityRoute.Window | src/app/api/availability/route.ts:44-47 | a missing start is now and a missing end is now + 7 days; given bounds are kept |
| AvailabilityRoute.PickAsset | src/app/api/availability/route.ts:51-58 | the first listed asset, or the 'Unknown' / 'N/A' placeholder when the listing is empty or the fetch fails |
| AvailabilityRoute.SnipeStatus | src/app/api/availability/route.ts:83 | a missing or empty status reads 'Ready to Deploy' |
| AvailabilityRoute.Availability | src/app/api/availability/route.ts:30-101 | 400 iff assetId is missing or empty; otherwise the listed reservations are exactly the active rows on the asset overlapping the window inclusively, snipeStatus is the first listed asset's status or 'Ready to Deploy', and isAvailable holds iff that status is 'Ready to Deploy' and that list is empty |
| AvailabilityRoute.AssetIgnoresRequestedId | src/app/api/availability/route.ts:52-54 | the reported name and status do not depend on the requested asset id |
| AvailabilityRoute.AvailableIffNoActiveOverlap | src/app/api/availability/route.ts:61-85 | with no Snipe-IT status, available iff no active row on the asset overlaps the window |
| AvailabilityRoute.InactiveRowsNotListed | src/app/api/availability/route.ts:64 | adding a CANCELLED or COMPLETED row changes nothing in the report |
| Inventory.Categories | src/app/api/catalog/summary/route.ts:46 | the category list is duplicate-free, covers every asset's category, and holds nothing else |
| CalendarAvailabilityRoute.Window | src/app/api/calendar/availability/route.ts:22-23 | a missing start is the start of today; a missing end is start + 30 days |
| CalendarAvailabilityRoute.SelectedAssets | src/app/api/calendar/availability/route.ts:33-37 | no category, an empty one or 'all' keeps every asset; otherwise exactly the assets of that category |
| CalendarAvailabilityRoute.GroupByAsset | src/app/api/calendar/availability/route.ts:61-73 | each asset id maps to exactly the fetched reservations on it, in input order, and only ids that occur are keys |
| CalendarAvailabilityRoute.PushKeepsLists | src/app/api/calendar/availability/route.ts:62-72 | one push keeps the grouping's lists equal to the filtered prefix, one element longer |
| CalendarAvailabilityRoute.PushKeepsKeys | src/app/api/calendar/availability/route.ts:63-65 | one push keeps the keys exactly the asset ids seen so far, one element longer |
| CalendarAvailabilityRoute.PushAfterCreate | src/app/api/calendar/availability/route.ts:63-66 | creating the missing list and pushing onto it is one push of the row onto its asset's list |
| CalendarAvailabilityRoute.StatFor | src/app/api/calendar/availability/route.ts:96-105 | total counts the category's entries, available its available entries and checkedOut its unavailable ones; available is at most total and checkedOut is total - available |
| CalendarAvailabilityRoute.Equipment | src/app/api/calendar/availability/route.ts:76-92 | one entry per selected asset |
| CalendarAvailabilityRoute.CategoryStats | src/app/api/calendar/availability/route.ts:95-108 | one statistic per category, in the order of the categories |
| CalendarAvailabilityRoute.Get | src/app/api/calendar/availability/route.ts:15-123 | the route's response is the one Calendar defines, with the grouping built by GroupByAsset's loop |
| CalendarAvailabilityRoute.Calendar | src/app/api/calendar/availability/route.ts:15-121 | the reported range is the query's window; totalReservations counts the active rows overlapping it; total is the number of listed assets and of entries; available counts the available entries and checkedOut the others, and the two add up to total |
| CalendarAvailabilityRoute.EntryCharacterised | src/app/api/calendar/availability/route.ts:76-92 | each entry keeps its asset's id and category, its reservations are exactly the active in-window rows on the asset, reservationCount is their number, it is available iff none of them is CHECKED_OUT with endTime >= now, and its status is 'CHECKED_OUT' iff it is not available |
| CalendarAvailabilityRoute.CalendarEquipment | src/app/api/calendar/availability/route.ts:39-92 | the equipment list is built from the selected assets and the reservations fetched for the window |
| CalendarAvailabilityRoute.AssetReservations | src/app/api/calendar/availability/route.ts:39-48 | an asset's fetched reservations are exactly the active rows on it that overlap the window |
| CalendarAvailabilityRoute.EntryAvailability | src/app/api/calendar/availability/route.ts:77-91 | an entry keeps its asset's id and category, lists its reservations with their count, is available iff none of them is held now, and reads 'CHECKED_OUT' iff unavailable |
| CalendarAvailabilityRoute.CategoryTotalsAddUp | src/app/api/calendar/availability/route.ts:95-108 | category statistics have distinct categories, cover every asset's category, and their totals add up to the overall total |
| CalendarAvailabilityRoute.EquipmentCategories | src/app/api/calendar/availability/route.ts:76-85 | each entry carries its asset's category |
| CalendarAvailabilityRoute.StatsCoverCategories | src/app/api/calendar/availability/route.ts:95-108 | over any equipment list, the per-category statistics have distinct categories, cover every asset's category and total the list's length |
| CalendarAvailabilityRoute.SumTotalsIsSumCounts | src/app/api/calendar/availability/route.ts:96-99 | the sum of the category totals is the sum of the per-category entry counts |
| CalendarAvailabilityRoute.LaterWindowHidesCurrentCheckout | src/app/api/calendar/availability/route.ts:40-88 | an asset held right now is reported available when the requested window starts after the checkout began |
| CatalogSummaryRoute.CheckedOutAssetIds | src/app/api/catalog/summary/route.ts:24-34 | an id is in the set iff some CHECKED_OUT row on it has endTime >= now |
| CatalogSummaryRoute.Catalog | src/app/api/catalog/summary/route.ts:37-43 | one entry per asset, in order, keeping id, tag, model and category; available iff the id is not in the checked-out set |
| CatalogSummaryRoute.Group | src/app/api/catalog/summary/route.ts:47-55 | the items are exactly the catalog entries of the category; total is their number, available counts the category's available entries and checkedOut the unavailable ones, which add up to total |
| CatalogSummaryRoute.Groups | src/app/api/catalog/summary/route.ts:47-56 | one group per category |
| CatalogSummaryRoute.CatalogSummary | src/app/api/catalog/summary/route.ts:12-66 | totalEquipment is the number of assets and of catalog entries, totalAvailable counts the available entries and totalCheckedOut the unavailable ones, and the two add up to totalEquipment |
| CatalogSummaryRoute.AvailableIffNotHeld | src/app/api/catalog/summary/route.ts:24-43 | an entry is available iff no CHECKED_OUT row on its asset has endTime >= now |
| CatalogSummaryRoute.TotalAvailableCountsFreeAssets | src/app/api/catalog/summary/route.ts:24-63 | totalAvailable is the number of assets not held right now |
| CatalogSummaryRoute.AvailableEntriesAreFreeAssets | src/app/api/catalog/summary/route.ts:37-43 | available entries are exactly as many as the assets outside the checked-out set |
| CatalogSummaryRoute.SumTotalsIsSumCounts | src/app/api/catalog/summary/route.ts:47-51 | the sum of the group totals is the sum of the per-category item counts |
| CatalogSummaryRoute.GroupsCoverCatalog | src/app/api/catalog/summary/route.ts:46-55 | groups have distinct categories and every catalog entry is in some group |
| CatalogSummaryRoute.GroupTotalsAddUp | src/app/api/catalog/summary/route.ts:46-65 | the group totals add up to totalEquipment |
| CatalogSummaryRoute.GroupsCover | src/app/api/catalog/summary/route.ts:46-55 | every entry's category is listed, group categories are distinct, and each entry lies in a group |
| Grouping.GroupsPartition | src/app/api/catalog/summary/route.ts:46-65 | counting the elements of each of a duplicate-free list of keys covering all elements counts every element once |
| ApiErrors.ErrorCodeValuesDistinct | src/lib/api-errors.ts:32-44 | distinct error codes have distinct string values |
| ApiErrors.CreateErrorResponse | src/lib/api-errors.ts:46-72 | an ApiErrorResponse keeps its code as error and code, its message and details; another Error gives INTERNAL_ERROR with its message; a non-Error gives UNKNOWN_ERROR, the fixed message and code INTERNAL_ERROR; every case carries a code and the timestamp |
| ApiErrors.ApiErrorKeepsItsCode | src/lib/api-errors.ts:20-55 | an ApiErrorResponse is an Error, yet maps to INTERNAL_ERROR only when that is its own code |
| ApiErrors.ErrorEqualsCodeIffError | src/lib/api-errors.ts:46-72 | error equals code iff the thrown value is an Error |
| ApiErrors.CreateSuccessResponse | src/lib/api-errors.ts:74-80 | success is true and data and timestamp are unchanged |
| AuthConfig.Normalise | auth.config.ts:37 | the lower-cased, trimmed email: no upper-case letter and no surrounding space |
| AuthConfig.Authorize | auth.config.ts:36-55 | a user iff the normalised email ends with @siue.edu; id and email are the normalised email, name is the text before the first '@', role is admin iff the email is in the list, otherwise student |
| AuthConfig.ToLowerOfLower | auth.config.ts:37 | lower-casing an already lower-case string changes nothing |
| AuthConfig.TrimOfTrimmed | auth.config.ts:37 | trimming a string without surrounding space changes nothing |
| AuthConfig.AuthorizeNormalisationIdempotent | auth.config.ts:37-46 | normalising twice is normalising once, so signing in with the normalised address gives the same user |
| AuthConfig.NormalisedIsFixed | auth.config.ts:37 | an address without upper case or surrounding space is its own normal form |
| AuthConfig.PlainAddressIsNormal | auth.config.ts:37 | an address of lower-case letters, '@' and '.' is its own normal form |
| AuthConfig.ConfiguredAdminSignsInAsAdmin | auth.config.ts:40-54 | each configured administrator signs in, with the admin role and their user part as name |
| AuthConfig.BeforeFirstAt | auth.config.ts:47 | the name of user@domain is user |
| AuthConfig.SiueAddressIsNormal | auth.config.ts:37-40 | a lower-case user part followed by @siue.edu is its own normal form and passes the domain test |
| AuthConfig.OtherDomainRefused | auth.config.ts:37-42 | a plain user@domain address whose domain is not siue.edu is refused |
| AuthConfig.PlainJoin | auth.config.ts:37 | user@domain is plain when both halves are |
| AuthConfig.OtherDomainSuffix | auth.config.ts:40 | user@domain ends in @siue.edu only when the domain is siue.edu |
| AuthConfig.Jwt | auth.config.ts:63-69 | the token's role becomes the user's role when the user carries one, and stays as it was otherwise |
| AuthConfig.Session | auth.config.ts:70-76 | the session user's role becomes the token's role when there is a user and the token has a role, and stays as it was otherwise |
| AuthConfig.SignInRoleReachesSession | auth.config.ts:45-76 | after sign-in the token and the session carry the user's role, a refresh without a user keeps it, and it is admin iff the address is listed |
| AuthConfig.SessionUnchangedWithoutRole | auth.config.ts:72-74 | without a user or a token role the session role is unchanged |
| AuthFactory.SelectProvider | src/auth/auth-factory.ts:8-33 | an unset or empty AUTH_PROVIDER selects the mock provider; AzureAD, Google and Okta are selected by exactly their names; any other value falls to the mock default |
| AuthFactory.GetAuthConfig | src/auth/auth-factory.ts:10-76 | AzureAD, Google and Okta give no provider and no callbacks; the mock gives one credentials provider with callbacks |
| AuthFactory.MockAuthorize | src/auth/auth-factory.ts:42-58 | a user iff the raw email ends with @siue.edu; id and email are the raw email; name is the text before the first '@'; role is admin iff the lower-cased email is listed; a missing email is refused |
| AuthFactory.MockJwt | src/auth/auth-factory.ts:62-67 | the token's role becomes the user's role whenever a user is present |
| AuthFactory.MockSession | src/auth/auth-factory.ts:68-73 | the session user's role becomes the token's role whenever there is a session user |
| AuthFactory.MockAgreesOnNormalAddresses | src/auth/auth-factory.ts:43-55 | on an address already in normal form the mock and the configured provider sign in the same user |
| AuthFactory.MockIsCaseSensitiveOnDomain | src/auth/auth-factory.ts:45 | an address ending in @SIUE.EDU is refused by the mock but accepted by the configured provider |
| AuthFactory.LowerOfUpperDomain | auth.config.ts:37 | lower-casing user@SIUE.EDU gives user@siue.edu |
| AuthFactory.MockAdminTestIgnoresCase | src/auth/auth-factory.ts:47-53 | an administrator name in any letter case signs in as admin, keeping the address as typed |
| AuthFactory.MockSignInRoleReachesSession | src/auth/auth-factory.ts:48-73 | after a mock sign-in the session carries the user's role, which is always set |
| AuthFactory.MockRefreshKeepsRole | src/auth/auth-factory.ts:62-66 | a refresh without a user keeps the token's role |
| Middleware.Decide | middleware.ts:10-26 | a redirect iff the path is not public and nobody is logged in, and then to /login with callbackUrl set to the path |
| Middleware.Handle | middleware.ts:8-34 | a redirect iff the matcher applies, the path is not public and nobody is logged in; the target is /login with the path as callbackUrl |
| Middleware.MatcherApplies | middleware.ts:33 | the guard runs only on paths starting '/', and never on paths starting /api, /_next/static, /_next/image or /favicon.ico |
| Middleware.RedirectTargetIsPublic | middleware.ts:14-23 | the redirect target is a public route and is itself never redirected |
| Middleware.LoggedInNeverRedirected | middleware.ts:20 | a logged-in request is never redirected |
| Middleware.ApiPathsBypassGuard | middleware.ts:33 | no path starting /api is ever redirected |
| Middleware.FaviconDotMatchesAnyCharacter | middleware.ts:33 | /favicon<any character>ico... is excluded by the matcher |
| Middleware.PageRedirectsToLogin | middleware.ts:14-33 | an ordinary page path is redirected to /login with itself as callbackUrl when nobody is logged in |
| UnifiedCalendar.Snap | src/components/calendar/UnifiedCalendar.tsx:82-94 | a time before 14:00 snaps to the block starting 09:00 of its day, any other to the block starting 14:00; the result is always a four-hour block of the same day |
| UnifiedCalendar.SnapIdempotent | src/components/calendar/UnifiedCalendar.tsx:82-94 | snapping the start of a snapped block gives the same block |
| UnifiedCalendar.SnapNavigation | src/components/calendar/UnifiedCalendar.tsx:77-133 | no navigation iff the resource id is missing or empty; otherwise to /catalog/<id> with the snapped block |
| UnifiedCalendar.EventNavigation | src/components/calendar/UnifiedCalendar.tsx:103-108 | no navigation iff the resource id is missing or empty; otherwise to /catalog/<id> without a window |
| UnifiedCalendar.TruthyCategories | src/components/calendar/UnifiedCalendar.tsx:40 | exactly the non-empty categories that occur |
| UnifiedCalendar.CategoryButtons | src/components/calendar/UnifiedCalendar.tsx:39-42 | exactly the non-empty categories that occur, each once |
| UnifiedCalendar.FilteredResources | src/components/calendar/UnifiedCalendar.tsx:45-57 | the filter keeps, in order, exactly the resources in the selected category (any for 'all') that match the lower-cased search text by title or asset tag, or all of them when the trimmed text is empty |
| UnifiedCalendar.FilterAll | src/components/calendar/UnifiedCalendar.tsx:46-50 | a filter that admits every resource keeps the list |
| UnifiedCalendar.BlankSearchListsAll | src/components/calendar/UnifiedCalendar.tsx:46-50 | with 'all' selected and a blank search every resource is listed |
| UnifiedCalendar.TotalPages | src/components/calendar/UnifiedCalendar.tsx:59 | at least 1; 1 for an empty list; otherwise the least page count whose pages of 20 hold the list |
| UnifiedCalendar.CurrentPage | src/components/calendar/UnifiedCalendar.tsx:60 | the requested page clamped to the last page |
| UnifiedCalendar.PagedResources | src/components/calendar/UnifiedCalendar.tsx:61-64 | the page is at most 20 consecutive filtered resources from the current page's offset, and empty only when the filtered list is |
| UnifiedCalendar.EveryResourceOnItsPage | src/components/calendar/UnifiedCalendar.tsx:59-64 | filtered resource k is entry k mod 20 of page k div 20, which is a valid page |
| UnifiedCalendar.StalePageShowsLastPage | src/components/calendar/UnifiedCalendar.tsx:60 | a page number past the end shows the last page |
| UnifiedCalendar.VisibleEvents | src/components/calendar/UnifiedCalendar.tsx:66-74 | exactly the events whose resource id belongs to a resource on the page |
| UnifiedCalendar.CalendarState.ClickPrev | src/components/calendar/UnifiedCalendar.tsx:203-209 | disabled on shown page 0, otherwise the stored page decreases by one; from an in-range page the shown page decreases by one and never below 0; nothing else changes |
| UnifiedCalendar.CalendarState.ClickNext | src/components/calendar/UnifiedCalendar.tsx:211-217 | disabled on the last shown page, otherwise the stored page increases by one; the shown page increases by one unless it is the last; an in-range page stays in range; nothing else changes |
| UnifiedCalendar.StepBack | src/components/calendar/UnifiedCalendar.tsx:204 | `Math.max(0, p - 1)`: 0 or one less than p |
| UnifiedCalendar.StepForward | src/components/calendar/UnifiedCalendar.tsx:212 | `Math.min(last, p + 1)`: at most last and at most p + 1, and one of the two |
| UnifiedCalendar.CalendarState.SetSearchTerm | src/components/calendar/UnifiedCalendar.tsx:152-160 | typing or clearing sets the search text and returns to page 0 |
| UnifiedCalendar.CalendarState.SelectCategory | src/components/calendar/UnifiedCalendar.tsx:170-184 | the selected category becomes the given one, or 'all' when it is missing or empty; the page is kept |
| ReservationCalendar.HandleSelect | src/components/ReservationCalendar.tsx:23-42 | the callback with the selection unchanged iff the hours are (9, 13) or (14, 18) and there is a resource; nothing for a valid block without a resource; the alert iff the hours are anything else |
| ReservationCalendar.DayBlocksAccepted | src/components/ReservationCalendar.tsx:29-38 | the morning and afternoon blocks of any day are accepted |
| ReservationCalendar.MultiDaySelectionAccepted | src/components/ReservationCalendar.tsx:29-35 | a selection from 09:00 to 13:59 on a later day is accepted, because minutes and dates are not examined |
| ReservationCalendar.HourOfWithin | src/components/ReservationCalendar.tsx:30-31 | a time h hours and less than one more after a midnight has hour h |
| AvailabilityCalendar.VisibleDays | src/components/AvailabilityCalendar.tsx:45-47 | at most five days, consecutive from viewWeek * 5, and none iff the list ends before that offset |
| AvailabilityCalendar.NextWeekIffDaysFollow | src/components/AvailabilityCalendar.tsx:48-49 | Next Week is enabled iff the following week has a day to show; Previous Week iff viewWeek > 0 |
| AvailabilityCalendar.EveryDayOnItsWeek | src/components/AvailabilityCalendar.tsx:45-47 | day k of the list is shown at position k mod 5 of week k div 5 |
| AvailabilityCalendar.WeekPager.ClickPrevious | src/components/AvailabilityCalendar.tsx:132-134 | the week decreases by one and never below 0, and the shown week stays in range |
| AvailabilityCalendar.WeekPager.ClickNext | src/components/AvailabilityCalendar.tsx:142-144 | the week increases by one exactly when Next Week is enabled, and the new week has days to show |
| AvailabilityCalendar.HandleBlockClick | src/components/AvailabilityCalendar.tsx:70-83 | an unavailable block does nothing; an available block with a usage record that cannot reserve shows the weekly-limit alert naming the category; otherwise onSelectBlock gets the date, block and the block's times |
| AvailabilityCalendar.OtherBlockIrrelevant | src/components/AvailabilityCalendar.tsx:72 | the other block of the day never affects the click |
| Time.DayName | src/lib/reservation-logic.ts:26 | one of the seven short English weekday names |
| Time.DayNameIdentifiesWeekday | src/lib/reservation-logic.ts:26 | two times have the same day name iff they fall on the same weekday |
| Time.NextDayName | src/lib/reservation-logic.ts:26 | one day later the weekday advances by one, Sunday wrapping to Monday, and the name is the next in the list |
| Time.StartOfISOWeek | src/lib/block-limit.ts:19 | the Monday 00:00 at or before the time, less than a week before it |
| Time.EndOfISOWeek | src/lib/block-limit.ts:20 | lies in the same ISO week as the time, and the next millisecond starts the following week |
| Time.WeekStartsMonday | src/lib/block-limit.ts:19 | the ISO week starts on a Monday at midnight |
| Time.WeekStartIsMon | src/lib/block-limit.ts:19 | the day name of the week start is 'Mon' |
| Time.SameWeek | src/lib/block-limit.ts:19-20 | any time inside a week has that same week |
| Time.StartOfDay | src/app/api/calendar/availability/route.ts:22 | the midnight at or before the time, less than a day before it |
| Time.AtHour | src/components/calendar/UnifiedCalendar.tsx:89-93 | hour h sharp on the same day |
| Time.HourOf | src/components/ReservationCalendar.tsx:30-31 | the hour of the day, below 24, bracketing the time |
| Strings.ParseInt | src/app/api/availability/route.ts:63 | NaN (None) iff no digit follows the leading white space, an optional sign and, for a 0x or 0X prefix, the prefix; hexadecimal digits are read after the prefix, decimal ones otherwise |
| Strings.ParseIntDecimal | src/app/api/availability/route.ts:63 | white space, an optional sign and decimal digits followed by a non-digit read as the digits' value, negated exactly for '-' |
| Strings.ParseIntHex | src/app/api/availability/route.ts:63 | after white space, an optional sign and 0x or 0X the run of hexadecimal digits is read in base 16, negated exactly for '-'; no digit after the prefix gives NaN, not 0 |
| Strings.ReadDigits | src/app/api/availability/route.ts:63 | no value iff the digit run (hexadecimal after a 0x prefix, decimal otherwise) is empty |
| Strings.SignedText | src/app/api/availability/route.ts:63 | white space and a sign in front of a body that starts with neither leave that body to be read, negative exactly for '-' |
| Strings.DecimalBody | src/app/api/availability/route.ts:63 | a decimal run without a 0x prefix reads as its value in base 10 |
| Strings.HexBody | src/app/api/availability/route.ts:63 | 0x and a hexadecimal run read as the run's value in base 16, or no value when the run is empty |
| Strings.RunLength | src/app/api/availability/route.ts:63 | the run of leading digits of the radix: all digits, and followed by a non-digit or the end |
| Strings.RunLengthAppend | src/app/api/availability/route.ts:63 | a digit run followed by a non-digit has exactly its own length as leading run |
| Strings.LeadingSpacesAppend | src/app/api/availability/route.ts:63 | white space followed by a non-space is skipped exactly |
| Strings.Trim | auth.config.ts:37 | a contiguous part of the input with no white space at either end, everything before and after it is white space, and it is empty iff the input is all white space |
| Strings.TrimmedEnd | auth.config.ts:37 | the end of the text once trailing white space is dropped: everything from it on is white space and the character before it is not |
| Strings.ToLower | auth.config.ts:37 | same length, each character lower-cased |
| Strings.ContainsAt | src/app/api/checkin/route.ts:27 | a string contains another iff it occurs at some position |
| Seqs.Slice | src/components/calendar/UnifiedCalendar.tsx:61-64 | JavaScript `slice`: the elements from start up to the clamped end, in order |
| Seqs.FilterMembership | src/app/api/calendar/availability/route.ts:78-80 | an element is kept exactly when it occurs and satisfies the predicate |
| Seqs.Distinct | src/app/api/catalog/summary/route.ts:46 | `Array.from(new Set(...))`: each element once, the same elements as the input, in the order of their first occurrences |
| Seqs.FirstIndex | src/app/api/catalog/summary/route.ts:46 | the position of the first occurrence of an element |
| Seqs.DistinctSnoc | src/app/api/catalog/summary/route.ts:46 | appending an element keeps a duplicate-free, first-occurrence-ordered list of the distinct elements so, adding it at the end when it is new |

## Left out

- Database I/O. Prisma queries become filters and updates on in-memory sequences. Row order is the query order, and `orderBy` is not modelled.
- Joins. The user name and email that the routes attach to each reservation are not modelled. The users' Snipe-IT ids, which checkout reads through its join, are an input map from local user id.
- Reservations.Lookup: reservation ids are numbers `1..|rows|` here, while the source's ids are opaque strings. The id 0 stands for the empty string. A JSON body whose `reservationId` is a non-zero number, which the database client rejects with a 500, is not modelled.
- ReserveRoute.ReserveBody, AvailabilityRoute.Query, CalendarAvailabilityRoute.Query: the dates arrive already parsed. In the source `new Date(s)` of a non-empty string that does not parse is an Invalid Date, and the query then throws, giving a 500 (`src/app/api/reserve/route.ts:33-37`, `src/app/api/availability/route.ts:44-46`, `src/app/api/calendar/availability/route.ts:22-23`). That error path is not modelled.
- ReservationLogic.ValidateReservationRequest: the block is any string and is compared with the row's block. In the source it is cast to the `Block` enum (`src/lib/reservation-logic.ts:56`), so a value other than A, B or C makes the database query throw instead of falling through to the quota check. That error path is not modelled.
- The check-then-create race in the reserve route: each request runs alone.
- The catch-all 500 answers of the routes when the database throws. Database failure is not an input of the model.
- Snipe-IT HTTP traffic, with its retries and backoff. Its replies are inputs. A reply whose `messages` is not an array, so that `join` itself throws, is not modelled.
- Locale and time zone. `toLocaleDateString`, `getHours`/`setHours`, `startOfDay` and the date-fns week helpers use one fixed zone without daylight-saving changes. The ISO strings of `toISOString` and the query-string encoding of the navigation targets are not modelled.
- Floating point. `utilizationRate` in the calendar statistics is left out.
- Strings.ToLower: lower-casing maps the ASCII letters only, while `toLowerCase` maps every Unicode letter. Trimming covers the full white-space and line-terminator set of ECMAScript.
- AvailabilityRoute.Availability: a request whose `assetId` yields no number (NaN in the source) is answered 500, which stands for the failing query.
- Strings.ParseInt: the value is an unbounded integer. The double of the source loses precision beyond 2^53, and `-0` is 0 here.
- SnipeIt.FailureMessage: the exact text is stated for no reply, a thrown error and a single non-empty message. For several messages the contract states only the prefix.
- Strings.Join: the contract states the result for no element and for one element only.
- The selection handler of `src/components/ReservationCalendar.tsx` has a stray `p` at line 25, in front of `const end`, so the file does not compile as written. The model takes the handler as it evidently reads without it.
- Rendering. The JSX of every component is not modelled, nor `getBlockClassName`'s styling or the page markup.
- Timestamps. The `timestamp` of the error envelopes is a parameter, not the clock.
- ApiErrors.Details: `details` is a `Record<string, unknown>` in the source; the model reduces its values to text.
