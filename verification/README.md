# Lab management app: a Dafny model of its data logic

The system is a laboratory management web application. Lab staff, doctors, patients and researchers each get their own screens. This project models the logic those screens run on, as pure functions over immutable values:

- the in-memory lab store (`LabDataStore`): tests, patients and samples, with generated ids, patch-style updates and lookups;
- result entry for a blood count: classifying a reading against its normal and critical ranges, upserting one result per parameter, the status badge, and the summary counts;
- the two report template editors:
  - the simple builder (add, delete, edit and move sections);
  - the advanced library (search, duplicate, delete with default protection, and move a section within one template, with renumbering);
- the test catalog screen: add with validation, edit, delete with confirmation, and toggle active;
- the notification centre: mark read, mark all read, delete, the unread count, and the "how long ago" label;
- the doctor's test request form: toggling tests and their total cost;
- the finance dashboard: income, expense and net totals, and the record filter;
- sample tracking: the filter, the elapsed-time label, the progress timeline and the estimated completion time;
- inventory and equipment tracking: filters, days until expiry or service, the summary cards, and the coloured day-count line;
- the researcher's new-study form: data-type ticks and the submit check.

Modules follow the program's structure:

- `Seqs`, `Text` and `Time` hold the shared vocabulary:
  - `Seqs` has order-preserving filter, first-index search, counts and sums, and swaps;
  - `Text` has ASCII lower-casing, substring search, decimal printing with `padStart(3, '0')`, and parsing back;
  - `Time` has `Math.floor`, `Math.ceil` and JavaScript's truncating `%` on millisecond counts.
- `LabTypes` holds the shared test and sample records.
- Every other module is one source file.

Clock reads and the confirmation dialog are parameters: `now`, `today` and `stamp` are milliseconds, and `confirmed` is the dialog's answer.

Every operation has a partner property. Some are round trips:

- deleting the id just added undoes the add;
- ticking then unticking restores the selection;
- moving a section up then down restores the list;
- toggling twice restores every flag.

Others are preserved invariants:

- result entries stay keyed by parameter;
- selections never repeat an id;
- ids stay distinct while nothing is deleted.

Others are independent reference definitions:

- the net profit is the signed sum of the records;
- the "normal" figure, computed by subtraction, equals the count of unflagged entries;
- the day-count cards agree with the millisecond windows and with the colour of the day-count line.

Where the code and its stated intent disagree, the model follows the code:

- An unparseable reading is not ignored. `parseFloat` yields NaN, the entry is stored with both flags false, and its badge reads Normal.
- Store ids are not always fresh. `addTest` numbers a new test by the current count, so after a delete it can reuse a live id (see Findings). The corrected add, `LabDataIds.AddTestFresh`, keeps a counter beside the store that the source does not have.
- The catalog's `handleAddTest` and the advanced library's `handleDuplicateTemplate` number by count in the same way:
  - `AdvancedTemplates.DeleteThenDuplicateReusesId` shows the collision for templates;
  - for the catalog, the same pattern gives the same collision.

## Model

| member | source | states |
|---|---|---|
| LabData.TestIndex | src/store/labData.ts:75-76 | -1 exactly when no test has the id; otherwise the first position holding it |
| LabData.GetTests | src/store/labData.ts:61-63 | the store's test list as it stands; `GetAfterUpdate` and `DeleteUndoesAddTest` state what it returns after a change |
| LabData.SampleIndex | src/store/labData.ts:123 | -1 exactly when no sample has the id; otherwise the first position holding it |
| LabData.AddTest | src/store/labData.ts:65-72 | the new test is appended after all existing tests, carries id `T` + three-digit (count + 1) and every drafted field; patients and samples are untouched |
| LabData.UpdateTest | src/store/labData.ts:74-80 | unknown id: store unchanged and null; otherwise only the first matching test takes the patched fields, every other position is unchanged, the updated test is returned |
| LabData.DeleteTest | src/store/labData.ts:82-88 | true exactly when some test has the id; then the first match is cut out and the rest keep their order; false leaves the store as it was |
| LabData.AddPatient | src/store/labData.ts:95-103 | the new patient is appended with id `P` + three-digit (count + 1), creation time `now` and the submitted fields |
| LabDataIds.AddPatientsKeepNumbered | src/store/labData.ts:95-103 | patients are never deleted, so after any run of registrations the n-th patient is `P` + three-digit n and patient ids are distinct |
| LabDataIds.InitialPatientIdsDistinct | src/store/labData.ts:57-103 | from the empty patient list, every run of registrations gives distinct patient ids |
| LabData.AddSample | src/store/labData.ts:110-120 | the new sample is appended; its id and barcode are both `SAM` + the last eight digits of the clock (at most 11 characters); received and updated at `now`; every drafted field is kept, processing and completion times and notes included |
| LabData.UpdateSample | src/store/labData.ts:122-132 | unknown id: unchanged and null; otherwise the first match takes every patched field, including any status, and its update time is `now` whatever the patch says |
| LabData.GetSampleById | src/store/labData.ts:134-136 | null exactly when no sample has the id; otherwise the first sample with that id |
| LabData.GetAfterUpdate | src/store/labData.ts:122-136 | a lookup after an update that does not rewrite the id finds exactly what the update returned |
| LabData.UpdateWithoutChanges | src/store/labData.ts:74-80 | an update that patches no field leaves the store as it was |
| LabData.DeleteUndoesAddTest | src/store/labData.ts:65-88 | deleting the id just assigned by `addTest` gives back the original store, when that id was not already in use |
| LabData.AddedSampleFound | src/store/labData.ts:110-136 | when no sample has the new clock-derived id, a lookup by it finds the sample just added |
| LabDataIds.CanonicalDistinct | src/store/labData.ts:68 | tests numbered T001, T002, … by position have pairwise distinct ids |
| LabDataIds.RunKeepsCanonical | src/store/labData.ts:65-88 | any sequence of adds and id-preserving updates keeps positional numbering, hence distinct ids |
| LabDataIds.InitialRunsKeepIdsDistinct | src/store/labData.ts:24-88 | from the three seeded tests, without deletes, ids never collide |
| LabDataIds.DeleteThenAddReusesId | src/store/labData.ts:65-88 | deleting T001 and then adding gives the new test T003, which the remaining seeded test already has |
| LabDataIds.AddTestFresh | src/store/labData.ts:65-72 | the corrected add: the store carries a counter of the test numbers handed out; the new test is numbered past both the counter and every number in use, so it differs from every live id, and the counter moves up to its number |
| LabDataIds.AddTestFreshKeepsDistinct | src/store/labData.ts:65-72 | the corrected add preserves distinct ids from any state |
| LabDataIds.FreshAgreesWhileCanonical | src/store/labData.ts:65-72 | while the tests are numbered by position and the counter has not passed the count (nothing deleted yet), the corrected add gives exactly the store and test `addTest` gives |
| LabDataIds.InitialFreshRunsAgree | src/store/labData.ts:24-88 | from the seeded store, without deletes or id rewrites, runs with the corrected add end in the same store as runs with `addTest` |
| LabDataIds.StepFresh | src/store/labData.ts:65-88 | only an add moves the counter, and always upwards; updates and deletes leave it alone |
| LabDataIds.IssuedNumbersIncrease | src/store/labData.ts:65-88 | along any run, deletes and id rewrites included, the adds hand out numbers above the starting counter, each above all numbers handed out before it |
| LabDataIds.IssuedIdsDistinct | src/store/labData.ts:65-88 | the ids handed out along any run are pairwise distinct and differ from every id numbered at or below the starting counter |
| LabDataIds.InitialFreshRunsNeverReissue | src/store/labData.ts:24-88 | from the seeded store, no run hands out an id twice or hands out a seeded test's id, even after that test was deleted |
| LabDataIds.RunFreshKeepsDistinct | src/store/labData.ts:65-88 | with the corrected add, any mix of adds, deletes and id-preserving updates keeps ids distinct |
| LabDataIds.InitialFreshRunsKeepIdsDistinct | src/store/labData.ts:24-88 | from the seeded store, runs with the corrected add never produce a repeated id, deletes included |
| LabDataIds.DeleteKeepsDistinct | src/store/labData.ts:86 | cutting one test out of a list with distinct ids leaves distinct ids |
| LabDataIds.FreshAvoidsCollision | src/store/labData.ts:65-88 | after deleting T001 the corrected add picks T004 and ids stay distinct |
| LabDataIds.FreshSkipsDeletedId | src/store/labData.ts:65-88 | after deleting T003, whose number `addTest` would hand out again, the corrected add picks T004 |
| Text.PrefixedIdInjective | src/store/labData.ts:68 | prefix + `padStart(3, '0')` ids are equal exactly when their numbers are |
| Text.ParsePad3 | src/store/labData.ts:68 | the zero-padded string still denotes the number it was made from |
| Text.Last8 | src/store/labData.ts:113 | `slice(-8)`: a suffix of the string, of length eight or the whole string when shorter |
| Text.Contains | src/components/sample-management/TestCatalog.tsx:84-85 | `includes`: the recursive test; `ContainsIffOccurs` relates it to occurrence at a position |
| Text.ContainsIffOccurs | src/components/sample-management/TestCatalog.tsx:84-85 | the needle is found exactly when it is the slice of the hay at some position |
| Text.Matches | src/components/sample-management/TestCatalog.tsx:84-85 | the search test every list filter repeats: the lower-cased term occurs in the lower-cased field; `MatchesIgnoresCase` and `EmptyTermMatchesAll` state its properties |
| Text.MatchesIgnoresCase | src/components/sample-management/TestCatalog.tsx:84-85 | lower-casing either side first changes no answer, and a match is an occurrence of the lower-cased term at some position of the lower-cased field |
| Text.EmptyTermMatchesAll | src/components/sample-management/TestCatalog.tsx:84-85 | the empty search term matches every field |
| Results.IsAbnormal | src/components/results/ResultEntry.tsx:59 | the abnormal flag: a reading below the normal minimum or above its maximum; a NaN reading, for which every comparison is false, is never abnormal |
| Results.IsCritical | src/components/results/ResultEntry.tsx:60-61 | the critical flag: only a parameter with a critical range raises it, for a reading outside that range; NaN never raises it |
| Results.CriticalImpliesAbnormal | src/components/results/ResultEntry.tsx:58-61 | when the critical range encloses the normal one, a critical reading is abnormal too |
| Results.CbcRangesNested | src/components/results/ResultEntry.tsx:16-52 | each of the five blood-count parameters has a critical range enclosing its normal range |
| Results.ParamIndex | src/components/results/ResultEntry.tsx:55-56 | -1 exactly for an unknown parameter, else the first parameter with the id |
| Results.UpdateResult | src/components/results/ResultEntry.tsx:54-80 | unknown parameter: nothing changes; an existing entry is reclassified in place, the others kept; otherwise one classified entry is appended |
| Results.UpdateKeepsKeyed | src/components/results/ResultEntry.tsx:63-79 | the list keeps at most one entry per parameter, and a known parameter has an entry afterwards |
| Results.BadgeAfterUpdate | src/components/results/ResultEntry.tsx:54-93 | after recording a reading the badge is its severity: Critical over Abnormal over Normal |
| Results.StatusBadge | src/components/results/ResultEntry.tsx:82-93 | no badge exactly when the parameter has no entry; otherwise the first entry's flags pick Critical over Abnormal over Normal |
| Results.NaNReadingBadgeNormal | src/components/results/ResultEntry.tsx:58-93 | text that does not parse reads as NaN, so recording it for a known parameter clears both flags and the badge reads Normal |
| Results.CountsPartition | src/components/results/ResultEntry.tsx:95-96 | critical, abnormal-only and the subtracted "normal" figure partition the entries; "normal" is the count of unflagged entries and never negative |
| Results.CriticalCount | src/components/results/ResultEntry.tsx:95 | the number of entries flagged critical; `CountsPartition` relates it to the other two figures |
| Results.AbnormalCount | src/components/results/ResultEntry.tsx:96 | the number of entries flagged abnormal but not critical; `CountsPartition` relates it to the other two figures |
| Results.NormalCount | src/components/results/ResultEntry.tsx:147 | the "normal" figure as the screen computes it, by subtracting the other two from the entry count; `CountsPartition` shows it counts the unflagged entries |
| Results.WhiteCellExamples | src/components/results/ResultEntry.tsx:17-22 | white cells: 7000 gets a Normal badge, 12000 Abnormal, 25000 Critical |
| TemplateBuilder.SectionIndex | src/components/reports/ReportTemplateBuilder.tsx:90 | -1 exactly when no section has the id, else the first match |
| TemplateBuilder.AddSection | src/components/reports/ReportTemplateBuilder.tsx:68-77 | one section appended: id from the clock, title "New " + kind, empty content, order one past the count |
| TemplateBuilder.DeleteUndoesAdd | src/components/reports/ReportTemplateBuilder.tsx:68-81 | deleting the section just added, when its clock id was not in use, gives back the list before the add |
| TemplateBuilder.DeleteSection | src/components/reports/ReportTemplateBuilder.tsx:79-81 | exactly the sections without the id remain, in order; an absent id changes nothing |
| TemplateBuilder.UpdateSection | src/components/reports/ReportTemplateBuilder.tsx:83-87 | sections with the id get the named field; every other field and section is unchanged |
| TemplateBuilder.UpdateSectionIdempotent | src/components/reports/ReportTemplateBuilder.tsx:83-87 | writing the same value to the same field again changes nothing |
| TemplateBuilder.MoveSection | src/components/reports/ReportTemplateBuilder.tsx:89-100 | swaps with the neighbour when there is one, otherwise unchanged; always a permutation; fails only on a move down of an absent id in a non-empty list |
| TemplateBuilder.UpThenDownRestores | src/components/reports/ReportTemplateBuilder.tsx:89-100 | moving a section that is not first up and then down again restores the list, even when ids repeat |
| TemplateBuilder.DeleteThenAddRepeatsOrder | src/components/reports/ReportTemplateBuilder.tsx:68-81 | delete does not renumber: deleting section "1" and adding one leaves two sections with order 2 |
| AdvancedTemplates.TemplateIndex | src/components/reports/AdvancedReportTemplates.tsx:588 | -1 exactly when no template has the id, else the first match |
| AdvancedTemplates.SectionIndex | src/components/reports/AdvancedReportTemplates.tsx:633 | -1 exactly when no section has the id, else the first match |
| AdvancedTemplates.FilteredTemplates | src/components/reports/AdvancedReportTemplates.tsx:580-583 | exactly the templates whose name or category contains the term (ASCII case ignored), in order; the empty term keeps all |
| AdvancedTemplates.DuplicateTemplate | src/components/reports/AdvancedReportTemplates.tsx:587-605 | missing id: no change; else a copy named the original's name + " (Copy)", not default, unused, created `now`, with the same sections and id `TPL` + (count + 1), is appended |
| AdvancedTemplates.DeleteTemplate | src/components/reports/AdvancedReportTemplates.tsx:607-625 | a default first match or a declined dialog changes nothing; otherwise exactly the templates with other ids remain, in order |
| AdvancedTemplates.DefaultTemplatesSurvive | src/components/reports/AdvancedReportTemplates.tsx:607-625 | with distinct ids no delete removes a default template |
| AdvancedTemplates.Renumber | src/components/reports/AdvancedReportTemplates.tsx:643-645 | each section's order becomes its position plus one, nothing else changes |
| AdvancedTemplates.MoveWithin | src/components/reports/AdvancedReportTemplates.tsx:632-648 | only the sections change and their number stays the same; at an end, or moving up a section the template lacks, the template is unchanged |
| AdvancedTemplates.MoveWithinSwaps | src/components/reports/AdvancedReportTemplates.tsx:632-648 | when the section has a neighbour in the direction of the move, the two trade places and every section is renumbered by its position |
| AdvancedTemplates.MoveWithinPermutesIds | src/components/reports/AdvancedReportTemplates.tsx:632-648 | a move keeps the same multiset of section ids |
| AdvancedTemplates.MoveSection | src/components/reports/AdvancedReportTemplates.tsx:627-651 | templates with the id get the move, every other template is left exactly as it was; fails exactly when a targeted template cannot be moved |
| AdvancedTemplates.DeleteThenDuplicateReusesId | src/components/reports/AdvancedReportTemplates.tsx:587-625 | when the last template is numbered by the count, delete-then-duplicate gives the copy the last template's id |
| AdvancedTemplates.DeleteKeepsLast | src/components/reports/AdvancedReportTemplates.tsx:607-625 | deleting a template other than the last removes exactly one and keeps the last one last |
| TestCatalog.HandleAddTest | src/components/sample-management/TestCatalog.tsx:98-142 | a form missing name, category or description changes nothing; otherwise one active item with the form's fields and id `T` + (count + 1) is appended, and the form is cleared and closed |
| TestCatalog.DeleteUndoesAdd | src/components/sample-management/TestCatalog.tsx:98-190 | a confirmed delete of the id just added restores the list, when that id was not already in use |
| TestCatalog.HandleEditTest | src/components/sample-management/TestCatalog.tsx:144-170 | nothing being edited: no change; else items with the edited id become the edited item updated `now`, the others stay, and editing ends |
| TestCatalog.EditKeepsIds | src/components/sample-management/TestCatalog.tsx:144-170 | saving an edit keeps the list's length and every item's id in place, so distinct ids stay distinct |
| TestCatalog.SaveEditTwice | src/components/sample-management/TestCatalog.tsx:144-170 | saving the same edit again at the same time changes nothing more |
| TestCatalog.HandleDeleteTest | src/components/sample-management/TestCatalog.tsx:172-190 | declined: no change; confirmed: exactly the items with other ids remain, in order |
| TestCatalog.HandleToggleStatus | src/components/sample-management/TestCatalog.tsx:192-200 | items with the id flip their active flag and are updated `now`; test definitions and other items are unchanged |
| TestCatalog.ToggleTwiceRestores | src/components/sample-management/TestCatalog.tsx:192-200 | toggling twice restores every item except its update time |
| TestCatalog.FilteredTests | src/components/sample-management/TestCatalog.tsx:83-86 | exactly the items whose name or category contains the term, in order; the empty term keeps all |
| Notifications.MarkAsRead | src/components/common/Notifications.tsx:98-106 | notifications with the id become read; nothing else changes |
| Notifications.MarkAllAsRead | src/components/common/Notifications.tsx:108-112 | every notification becomes read; nothing else changes |
| Notifications.DeleteNotification | src/components/common/Notifications.tsx:114-118 | exactly the notifications with other ids remain, in order |
| Notifications.UnreadCount | src/components/common/Notifications.tsx:120 | at most the list length, and zero exactly when everything is read |
| Notifications.MarkAsReadUnreadCount | src/components/common/Notifications.tsx:98-120 | marking an id read lowers the unread count by exactly the unread notifications with that id |
| Notifications.MarkAsReadIdempotent | src/components/common/Notifications.tsx:98-106 | marking the same id read twice is the same as once |
| Notifications.MarkAllAsReadClears | src/components/common/Notifications.tsx:108-120 | after marking all read the count is zero and further marks change nothing |
| Notifications.DeleteUnreadCount | src/components/common/Notifications.tsx:114-120 | deleting an id lowers the unread count by exactly the unread notifications with that id |
| Notifications.FormatTimestamp | src/components/common/Notifications.tsx:122-135 | minutes below one hour (the future included), hours below a day, days beyond; each is the floor of the elapsed time in its unit |
| Notifications.NestedFloorDays | src/components/common/Notifications.tsx:124-132 | flooring to hours and then to days equals flooring straight to days |
| RequestTest.ToggleTest | src/components/doctor/RequestTest.tsx:30-36 | a ticked id is removed (every occurrence), the rest kept in order; an unticked id is appended |
| RequestTest.PriceOf | src/components/doctor/RequestTest.tsx:40-41 | the price of the first listed test with the id, and 0 for an unlisted id |
| RequestTest.TotalCost | src/components/doctor/RequestTest.tsx:38-43 | the ticked ids' prices summed, one term per ticked id; `TickAddsPrice`, `UntickRemovesPrice` and `UnlistedCostsNothing` state how it moves |
| RequestTest.TickAddsPrice | src/components/doctor/RequestTest.tsx:30-43 | ticking an unticked test raises the total by its price |
| RequestTest.UntickRemovesPrice | src/components/doctor/RequestTest.tsx:30-43 | unticking a ticked test in a repeat-free selection lowers the total by its price |
| RequestTest.ToggleKeepsNoDuplicates | src/components/doctor/RequestTest.tsx:30-36 | a toggle never introduces a repeated id |
| RequestTest.ReachableSelectionsNoDuplicates | src/components/doctor/RequestTest.tsx:30-36 | any sequence of toggles from a repeat-free selection stays repeat-free |
| RequestTest.FromEmptyNoDuplicates | src/components/doctor/RequestTest.tsx:13-36 | every selection reachable from the empty initial one is repeat-free |
| RequestTest.TickThenUntickRestores | src/components/doctor/RequestTest.tsx:30-36 | ticking and then unticking a test restores the selection |
| RequestTest.PriceOfListed | src/components/doctor/RequestTest.tsx:38-43 | with distinct ids a listed test is charged exactly its listed price |
| RequestTest.AvailableTestsDistinct | src/components/doctor/RequestTest.tsx:21-28 | the six orderable tests have distinct ids |
| RequestTest.UnlistedCostsNothing | src/components/doctor/RequestTest.tsx:38-43 | appending an id that no listed test has leaves the total cost as it was |
| RequestTest.TickingT007CostsNothing | src/components/doctor/RequestTest.tsx:21-43 | T007 is not on the form's list, so ticking it adds nothing to the total |
| Finance.NetProfit | src/components/finance/FinanceDashboard.tsx:95-97 | income less expenses equals the signed sum of all records |
| Finance.TotalIncome | src/components/finance/FinanceDashboard.tsx:83-87 | the sum of the income records' amounts; `TotalsCoverAllRecords` and `NetAfterAppend` state its properties |
| Finance.TotalExpenses | src/components/finance/FinanceDashboard.tsx:89-93 | the sum of the expense records' amounts; `TotalsCoverAllRecords` and `NetAfterAppend` state its properties |
| Finance.TotalsCoverAllRecords | src/components/finance/FinanceDashboard.tsx:83-93 | the income and expense totals together account for every record's amount |
| Finance.NetAfterAppend | src/components/finance/FinanceDashboard.tsx:83-97 | adding a record moves the net by its signed amount |
| Finance.FilteredRecords | src/components/finance/FinanceDashboard.tsx:99-104 | exactly the records whose description or category contains the term and whose category the choice admits, in order |
| Finance.MockTotals | src/components/finance/FinanceDashboard.tsx:35-97 | for the five mock records: income 7200, income plus expenses 11400, net 3000 |
| SampleTracking.FilteredSamples | src/components/sample-management/SampleTracking.tsx:95-104 | exactly the samples whose id, patient or test name contains the term and whose status the choice admits, in order |
| SampleTracking.StatusNamesDistinct | src/types/sample.ts:18 | the four status names are distinct and none is "all" |
| SampleTracking.FilterByStatus | src/components/sample-management/SampleTracking.tsx:101 | choosing a status name shows exactly the matching samples with that status |
| SampleTracking.TimeElapsed | src/components/sample-management/SampleTracking.tsx:106-116 | hours shown exactly when at least an hour has passed, and then the floor hours and minutes-of-hour; future receipt times give zero or negative minutes |
| Time.JsRem | src/components/sample-management/SampleTracking.tsx:110 | JavaScript's remainder: the sign of the dividend, magnitude below the divisor |
| Time.FloorDiv | src/components/sample-management/SampleTracking.tsx:109-110 | `Math.floor(a / d)`: the greatest whole number of `d` not exceeding `a`, also used for the notification timestamps |
| SampleTracking.ProgressTimeline | src/components/sample-management/SampleTracking.tsx:260-271 | received always done; processing done with a processing time, in progress while status is processing, else pending; completed done exactly with a completion time |
| SampleTracking.EstimatedCompletion | src/components/sample-management/SampleTracking.tsx:274-277 | shown exactly for a processing sample, at receipt plus the test duration in minutes |
| SampleTracking.TimelineAgreesWithEstimate | src/components/sample-management/SampleTracking.tsx:260-277 | a processing step in progress always comes with an estimate; before a processing time is recorded, the estimate is shown exactly when the step is in progress |
| SampleTracking.ElapsedAtEstimate | src/components/sample-management/SampleTracking.tsx:106-116 | at the estimated completion the elapsed label reads the duration split into hours and minutes |
| Inventory.FilteredInventory | src/components/inventory/InventoryManagement.tsx:96-104 | exactly the items whose name or SKU contains the term and whose category the choice admits, in order |
| Inventory.DaysUntilExpiry | src/components/inventory/InventoryManagement.tsx:106-112 | none without an expiry date, else the time to expiry in days rounded up |
| Inventory.ExpiresThisWeek | src/components/inventory/InventoryManagement.tsx:118-121 | the "expiring this week" test: a day count from zero to seven; `ExpiryWindow` states it in clock terms |
| Time.CeilDiv | src/components/inventory/InventoryManagement.tsx:110 | `Math.ceil(a / d)`: the least whole number of `d` that covers `a` |
| Inventory.ExpiryWindow | src/components/inventory/InventoryManagement.tsx:118-121 | expiring this week exactly when the expiry lies after one day ago and at most seven days ahead |
| Inventory.InventoryStats | src/components/inventory/InventoryManagement.tsx:114-122 | total is every item; low stock and expired are the lengths of the filters on those stored labels, so together at most the total; expiring at most the total |
| Inventory.ExpiringCardCount | src/components/inventory/InventoryManagement.tsx:114-122 | the expiring card counts exactly the items whose expiry lies after one day ago and at most seven days ahead |
| Inventory.StatsIgnoreStockLevels | src/components/inventory/InventoryManagement.tsx:114-122 | the cards read stored labels: changing stock numbers alone changes no card |
| Inventory.ExpiryLine | src/components/inventory/InventoryManagement.tsx:255-266 | negative days read "expired n days ago" with n positive, zero "expires today", else days remaining; red past, orange up to seven, green beyond |
| Inventory.ExpiringCardMatchesOrange | src/components/inventory/InventoryManagement.tsx:255-266 | an item is on the "expiring this week" card exactly when its expiry line is orange |
| Equipment.FilteredEquipment | src/components/inventory/EquipmentTracking.tsx:117-126 | exactly the instruments whose name, model or serial contains the term and whose status the choice admits, in order |
| Equipment.DaysUntilMaintenance | src/components/inventory/EquipmentTracking.tsx:128-133 | the time to the next service in days, rounded up |
| Equipment.NeedsMaintenance | src/components/inventory/EquipmentTracking.tsx:138-141 | the maintenance-card test: service due in at most seven days, overdue included; `NeedsMaintenanceWindow` states it in clock terms |
| Equipment.NeedsMaintenanceWindow | src/components/inventory/EquipmentTracking.tsx:138-141 | needs maintenance exactly when the service is at most seven days ahead, overdue included |
| Equipment.EquipmentStats | src/components/inventory/EquipmentTracking.tsx:135-143 | total is every instrument; operational and out of service are the lengths of the filters on those statuses, so together at most the total; due for service at most the total |
| Equipment.MaintenanceCardCount | src/components/inventory/EquipmentTracking.tsx:135-143 | the maintenance card counts exactly the instruments whose service is at most seven days ahead, overdue ones included |
| Equipment.OverdueNeedMaintenance | src/components/inventory/EquipmentTracking.tsx:135-143 | every overdue instrument is counted on the maintenance card |
| Equipment.ServiceLine | src/components/inventory/EquipmentTracking.tsx:271-282 | negative days read "overdue by n" with n positive, zero "due today", else the days ahead; red overdue, green beyond seven days |
| Equipment.NeedsMaintenanceIffNotGreen | src/components/inventory/EquipmentTracking.tsx:271-282 | an instrument is on the maintenance card exactly when its service line is not green |
| NewStudy.HandleDataTypeChange | src/components/researcher/NewStudy.tsx:37-49 | a tick appends the type, repeats allowed; an untick removes every occurrence, keeping the rest in order; other fields are unchanged |
| NewStudy.IsFormValid | src/components/researcher/NewStudy.tsx:56-59 | the submit check: the five required text fields are all non-empty; `ValidityNeedsRequiredFields` and `DataTypeChangeKeepsValidity` state its properties |
| NewStudy.ValidityNeedsRequiredFields | src/components/researcher/NewStudy.tsx:56-59 | the empty form is invalid; the five required fields suffice and the other fields do not matter |
| NewStudy.DataTypeChangeKeepsValidity | src/components/researcher/NewStudy.tsx:37-59 | ticking or unticking data types never changes whether the form can be submitted |
| NewStudy.TickThenUntickRestores | src/components/researcher/NewStudy.tsx:37-49 | ticking a new type and then unticking it restores the form |
| NewStudy.UntickRemovesEveryTick | src/components/researcher/NewStudy.tsx:37-49 | one untick removes a type however many times it was ticked |

## Left out

- Rendering, toasts, colours as CSS classes, icons and layout are left out. The day-count lines keep only their text and their red/orange/green tone.
- Clocks: `new Date()` and `Date.now()` are `now`, `today` or `stamp` parameters. `addSample` reads the clock four times, and the model uses one reading for all four.
- `window.confirm` is the boolean `confirmed`.
- Floating point is left out:
  - prices and amounts are whole numbers, with the request form's prices in cents;
  - readings are exact reals, or NaN;
  - `parseFloat` itself is not modelled, and its result is the `Reading` argument.
- Date formatting (`toLocaleDateString`, `toLocaleTimeString`) and the string templates of the labels are left out. Labels are datatypes that carry their numbers.
- `getTests`, `getPatients` and `getSamples` return copies; in a value model the copy is the list itself.
- Text.Lower: `toLowerCase` is modelled on ASCII letters only, with no Unicode case mapping.
- AdvancedTemplates.MoveSection: the source copies each template's section array but mutates the shared section objects (`section.order = …`), and a duplicate shares its sections with the original. The model has value semantics, so a renumbering never leaks into a duplicate.
- TemplateBuilder.UpdateSection: the field is limited to title or content, the two fields the editor binds; the source's computed key could name any field.
- TemplateBuilder.MoveSection, AdvancedTemplates.MoveSection: a move down of an absent section puts `undefined` into the list and crashes later. The model returns `None` instead of modelling the corrupted array.
- The advanced library's template editor (editing a template's sections in place) is not part of this model.
- `SampleResult` is not modelled: a stored sample replaces it with an optional list of result entries (`Results.ResultEntry`). The add and update operations store that list as given, and no store operation reads or checks it.
- `handleUpdateSample` and the `handleSubmit` handlers only log, so they are not modelled.
- Finance's `dateFilter` is set but never read, so it affects nothing. The totals are computed from all records, never from the filtered list.
- Outside this model: the review, report-viewing, report-generator and study-data filters, settings, appointment booking, commission and licensing pages, and the login and signup validators.
- LabData.AddSample: distinctness of clock-derived sample ids is not claimed. Two samples added in the same millisecond, or 10^8 ms apart, share an id; `AddedSampleFound` assumes the new id is free.
- AdvancedTemplates.DefaultTemplatesSurvive: the lemma requires distinct template ids. With repeated ids, a non-default first match lets the filter also remove a later default template with the same id.
- RequestTest.UntickRemovesPrice: the lemma requires a repeat-free selection, which `FromEmptyNoDuplicates` shows every reachable selection is.
- Inventory.InventoryStats, Equipment.EquipmentStats: the low-stock, expired and status cards count stored labels. No relation between a stock label and the stock numbers is claimed, since the source derives none.

## Findings

| source | as written | input that shows it | evidently intended | confidence | as-written member | corrected member |
|---|---|---|---|---|---|---|
| src/store/labData.ts:65-88 | `addTest` numbers the new test `T` + (count + 1), and `deleteTest` shrinks the count | from the three seeded tests, `deleteTest("T001")` then `addTest(…)` gives the new test `T003`, the id of the remaining third seeded test | a new test gets an id never handed out before in the session, not even to a test since deleted (numbered from a counter that deletes do not lower) | not executed | LabDataIds.DeleteThenAddReusesId | LabDataIds.AddTestFresh |
