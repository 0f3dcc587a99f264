# GauRakshak derivation core in Dafny

GauRakshak is a browser client for running a cattle shelter. It keeps an
animal register, the entry/exit movement log, milk production and milk sales,
and a small double-entry finance book with account ledgers. Administrators
also approve users, renew maintenance contracts (AMC), answer support tickets
and back up or restore everything. Each screen subscribes to a collection,
derives what it shows in memory and writes documents. This project models
that derivation code and the write rules as pure functions over immutable
data, and proves what the screens promise of them.

Conventions:
- Days are whole days since 1970-01-01 (`Calendar.Day`).
- Instants are milliseconds (`Calendar.Instant`).
- Money and milk quantities are integers in minor units.
- Store collections are sequences in the order the store's query returns
  them, which is document-id order. Generated ids are random, so for the
  movement log, whose status rule breaks date ties by that order, a new
  document's place is a parameter (`at`, the number of documents before it).
  Elsewhere (animals, imports, milk sales, finance records) a new document
  is appended at the end; no contract there depends on where it goes.
- A write is a function from the old collection to the new one, or returns
  the documents a batch writes.
- Document ids the store would assign, the clock ("now") and the current year
  are parameters.
- Validation failures are `Result.Failure` carrying the message the screen
  shows.

Modules, one per file:
- Shared: `Wrappers`, `Text` (the string functions the screens use:
  `toLowerCase`, `includes`, `split`/`join`, `padStart`, `parseInt`), `Seqs`
  (filter, stable sort by key, latest-in-order, first match, maximum),
  `Calendar` and `Domain` (the records of `src/lib/types.ts`).
- Per screen: `Herd` (as-of presence from the movement log), `Ledger`,
  `Reports`, `Movements`, `Milk`, `Finance`, `Animals`, `Users`, `Backup`,
  `Support`, `Renewals`, `Nav` and `Access` (signup and the sign-in gate).

## Model

| member | source | states |
|---|---|---|
| Ledger.Compute | src/app/dashboard/ledger/page.tsx:101-177 | No account selected gives no rows and zero balances; without a start day the opening is 0; every row is a record of the account inside the inclusive window, rows in ascending day order |
| Ledger.RowDescription | src/app/dashboard/ledger/page.tsx:156-159 | A credit milk sale (category Milk Sale, type not Receipt) is shown as `Inv#<invoice number>: <quantity>L @ ₹<rate>`, with a missing invoice number shown as empty and a missing quantity or rate as 0; any other record keeps its stored description |
| Ledger.InvoiceLineReadsBack | src/app/dashboard/ledger/page.tsx:156-159 | The invoice line gives back its invoice number, quantity and rate, provided the invoice number holds no ':' and the amounts are not negative |
| Ledger.Annotate | src/app/dashboard/ledger/page.tsx:149-155 | Each row carries its record; credit is the amount exactly for a Receipt and debit otherwise; each balance is the previous balance plus that row's credit minus debit |
| Ledger.RowsAreWindowedAccountRecords | src/app/dashboard/ledger/page.tsx:106-113 | The rows are exactly the account's records (for `cash-customer`: every Milk Sale receipt or credit sale) inside the window, sorted stably by day |
| Ledger.RowsPermuteAndKeepOrder | src/app/dashboard/ledger/page.tsx:113 | The rows are a permutation of the matching records, and records on the same day keep their input order |
| Ledger.OpeningIsNetBefore | src/app/dashboard/ledger/page.tsx:115-131 | With a start day the opening balance is the net (credit − debit) of the account's records dated strictly before it |
| Ledger.AnnotateBalance | src/app/dashboard/ledger/page.tsx:149-155 | Row i's balance is the start balance plus the net of rows 0..i |
| Ledger.RowBalanceIsPrefixSum | src/app/dashboard/ledger/page.tsx:149-155 | On the screen, row i's balance is the opening plus the net of the rows up to i |
| Ledger.ClosingIsOpeningPlusNet | src/app/dashboard/ledger/page.tsx:149-170 | Closing = opening + net of the rows; it is the last row's balance, or the opening when no row is shown |
| Ledger.BalancesClosing | src/app/dashboard/ledger/page.tsx:149-170 | For any window the closing balance is the opening plus the window's net, and with rows it is the last row's balance |
| Ledger.OpeningMatchesEarlierClosing | src/app/dashboard/ledger/page.tsx:115-147 | The opening of a window starting on day D equals the closing of the open-start window ending on D − 1 |
| Ledger.ClosingOverAllTime | src/app/dashboard/ledger/page.tsx:115-170 | With no window, the closing is the net of all the account's records |
| Herd.AnimalById | src/app/dashboard/movement/page.tsx:171 | The lookup by id returns the last roster animal with that id, None when there is none |
| Herd.LatestMovement | src/app/dashboard/movement/page.tsx:178-187 | The last movement of the animal in stable date order: none exactly when the animal never moved |
| Herd.StatusIsLatestEntry | src/app/dashboard/movement/page.tsx:178-198 | An animal is in exactly when its latest movement (greatest date, last among equals) is an Entry |
| Herd.NoMovementIsOut | src/app/dashboard/movement/page.tsx:189-191 | An animal without movements is out |
| Herd.StatusAfterRecording | src/app/dashboard/movement/page.tsx:162-198 | After recording a movement dated later than every other movement of the animal, its status is that movement's direction, wherever the new document falls in the query order |
| Herd.StatusAfterAppending | src/app/dashboard/movement/page.tsx:178-198 | A movement that comes last in the query order and is dated no earlier than the animal's other movements sets the animal's status, date ties included |
| Herd.TieFollowsQueryOrder | src/app/dashboard/movement/page.tsx:178-198 | On a date tie the query order decides: an Exit dated on the instant of the Entry leaves the animal in when its document comes first, and out when it comes last |
| Herd.PresentBeforeIsStatusOfEarlierLog | src/app/dashboard/reports/page.tsx:433-438 | The reports' opening rule is the movement screen's status rule applied to the movements dated before the start day |
| Herd.NothingBeforeIsAbsent | src/app/dashboard/reports/page.tsx:433-446 | An animal with no movement before the start day is not counted in the opening |
| Reports.Tally | src/app/dashboard/reports/page.tsx:440-444 | Counting an animal adds one to its own gender column and one to its own cohort column (young when at most three years old in the given year) and to no other column, which keeps male + female = young + older |
| Reports.CarryBalanced | src/app/dashboard/reports/page.tsx:476-481 | Closing = opening + in − out preserves male + female = young + old |
| Reports.OpeningCounts | src/app/dashboard/reports/page.tsx:427-446 | Each of the male, female, 0-3 year and over-3 year columns of the first day's opening balance counts the in-scope animals present before that day that belong in the column, aged in that day's year |
| Reports.OpeningCountsTotal | src/app/dashboard/reports/page.tsx:427-446 | The opening head count is the number of in-scope animals whose last movement before the start day is an Entry |
| Reports.DayFlow | src/app/dashboard/reports/page.tsx:460-472 | A day's arrivals and departures each stay balanced: male + female = young + older |
| Reports.DayFlowColumns | src/app/dashboard/reports/page.tsx:460-472 | Each column of a day's arrivals (departures) counts the day's Entry (Exit) movements whose register animal belongs in that column, aged in the day's year |
| Reports.DayFlowCounts | src/app/dashboard/reports/page.tsx:453-472 | A day's in (out) head count is the number of its Entry (Exit) movements of known animals |
| Reports.DayFlowInReasons | src/app/dashboard/reports/page.tsx:471-493 | The arrival reasons are the non-empty reasons of the day's Entry movements, in order |
| Reports.DayFlowOutReasons | src/app/dashboard/reports/page.tsx:471-498 | The departure reasons are the non-empty reasons of the day's Exit movements, in order |
| Reports.RowsOf | src/app/dashboard/reports/page.tsx:449-505 | One row per flow on consecutive days: the first opens with the opening, each closes at opening + in − out, and each next row opens at the previous close |
| Reports.RowsOfBalanced | src/app/dashboard/reports/page.tsx:440-481 | Rows that open balanced over balanced flows stay balanced in every column |
| Reports.DailySummary | src/app/dashboard/reports/page.tsx:415-509 | No rows without a start day; otherwise one row per day from start to end (a single row without an end day), chained day to day |
| Reports.DailyRowsFlow | src/app/dashboard/reports/page.tsx:451-472 | Row k carries the tally of the in-scope movements dated on day start + k |
| Reports.DailyRowsCounts | src/app/dashboard/reports/page.tsx:453-472 | Row k's in (out) count is the number of in-scope Entry (Exit) movements of known animals on that day |
| Reports.DailyRowsReasons | src/app/dashboard/reports/page.tsx:471-498 | Row k lists that day's non-empty reasons in time order |
| Reports.InPeriodIsDayWindow | src/app/dashboard/reports/page.tsx:695-728 | A movement is in the cross-tab period (start of the first day to end of the last) exactly when its day is within the days |
| Reports.CrossOpeningCounts | src/app/dashboard/reports/page.tsx:712-723 | Each gender's opening total is the number of its in-scope animals present before the start, and its 0-3 year and over-3 year columns count those of them in each cohort, aged in the start's year |
| Reports.CrossOpeningTotal | src/app/dashboard/reports/page.tsx:712-723 | One gender's opening total counts the present in-scope animals of that gender |
| Reports.CrossOpeningCohort | src/app/dashboard/reports/page.tsx:712-723 | One cohort column of one gender's opening block counts the present in-scope animals of that gender and cohort |
| Reports.CrossMovesCounts | src/app/dashboard/reports/page.tsx:730-742 | Each block's total is the number of the period's movements of that gender and direction, and its 0-3 year and over-3 year columns count those whose animal is in each cohort in the year of the movement |
| Reports.CrossMovesCohort | src/app/dashboard/reports/page.tsx:730-742 | One cohort column of one block counts the period's movements of that gender and direction whose animal is in that cohort at the movement |
| Reports.Summarize | src/app/dashboard/reports/page.tsx:745-751 | A gender row closes at opening + in − out in every column, and every block's total is its two cohorts |
| Reports.Combine | src/app/dashboard/reports/page.tsx:753-767 | The total row is male + female in every number, reasons male first |
| Reports.CrossTabReport | src/app/dashboard/reports/page.tsx:686-772 | None without a start day; otherwise every row is consistent |
| Reports.CrossTabRow | src/app/dashboard/reports/page.tsx:710-751 | A gender's row is the summary of its opening block and its period movements |
| Reports.CrossTabOpening | src/app/dashboard/reports/page.tsx:712-723 | On the report, each gender's opening total counts its in-scope animals present before the start |
| Reports.CrossTabFlows | src/app/dashboard/reports/page.tsx:725-742 | On the report, each gender's in (out) total counts the period's Entry (Exit) movements of that gender |
| Reports.EarliestEntry | src/app/dashboard/reports/page.tsx:944-948 | The check-in kept is the animal's earliest Entry, the first one on ties; none when it has none |
| Reports.LatestExit | src/app/dashboard/reports/page.tsx:949-953 | The check-out kept is the animal's latest exit, the first one on ties; none when it has none |
| Reports.DetailFor | src/app/dashboard/reports/page.tsx:957-966 | A row carries the animal, its age in the given year, and the check-in and check-out days and reason of those movements |
| Reports.DetailedReport | src/app/dashboard/reports/page.tsx:936-970 | One row per register animal with at least one movement; the row of the k-th such animal in register order is that animal's detail row, at position k |
| Reports.DetailedReportMembers | src/app/dashboard/reports/page.tsx:956-957 | Every register animal with a movement has a row, and every row's animal has a movement |
| Reports.AgeBucketsPartition | src/app/dashboard/reports/page.tsx:67-71 | Every age falls in exactly one of the buckets 0–2, 3–5, 6–10 and over 10 |
| Reports.Registry | src/app/dashboard/reports/page.tsx:59-76 | The register report lists exactly the animals that pass all five pickers, each once and in register order |
| Reports.RegistryAllKeepsAll | src/app/dashboard/reports/page.tsx:62-67 | With every picker on All the whole register is listed |
| Reports.RegistryByAge | src/app/dashboard/reports/page.tsx:67-74 | Narrowing the age picker from All keeps exactly the listed animals of that age bucket |
| Movements.Candidates | src/app/dashboard/movement/page.tsx:200-209 | In edit mode every animal is offered; in create mode an Entry offers exactly the animals that are out and an Exit exactly those that are in |
| Movements.CandidatesPartition | src/app/dashboard/movement/page.tsx:200-209 | In create mode every animal is offered for exactly one direction |
| Movements.CandidateFlips | src/app/dashboard/movement/page.tsx:178-209 | Recording a movement for an offered animal, dated later than the animal's other movements, flips its status wherever the new document falls in the query order |
| Movements.TagFor | src/app/dashboard/movement/page.tsx:171-174 | The tag shown is the roster animal's tag, or 'Unknown' when the animal is missing |
| Movements.WithTags | src/app/dashboard/movement/page.tsx:169-176 | The log is kept in order, each movement with its joined tag |
| Movements.Search | src/app/dashboard/movement/page.tsx:211-218 | An empty term keeps all movements; otherwise exactly those whose tag contains the term, ignoring case |
| Movements.MissingAnimalFoundAsUnknown | src/app/dashboard/movement/page.tsx:173-218 | A movement of a missing animal is found by searching for "unknown" |
| Movements.TabsPartition | src/app/dashboard/movement/page.tsx:220-221 | The Entries and Exits tabs split the searched list by type |
| Movements.ChangeType | src/app/dashboard/movement/page.tsx:240-242 | Switching direction sets the type and clears the animal, keeping the other fields |
| Movements.Submit | src/app/dashboard/movement/page.tsx:249-263 | Missing animal, date or reason writes nothing; create adds the movement under the new id at its place in the query order and leaves the others in order; edit replaces the selected one only |
| Movements.ChangeTypeBlocksSubmit | src/app/dashboard/movement/page.tsx:240-252 | After a change of direction the form cannot be saved until an animal is picked again |
| Movements.SubmitCandidateFlips | src/app/dashboard/movement/page.tsx:200-258 | Saving a new movement for an offered animal, dated later than the animal's other movements, flips its status wherever the new document falls |
| Movements.Delete | src/app/dashboard/movement/page.tsx:274-279 | Deleting removes exactly the records with that id and keeps every other record once, in its order |
| Milk.MilkingCows | src/app/dashboard/milk-records/page.tsx:167-194 | The offered animals are exactly the present female cows and buffaloes, each once, in roster order |
| Milk.MilkingCowsAreExitCandidates | src/app/dashboard/milk-records/page.tsx:167-194 | A milking animal is one the movement screen offers for an Exit |
| Milk.InDateRange | src/app/dashboard/milk-records/page.tsx:196-215 | No bounds keeps every record; otherwise exactly the records whose day lies within the inclusive bounds, each once, in order |
| Milk.AddRecord | src/app/dashboard/milk-records/page.tsx:217-236 | One reduce step puts the record into its day's group and session list, and day keys stay distinct |
| Milk.Group | src/app/dashboard/milk-records/page.tsx:217-236 | The grouping has distinct day keys |
| Milk.GroupContents | src/app/dashboard/milk-records/page.tsx:217-236 | Every group holds exactly its day's records, split by session, in list order |
| Milk.GroupCoversRecords | src/app/dashboard/milk-records/page.tsx:217-236 | Every record's day has a group |
| Milk.GroupDatesOccur | src/app/dashboard/milk-records/page.tsx:217-236 | Every group's day is the day of some record |
| Milk.GroupTotalsSum | src/app/dashboard/milk-records/page.tsx:217-236 | The range total equals the sum of the day totals |
| Milk.SessionsSplitTotal | src/app/dashboard/milk-records/page.tsx:217-236 | A day's total is its morning sum plus its evening sum |
| Milk.DatesDescending | src/app/dashboard/milk-records/page.tsx:238 | The listed days are the group days, latest first |
| Milk.AddStaged | src/app/dashboard/milk-records/page.tsx:250-265 | A missing animal, a quantity ≤ 0 or an already staged animal is rejected; otherwise exactly one row is appended |
| Milk.AddStagedKeepsDistinct | src/app/dashboard/milk-records/page.tsx:250-265 | The staged list never names an animal twice |
| Milk.RemoveStaged | src/app/dashboard/milk-records/page.tsx:267-272 | Removing drops that animal's row and keeps every other row once, in order |
| Milk.RemoveUndoesAdd | src/app/dashboard/milk-records/page.tsx:250-272 | Removing a row just added restores the list |
| Milk.SubmitProduction | src/app/dashboard/milk-records/page.tsx:279-302 | An empty list is rejected; otherwise one record per staged row, all with the chosen date and session |
| Milk.SubmitKeepsTotal | src/app/dashboard/milk-records/page.tsx:279-302 | The batch records the dialog's running total |
| Milk.MaxInvoice | src/app/dashboard/milk-records/page.tsx:488-491 | The largest numerically parseable invoice number, None when there is none |
| Milk.NextInvoiceNo | src/app/dashboard/milk-records/page.tsx:488-492 | "1" without parseable invoices, otherwise one more than the largest |
| Milk.NextInvoiceIsNew | src/app/dashboard/milk-records/page.tsx:488-492 | The proposed number repeats no existing parseable invoice number |
| Milk.Priced | src/app/dashboard/milk-records/page.tsx:126-129 | The amount is quantity × rate |
| Milk.SaleRecord | src/app/dashboard/milk-records/page.tsx:393-405 | The type is Receipt exactly for the Cash Customer, otherwise Milk Sale; the category is always Milk Sale |
| Milk.SaveSale | src/app/dashboard/milk-records/page.tsx:381-424 | Missing customer, zero amount or missing date writes nothing; a form with no customer key carries an undefined account id and fails with "Failed to record milk sale."; otherwise a new sale is appended and an edit replaces the selected record only |
| Milk.SaleEditForm | src/app/dashboard/milk-records/page.tsx:480-486 | The dialog opened on a stored sale shows its name, amount and day, and has no customer key |
| Milk.UnpickedSaleEditFails | src/app/dashboard/milk-records/page.tsx:381-486 | Saving an opened sale without picking its customer again always fails, so the stored sale stays as it was |
| Milk.RepickedSaleEditSaves | src/app/dashboard/milk-records/page.tsx:381-424 | Once a customer (or the cash customer) is picked again, a complete edit saves |
| Milk.SaleAmountIsQuantityTimesRate | src/app/dashboard/milk-records/page.tsx:386-405 | A priced sale is recorded at quantity × rate |
| Milk.CashSaleCreditsCashLedger | src/app/dashboard/milk-records/page.tsx:395-396 | A cash sale is a credit in the cash-customer ledger |
| Milk.NamedSaleDebitsCustomer | src/app/dashboard/milk-records/page.tsx:395-400 | A named-customer sale is a debit in that customer's ledger and also appears in the cash-customer ledger |
| Milk.MilkSales | src/app/dashboard/milk-records/page.tsx:155 | The sales list is exactly the records in category Milk Sale |
| Finance.Tab | src/app/dashboard/finance/page.tsx:136-138 | A tab holds exactly the records of its type, each once, in order |
| Finance.ToAccounts | src/app/dashboard/finance/page.tsx:139-142 | The To picker lists exactly the customer and bank accounts |
| Finance.FromAccounts | src/app/dashboard/finance/page.tsx:139-142 | The From picker lists exactly the expense and bank accounts |
| Finance.FindAccount | src/app/dashboard/finance/page.tsx:194-197 | The first account with the id, None when there is none |
| Finance.CategoryFor | src/app/dashboard/finance/page.tsx:194-197 | A receipt or payment is filed under its account's type, None when the account is missing |
| Finance.PaymentLeg | src/app/dashboard/finance/page.tsx:181-190 | The transfer's Payment leg on the From account, category Bank Transfer, same date and amount |
| Finance.ReceiptLeg | src/app/dashboard/finance/page.tsx:181-190 | The transfer's Receipt leg on the To account, category Bank Transfer, same date and amount |
| Finance.Submit | src/app/dashboard/finance/page.tsx:168-221 | Missing date or zero amount writes nothing; a transfer needs both accounts and appends exactly its two legs; a receipt or payment needs its account and appends one record filed under the account's type; a receipt, payment or edit whose account is not listed carries an undefined category and fails with "Failed to record transaction." |
| Finance.EditTouchesOnlySelected | src/app/dashboard/finance/page.tsx:205-221 | An edit saves exactly when it is booked to a listed account, and then changes only the selected record |
| Finance.EditForm | src/app/dashboard/finance/page.tsx:149-155 | A payment opens with From = its account, a receipt with To = its account, anything else as a Transfer |
| Finance.EditRoundTrip | src/app/dashboard/finance/page.tsx:149-221 | An unchanged edit form of a receipt or payment saves exactly when its account is still listed, and then keeps the record's day, type, account, amount and description and files it under the account's type |
| Finance.UnbookedEditFails | src/app/dashboard/finance/page.tsx:149-221 | A record whose edit form books no account (a cash-customer milk sale, a record of another type) fails to save unchanged, so the store keeps it |
| Finance.TransferLegsLocked | src/app/dashboard/finance/page.tsx:485-486 | Both legs of a transfer are locked against edit and delete |
| Finance.TransferMovesBalance | src/app/dashboard/finance/page.tsx:188-190 | Under the ledger's sign rule a transfer of A adds −A to the From ledger and +A to the To ledger |
| Finance.LegsClosing | src/app/dashboard/finance/page.tsx:181-190 | Appending two records of which only one is in an account's ledger moves the account's all-time closing balance by that record's net |
| Animals.Search | src/app/dashboard/master/animals/page.tsx:204-220 | An empty term keeps all animals; otherwise exactly those with some field value containing the term, ignoring case |
| Animals.SearchFindsOwnTag | src/app/dashboard/master/animals/page.tsx:204-220 | Searching for an animal's own tag finds it |
| Animals.Submit | src/app/dashboard/master/animals/page.tsx:349-375 | Empty tag or breed is rejected; create is rejected when any animal has the tag, edit only when another animal has it; create appends, edit replaces the selected animal |
| Animals.EditKeepsOwnTag | src/app/dashboard/master/animals/page.tsx:371-375 | Editing an animal without changing its tag is accepted |
| Animals.SubmitKeepsTagsUnique | src/app/dashboard/master/animals/page.tsx:358-375 | A successful create or edit keeps register tags unique |
| Animals.ScanFindsFirstProblem | src/app/dashboard/master/animals/page.tsx:275-293 | The scan stops at the first row whose tag repeats an earlier row (checked first) or is already stored |
| Animals.Import | src/app/dashboard/master/animals/page.tsx:270-321 | An empty sheet or a problem row writes nothing; otherwise one animal per row is appended, owned by the user |
| Animals.ImportAccepts | src/app/dashboard/master/animals/page.tsx:270-303 | The import succeeds exactly when the sheet is non-empty, its tags are distinct and none is stored |
| Animals.ImportRejectsFirstProblem | src/app/dashboard/master/animals/page.tsx:275-303 | A failed import names the first problem row |
| Animals.ImportKeepsTagsUnique | src/app/dashboard/master/animals/page.tsx:275-321 | A successful import keeps register tags unique |
| Animals.Delete | src/app/dashboard/master/animals/page.tsx:409-414 | Deleting removes exactly the animals with that id, keeps every other animal once in its order, and keeps register tags unique |
| Animals.MarkExit | src/app/dashboard/master/animals/page.tsx:429-446 | An empty reason writes nothing; otherwise exactly one Exit movement of that animal, stamped now, is added at its place in the query order, the others kept in order |
| Animals.MarkExitMakesAbsent | src/app/dashboard/master/animals/page.tsx:429-446 | After marking an exit stamped later than the animal's other movements, the animal is out |
| Users.NextCustomerId | src/app/dashboard/users/page.tsx:56-72 | "G-001" without parseable "G-" ids; otherwise a "G-" id whose number is one more than the largest, at least three digits |
| Users.FirstCustomerNumber | src/app/dashboard/users/page.tsx:69 | "G-001" parses back as number 1 |
| Users.NextCustomerIdIsNew | src/app/dashboard/users/page.tsx:61-72 | The new id differs from every id already held |
| Users.Approve | src/app/dashboard/users/page.tsx:133-150 | Without a validity date nothing is written; otherwise the selected user becomes Active with the next customer id and the validity date, and others are unchanged |
| Users.PendingUsers | src/app/dashboard/user-approvals/page.tsx:105-108 | The approvals queue is exactly the Pending users |
| Users.ApprovalLeavesQueue | src/app/dashboard/user-approvals/page.tsx:105-138 | After an approval the queue is the old queue without the approved user |
| Users.PendingAfterApproval | src/app/dashboard/user-approvals/page.tsx:121-138 | The pending users after any update that activates the selected user and changes nobody else |
| Users.ApprovedNotOffered | src/app/dashboard/users/page.tsx:287-291 | An approved user is no longer offered approval |
| Users.UsersShown | src/app/dashboard/users/page.tsx:125-129 | An administrator sees everyone, anyone else only their own record, nobody without a profile |
| Users.NonAdminSeesOnlySelf | src/app/dashboard/users/page.tsx:125-129 | A non-administrator sees no other user's record |
| Users.ApprovalsView | src/app/dashboard/user-approvals/page.tsx:190-199 | The approvals screen lists the queue for an administrator and is denied to anyone else |
| Backup.CleanForExport | src/app/dashboard/settings/page.tsx:184-191 | Each document loses exactly the listed fields and keeps every other field and value |
| Backup.SheetName | src/app/dashboard/settings/page.tsx:226 | A sheet name is at most 31 characters and a prefix of identifier + "_" + collection |
| Backup.UserSheets | src/app/dashboard/settings/page.tsx:223-234 | One sheet per non-empty collection, named after the user and collection; animals without images |
| Backup.AdminBackup | src/app/dashboard/settings/page.tsx:214-236 | The profiles sheet (without photos) first, then a sheet for every user's non-empty collection |
| Backup.PersonalBackup | src/app/dashboard/settings/page.tsx:238-247 | A user's own backup has one sheet per collection, empty or not, titled Animals, Movements, Financial_Records, Milk_Records and Accounts in that order, each holding the collection's documents cleaned as in the full backup (animals without their images) |
| Backup.ParseSheetName | src/app/dashboard/settings/page.tsx:310-311 | The identifier is the text before the first '_', the collection the rest; the two rejoin to the name |
| Backup.SheetNameRoundTrip | src/app/dashboard/settings/page.tsx:226-311 | Parsing a backup sheet name gives back its identifier and collection when the identifier has no '_' and the name was not cut |
| Backup.CollectionWrites | src/app/dashboard/settings/page.tsx:316-321 | Exactly the rows with an id are written, each under its id in the user's collection |
| Backup.ProfileWrites | src/app/dashboard/settings/page.tsx:304-308 | Every profile row goes to the profile of its id; a row without an id, or whose id makes `doc(firestore, "users", id)` name no document, aborts the restore |
| Backup.PlainTargetReachable | src/app/dashboard/settings/page.tsx:314-320 | A user, collection and document id that are non-empty and free of '/' give a reference that names a document |
| Backup.EmptyCollectionUnreachable | src/app/dashboard/settings/page.tsx:314-320 | With an empty collection part the reference is `users/<uid>/<id>`, three segments, which names no document |
| Backup.PlainProfileReachable | src/app/dashboard/settings/page.tsx:304-308 | A non-empty, '/'-free profile id names a profile document |
| Backup.SlashedProfileUnreachable | src/app/dashboard/settings/page.tsx:304-308 | A profile id with one '/' inside gives the three-segment path `users/a/b`, which names no document |
| Backup.CollectionWritesReachable | src/app/dashboard/settings/page.tsx:314-320 | A sheet's writes can all be referenced exactly when none of its rows with an id has a path that names no document |
| Backup.OwnerOf | src/app/dashboard/settings/page.tsx:313-314 | The first user whose customer id or 5-character uid prefix is the identifier |
| Backup.FullSheetWrites | src/app/dashboard/settings/page.tsx:302-323 | The profiles sheet goes to profiles; a sheet without an owner writes nothing; an owned sheet goes to its owner's collection, and aborts the restore exactly when one of its rows with an id has a path that names no document |
| Backup.FullRestore | src/app/dashboard/settings/page.tsx:300-325 | The batch is built exactly when no sheet aborts it |
| Backup.FullRestoreAbortsOnNameWithoutCollection | src/app/dashboard/settings/page.tsx:309-320 | A sheet named without '_' whose identifier has an owner has an empty collection part, so a row with a document id makes `doc` throw and the full restore builds nothing |
| Backup.FullRestoreMembers | src/app/dashboard/settings/page.tsx:300-325 | A built batch holds every write of every sheet, and nothing else |
| Backup.FullRestoreReturnsSheet | src/app/dashboard/settings/page.tsx:226-321 | A sheet the backup made for a user (a known collection, document ids without '/') is restored into that user's own collection |
| Backup.UserSheetWrites | src/app/dashboard/settings/page.tsx:333-343 | Corrected selection: a processed sheet's identifier is the selected user's |
| Backup.UserRestore | src/app/dashboard/settings/page.tsx:326-347 | Fails with "Selected user not found." when no user has the id; otherwise fails exactly when a selected sheet has a row with an id whose path names no document; on success every write goes to the selected user and can be referenced, from the sheets whose name starts with that user's identifier, as the screen selects them |
| Backup.UserRestoreAbortsOnBareIdentifierSheet | src/app/dashboard/settings/page.tsx:333-347 | A sheet named just the selected user's identifier has an empty collection part, so a row with a document id makes the user-wise restore fail |
| Backup.AsWrittenReachable | src/app/dashboard/settings/page.tsx:333-347 | The as-written user-wise batch can be referenced exactly when no selected sheet has a row whose path names no document |
| Backup.UserWrites | src/app/dashboard/settings/page.tsx:333-347 | Corrected batch: every write goes to the selected user, from a sheet whose identifier is that user's |
| Backup.UserSheetWritesAsWritten | src/app/dashboard/settings/page.tsx:333-343 | As the screen does it: a sheet is processed only if its name starts with the identifier, and then its rows with an id are written into the selected user's collection named after the first '_' |
| Backup.UserWritesAsWritten | src/app/dashboard/settings/page.tsx:333-347 | As the screen does it: every write goes to the selected user, from a sheet whose name starts with the identifier |
| Backup.UserWritesAsWrittenCovers | src/app/dashboard/settings/page.tsx:333-347 | Every row with an id of every selected sheet is in the batch |
| Backup.CorrectedIsAsWrittenOnOwnSheets | src/app/dashboard/settings/page.tsx:333-347 | The corrected batch is the as-written batch over just the sheets named with the identifier and '_' |
| Backup.AsWrittenSelects | src/app/dashboard/settings/page.tsx:333-343 | As written, any sheet whose name starts with the identifier is restored into the selected user's collection named after its first '_' |
| Backup.PrefixSelectsOtherCustomer | src/app/dashboard/settings/page.tsx:333-337 | As written, restoring G-100 writes customer G-1000's animals into G-100's account |
| Backup.CorrectedSkipsOtherCustomer | src/app/dashboard/settings/page.tsx:333-337 | With the corrected selection that sheet writes nothing |
| Backup.TriggerRestore | src/app/dashboard/settings/page.tsx:270-279 | A file is required, and in user mode a user too, with the screen's messages |
| Backup.ConfirmRestore | src/app/dashboard/settings/page.tsx:281-360 | Non-administrators change nothing; otherwise maintenance is switched on then off, and the batch is committed only when it could be built, which a path that names no document prevents; a user-wise run commits the as-written user-wise batch, and nothing when the user is unknown |
| Support.Raise | src/app/dashboard/support/page.tsx:82-103 | Needs a profile, a subject and a description; a new ticket is Open, not closed, stamped now, and carries the author's id, name, email and customer id |
| Support.VisibleTickets | src/app/dashboard/support/page.tsx:70-78 | Exactly the user's tickets not closed fifteen days or more ago, each as often as in the store, newest submission first, ties in store order |
| Support.RaisedTicketVisible | src/app/dashboard/support/page.tsx:70-103 | A ticket just raised is in its author's list |
| Support.Search | src/app/dashboard/support-tickets/page.tsx:65-76 | An empty term keeps every ticket; otherwise exactly those whose name, email, subject or customer id contains it, ignoring case |
| Support.OpenTickets | src/app/dashboard/support-tickets/page.tsx:78-80 | Exactly the Open tickets, each as often as in the store, newest submission first, ties in store order |
| Support.ClosedTickets | src/app/dashboard/support-tickets/page.tsx:82-91 | Exactly the tickets closed within fifteen days, each as often as in the store, most recently closed first, ties in store order |
| Support.TabsDisjoint | src/app/dashboard/support-tickets/page.tsx:78-91 | No ticket is on both tabs |
| Support.TabsCoverVisible | src/app/dashboard/support-tickets/page.tsx:78-91 | A ticket is on a tab exactly when it is visible and not a Closed ticket without closing time |
| Support.SetStatus | src/app/dashboard/support-tickets/page.tsx:94-103 | Closing stamps now as the closing time; re-opening clears it; nothing else changes |
| Support.UpdateStatus | src/app/dashboard/support-tickets/page.tsx:94-103 | Only the ticket with the id changes status |
| Support.ReopenUndoesClose | src/app/dashboard/support-tickets/page.tsx:94-103 | Re-opening a closed new ticket restores it |
| Support.ClosingMovesTab | src/app/dashboard/support-tickets/page.tsx:78-103 | A ticket just closed is on the closed tab and not the open one |
| Support.Menu | src/app/dashboard/support-tickets/page.tsx:242-251 | Close is offered exactly for Open tickets, Re-open otherwise |
| Support.MenuFlipsStatus | src/app/dashboard/support-tickets/page.tsx:242-251 | Every offered action changes the ticket's status |
| Renewals.Request | src/app/dashboard/renewal/page.tsx:63-83 | Needs a profile, amount > 0 and a date; the request is Pending with the user's name and customer id |
| Renewals.PendingFor | src/app/dashboard/renewal/page.tsx:51-61 | Exactly this user's Pending requests |
| Renewals.Screen | src/app/dashboard/renewal/page.tsx:62-165 | The form is shown exactly when the user has no pending request |
| Renewals.RequestFromForm | src/app/dashboard/renewal/page.tsx:62-165 | A request sent from the form leaves exactly one pending request, which replaces the form |
| Renewals.Approve | src/app/dashboard/amc/page.tsx:89-112 | Without a request and a validity date nothing is written; otherwise the author becomes Active with the date and the request Approved, in one batch, others unchanged |
| Renewals.ApprovalClosesRequest | src/app/dashboard/amc/page.tsx:97-112 | The approved request leaves its author's pending requests and is never offered again |
| Renewals.ApprovalRenewsAuthor | src/app/dashboard/amc/page.tsx:102-105 | The author is Active until the new validity date |
| Renewals.RenewalsView | src/app/dashboard/amc/page.tsx:162-171 | The requests for an administrator, Access Denied otherwise |
| Nav.MainItems | src/components/nav.tsx:109-111 | Base then master items, then the administrator items for an administrator only |
| Nav.DashboardActiveOnlyAtHome | src/components/nav.tsx:131 | The dashboard item is lit exactly on its own path |
| Nav.SupportFooterNotLitOnTickets | src/components/nav.tsx:131-157 | On the ticket queue's path its item is lit and the Support footer item is not, though its href is a prefix |
| Nav.QueueCounts | src/components/nav.tsx:84-105 | Zero for non-administrators; otherwise the counts of Pending users, Pending renewals and Open tickets |
| Nav.Badge | src/components/nav.tsx:139-147 | A badge shows exactly on an item with a queue whose count is positive, and shows that count |
| Nav.NonAdminSeesNoBadge | src/components/nav.tsx:84-147 | A non-administrator sees no badge |
| Nav.ApprovalsBadgeMatchesQueue | src/components/nav.tsx:91-143 | The User Approvals badge shows the approvals screen's length, exactly when it is non-empty |
| Nav.TicketsBadgeMatchesOpenTab | src/components/nav.tsx:98-103 | The Support Tickets badge counts the open tab |
| Access.Signup | src/app/signup/page.tsx:39-65 | The administrator address gives an Active administrator with G-001, validity 2099-12-31 and a role document; any other a Pending user without customer id, validity or role document |
| Access.AdminCheckIgnoresCase | src/app/signup/page.tsx:39 | An address is the administrator's exactly when its lower-cased form is |
| Access.AdminValidityIsLastDayOf2099 | src/app/signup/page.tsx:55 | The administrator's validity day is the last day of 2099 |
| Access.NextAfterAdminIsTwo | src/app/dashboard/users/page.tsx:56-72 | With only the administrator on the roster the first approved customer gets number 2 |
| Access.Gate | src/app/page.tsx:34-63 | The dashboard exactly for an Active profile; no profile, inactive/expired and pending each get their own message |
| Access.SignupThenApproval | src/app/page.tsx:34-53 | A new non-administrator is turned away until approval, after which the gate lets them in |
| Access.PendingStaysOut | src/app/page.tsx:42-53 | A fresh non-administrator gets the approval message |
| Text.ParseLeadingInt | src/app/dashboard/users/page.tsx:64-65 | `parseInt(s, 10)`: no number exactly when the text does not start with a digit; otherwise the value of the leading digit run |
| Text.PaddedNumberRoundTrip | src/app/dashboard/users/page.tsx:64-72 | A number written out and left-padded with zeros parses back to itself |
| Text.JoinSplit | src/app/dashboard/settings/page.tsx:310-311 | Joining the pieces of a split with the separator gives back the text |
| Text.LowerIdempotent | src/app/signup/page.tsx:39 | Lower-casing twice is lower-casing once |
| Milk.AddRecordTotal | src/app/dashboard/milk-records/page.tsx:221-235 | One reduce step adds exactly the record's quantity to the sum of the day totals |
| Milk.AddRecordHasDay | src/app/dashboard/milk-records/page.tsx:224-227 | After one reduce step the record's day has a group |
| Finance.LegsNet | src/app/dashboard/finance/page.tsx:181-190 | Appending two records of which only one is in an account's ledger moves that ledger's net by that record's net |
| Ledger.RecordsOfAnnotate | src/app/dashboard/ledger/page.tsx:149-155 | Annotating with balances keeps the records and their order |
| Renewals.PendingAfterApproval | src/app/dashboard/amc/page.tsx:99-112 | After an update that approves one request and changes nothing else, a user's pending requests are the old ones without it |
| Backup.SelectedSheetIdentifier | src/app/dashboard/settings/page.tsx:310-337 | A name starting with an identifier free of '_' and then '_' parses back to that identifier |
| Backup.OtherCustomerSheetIsTheirs | src/app/dashboard/settings/page.tsx:226-311 | The sheet "G-1000_animals" is the one a backup makes for customer G-1000 and parses back to it |
| Access.AdminAddressRecognised | src/app/signup/page.tsx:39 | The administrator address itself is recognised |

## Left out

- Time zones: date-only conversions (`toISOString().split('T')[0]`, `startOfDay`, `getFullYear`) are taken in a single zone, so a date picked near midnight does not shift a day as it can in the browser.
- Support.Visible: the fifteen-day window is a fixed 15 × 86 400 000 ms; daylight-saving days are not modelled.
- Floating point: amounts, quantities and rates are integers, so `toFixed`, rounding and `Number(...)` conversions are left out.
- parseInt: modelled as a non-empty leading run of decimal digits; leading whitespace, signs and other radices are left out.
- Reports.DailySummary: `eachDayOfInterval` with an end before the start throws; the model gives zero rows.
- Loading and skeleton states, toasts, dialogs opening and closing, and navigation after a write are left out.
- Document ids the store assigns, the clock and the current year are parameters, not generated.
- Excel and PDF files: reading and writing workbooks and invoices; a workbook is a sequence of named sheets of string maps.
- Animals.Import: the page adds rows one at a time and not in a batch, so a store failure mid-way can leave some rows written; the model writes all or nothing. Gender and health come from the sheet untyped in the source; the model reads typed values.
- Animals.Submit: the edit keeps the stored id and owner; other stored fields the form does not carry are not modelled.
- Animals.Search: `toLowerCase` is modelled for the ASCII letters A-Z only, so a search that relies on folding other letters (a term "É" finding "é") is not modelled.
- Movements.Search: case folding is ASCII-only for the same reason.
- Support.Search: case folding is ASCII-only for the same reason.
- Herd.StatusAfterRecording: promised only for a movement dated strictly later than the animal's others; on a date tie the result depends on where the random document id falls in the query order, which Herd.TieFollowsQueryOrder shows for both placements.
- Movements.CandidateFlips and Movements.SubmitCandidateFlips: likewise promised only for a strictly later date.
- Reports.DayFlow: its own contract states only that each block is balanced; the value of every column is stated by Reports.DayFlowColumns.
- Access.Gate: roles are a closed type, so the source's role check (Admin or User) always passes.
- The store's own failures at commit time (permission errors, a batch that fails to commit) are left out. Failures while a write is built are modelled where the pages can reach them: a missing user in the user-wise restore, a `doc` call that throws, and a write carrying an undefined field in Finance.Submit and Milk.SaveSale. Elsewhere the model assumes the written fields are defined.
- Backup.Reachable: this is the store client's rule for a document reference: no argument holds "//", and the non-empty segments come in an even, non-zero number. The client is not part of this model. Server-side id limits (reserved `__…__` ids, length limits) would fail at commit and are left out.
- Backup.UserRestore: the failure message for a path that names no document is a fixed text; the client's own message, which quotes the path, is not modelled.
- Finance.Submit: the store client is taken with its default settings, under which a write carrying an undefined field is refused before anything is written. The client's settings are not part of this model. If undefined fields were ignored instead, a create or edit booked to an unlisted account would be written without a category, and an edit would keep the stored category.
- Milk.SaveSale: the same default-settings reading is used for the undefined account id of a sale dialog opened on a stored record. Milk.SaleEditForm shows a field the stored sale lacks (quantity, rate, invoice number) as empty or 0, where the page would send it undefined. For a sale whose customer is picked again, such a save would also fail.
- Dashboard summary cards, the profile editor, password reset, the header and the forgot-password flow are not part of this model.

## Findings

| source | as written | input that shows it | evidently intended | confidence | as-written member | corrected member |
|---|---|---|---|---|---|---|
| src/app/dashboard/settings/page.tsx:333-337 | A user-wise restore processes every sheet whose name starts with the user's identifier | Restoring customer G-100 from a workbook holding sheet "G-1000_animals" writes customer G-1000's animals into G-100's account | Process only sheets whose name starts with the identifier followed by "_" | not executed | Backup.PrefixSelectsOtherCustomer | Backup.CorrectedSkipsOtherCustomer |
