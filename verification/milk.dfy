/** The milk-records screen: the animals that can be milked, the production
    list filtered by date and grouped by day and session, the staging list of
    the production dialog, the next invoice number and the financial record a
    milk sale becomes. */
module Milk {
  import opened Wrappers
  import opened Text
  import opened Seqs
  import opened Calendar
  import opened Domain
  import opened Herd
  import Movements
  import Ledger

  // ---------------------------------------------------------------------------
  // Milking animals

  predicate MilkingKind(a: Animal) {
    a.gender == Female && (a.animalType == "Cow" || a.animalType == "Buffalo")
  }

  function MilkingTest(movements: seq<Movement>): Animal -> bool {
    (a: Animal) => MilkingKind(a) && StatusOf(movements, a.id) == In
  }

  /** The animals offered in the production dialog: present female cows and
      buffaloes, in roster order. */
  function MilkingCows(animals: seq<Animal>, movements: seq<Movement>): (r: seq<Animal>)
    ensures forall i :: 0 <= i < |r| ==> r[i] in animals && MilkingKind(r[i]) && StatusOf(movements, r[i].id) == In
    ensures forall i :: 0 <= i < |animals| && MilkingKind(animals[i]) && StatusOf(movements, animals[i].id) == In ==>
      animals[i] in r
    ensures KeepsInOrder(animals, MilkingTest(movements), r)
  {
    FilterMembers(animals, MilkingTest(movements));
    FilterInOrder(animals, MilkingTest(movements));
    Filter(animals, MilkingTest(movements))
  }

  /** The milk screen and the movement screen agree on presence: an animal can
      be milked iff it is a female cow or buffalo that the movement screen
      offers for an Exit. */
  lemma MilkingCowsAreExitCandidates(animals: seq<Animal>, movements: seq<Movement>, a: Animal)
    requires a in animals
    ensures a in MilkingCows(animals, movements)
        <==> MilkingKind(a) && a in Movements.Candidates(animals, movements, Create, Exit)
  {
    var i :| 0 <= i < |animals| && animals[i] == a;
    var cows := MilkingCows(animals, movements);
    var exits := Movements.Candidates(animals, movements, Create, Exit);
    if a in cows {
      var k :| 0 <= k < |cows| && cows[k] == a;
    }
    if a in exits {
      var k :| 0 <= k < |exits| && exits[k] == a;
    }
  }

  // ---------------------------------------------------------------------------
  // Date filter and totals

  function RangeTest(range: DateRange): MilkEntry -> bool {
    (e: MilkEntry) => InRange(range, e.date)
  }

  /** The production list under the page's date picker: everything when
      neither bound is set, otherwise the records inside the inclusive window. */
  function InDateRange(records: seq<MilkEntry>, range: DateRange): (r: seq<MilkEntry>)
    ensures range.from.None? && range.to.None? ==> r == records
    ensures forall i :: 0 <= i < |r| ==> r[i] in records && InRange(range, r[i].date)
    ensures forall i :: 0 <= i < |records| && InRange(range, records[i].date) ==> records[i] in r
    ensures KeepsInOrder(records, RangeTest(range), r)
  {
    FilterMembers(records, RangeTest(range));
    FilterInOrder(records, RangeTest(range));
    if range.from.None? && range.to.None? then
      FilterAll(records, RangeTest(range));
      records
    else Filter(records, RangeTest(range))
  }

  function Quantity(e: MilkEntry): int {
    e.quantity
  }

  // ---------------------------------------------------------------------------
  // Grouping by day and session

  /** One day of the production list: its morning and evening records in list
      order and the day's total. */
  datatype DayGroup = DayGroup(date: Day, morning: seq<MilkEntry>, evening: seq<MilkEntry>, total: int)

  function GroupDate(g: DayGroup): int {
    g.date
  }

  function GroupTotal(g: DayGroup): int {
    g.total
  }

  /** Some group is for day `d`. */
  predicate HasGroup(groups: seq<DayGroup>, d: Day) {
    exists i :: 0 <= i < |groups| && groups[i].date == d
  }

  /** No two groups are for the same day (they are the keys of an object). */
  predicate DistinctDates(groups: seq<DayGroup>) {
    forall i, j :: 0 <= i < j < |groups| ==> groups[i].date != groups[j].date
  }

  /** Adds one record to its day's group: the morning list for a Morning
      record, the evening list otherwise. */
  function Put(g: DayGroup, e: MilkEntry): DayGroup {
    if e.time == Morning then g.(morning := g.morning + [e], total := g.total + e.quantity)
    else g.(evening := g.evening + [e], total := g.total + e.quantity)
  }

  /** One step of the page's `reduce`: the record goes to the group of its day,
      which is created empty at the end when the day is new. */
  function AddRecord(groups: seq<DayGroup>, e: MilkEntry): (r: seq<DayGroup>)
    requires DistinctDates(groups)
    ensures DistinctDates(r)
    ensures |r| == |groups| || |r| == |groups| + 1
    ensures |r| == |groups| + 1 <==> forall i :: 0 <= i < |groups| ==> groups[i].date != e.date
    ensures |r| == |groups| + 1 ==> r[|groups|] == Put(DayGroup(e.date, [], [], 0), e)
    ensures forall i :: 0 <= i < |groups| ==>
      r[i] == if groups[i].date == e.date then Put(groups[i], e) else groups[i]
  {
    if |groups| == 0 then [Put(DayGroup(e.date, [], [], 0), e)]
    else if groups[0].date == e.date then [Put(groups[0], e)] + groups[1..]
    else
      var tail := groups[1..];
      var rest := AddRecord(tail, e);
      assert forall i :: 0 <= i < |tail| ==> tail[i] == groups[i + 1];
      assert forall i :: 0 <= i < |rest| ==> rest[i].date != groups[0].date by {
        forall i | 0 <= i < |rest|
          ensures rest[i].date != groups[0].date
        {
          if i < |tail| {
            assert rest[i].date == tail[i].date;
          }
        }
      }
      [groups[0]] + rest
  }

  /** The page's grouping of the (filtered) production list. */
  function Group(records: seq<MilkEntry>): (r: seq<DayGroup>)
    ensures DistinctDates(r)
  {
    if |records| == 0 then []
    else AddRecord(Group(records[..|records| - 1]), records[|records| - 1])
  }

  function OnDate(d: Day): MilkEntry -> bool {
    (e: MilkEntry) => e.date == d
  }

  function InSession(d: Day, s: Session): MilkEntry -> bool {
    (e: MilkEntry) => e.date == d && e.time == s
  }

  /** What a group holds when it is the group of day `g.date` for `records`. */
  predicate GroupOf(g: DayGroup, records: seq<MilkEntry>) {
    && g.morning == Filter(records, InSession(g.date, Morning))
    && g.evening == Filter(records, InSession(g.date, Evening))
    && g.total == SumOf(Filter(records, OnDate(g.date)), Quantity)
  }

  lemma PutGroupOf(g: DayGroup, records: seq<MilkEntry>)
    requires |records| > 0
    requires GroupOf(g, records[..|records| - 1]) && records[|records| - 1].date == g.date
    ensures GroupOf(Put(g, records[|records| - 1]), records)
  {
  }

  lemma OtherGroupOf(g: DayGroup, records: seq<MilkEntry>)
    requires |records| > 0
    requires GroupOf(g, records[..|records| - 1]) && records[|records| - 1].date != g.date
    ensures GroupOf(g, records)
  {
    assert Filter(records, OnDate(g.date)) == Filter(records[..|records| - 1], OnDate(g.date));
  }

  lemma NewGroupOf(records: seq<MilkEntry>)
    requires |records| > 0
    requires forall i :: 0 <= i < |records| - 1 ==> records[i].date != records[|records| - 1].date
    ensures GroupOf(Put(DayGroup(records[|records| - 1].date, [], [], 0), records[|records| - 1]), records)
  {
    var init := records[..|records| - 1];
    var e := records[|records| - 1];
    FilterNone(init, InSession(e.date, Morning));
    FilterNone(init, InSession(e.date, Evening));
    FilterNone(init, OnDate(e.date));
  }

  /** Adding the last record of `records` to the groups of the others keeps
      every group exact. */
  lemma AddRecordGroupOf(gs: seq<DayGroup>, records: seq<MilkEntry>, init: seq<MilkEntry>, i: int)
    requires |records| > 0 && init == records[..|records| - 1] && DistinctDates(gs)
    requires forall j :: 0 <= j < |gs| ==> GroupOf(gs[j], init)
    requires forall k :: 0 <= k < |init| ==> HasGroup(gs, init[k].date)
    requires 0 <= i < |AddRecord(gs, records[|records| - 1])|
    ensures GroupOf(AddRecord(gs, records[|records| - 1])[i], records)
  {
    var e := records[|records| - 1];
    if i < |gs| {
      if gs[i].date == e.date {
        PutGroupOf(gs[i], records);
      } else {
        OtherGroupOf(gs[i], records);
      }
    } else {
      forall k | 0 <= k < |records| - 1
        ensures records[k].date != e.date
      {
        var j :| 0 <= j < |gs| && gs[j].date == init[k].date;
      }
      NewGroupOf(records);
    }
  }

  /** Every group holds exactly its day's records, split by session in list
      order, and the day's total. */
  lemma {:induction false} GroupContents(records: seq<MilkEntry>)
    ensures forall i :: 0 <= i < |Group(records)| ==> GroupOf(Group(records)[i], records)
  {
    if |records| > 0 {
      var init := records[..|records| - 1];
      var gs := Group(init);
      GroupContents(init);
      GroupCoversRecords(init);
      assert AddRecord(gs, records[|records| - 1]) == Group(records);
      forall i | 0 <= i < |Group(records)|
        ensures GroupOf(Group(records)[i], records)
      {
        AddRecordGroupOf(gs, records, init, i);
      }
    } else {
      assert |Group(records)| == 0;
    }
  }

  /** After adding a record its day has a group. */
  lemma AddRecordHasDay(groups: seq<DayGroup>, e: MilkEntry)
    requires DistinctDates(groups)
    ensures HasGroup(AddRecord(groups, e), e.date)
  {
    var r := AddRecord(groups, e);
    if i :| 0 <= i < |groups| && groups[i].date == e.date {
      assert r[i] == Put(groups[i], e);
    } else {
      assert r[|groups|] == Put(DayGroup(e.date, [], [], 0), e);
    }
  }

  /** Adding a record keeps every existing group at its place and day. */
  lemma AddRecordKeepsDates(groups: seq<DayGroup>, e: MilkEntry, i: int)
    requires DistinctDates(groups) && 0 <= i < |groups|
    ensures i < |AddRecord(groups, e)| && AddRecord(groups, e)[i].date == groups[i].date
  {
  }

  /** Record `k`'s day has a group. */
  lemma {:induction false} GroupHasDayOf(records: seq<MilkEntry>, k: int)
    requires 0 <= k < |records|
    ensures HasGroup(Group(records), records[k].date)
  {
    var n := |records| - 1;
    var init := records[..n];
    var gs := Group(init);
    assert Group(records) == AddRecord(gs, records[n]);
    if k == n {
      AddRecordHasDay(gs, records[n]);
    } else {
      GroupHasDayOf(init, k);
      var i :| 0 <= i < |gs| && gs[i].date == init[k].date;
      AddRecordKeepsDates(gs, records[n], i);
    }
  }

  /** Every record's day has a group. */
  lemma GroupCoversRecords(records: seq<MilkEntry>)
    ensures forall k :: 0 <= k < |records| ==> HasGroup(Group(records), records[k].date)
  {
    forall k | 0 <= k < |records|
      ensures HasGroup(Group(records), records[k].date)
    {
      GroupHasDayOf(records, k);
    }
  }

  /** Every group's day is the day of some record: no group is empty. */
  lemma {:induction false} GroupDatesOccur(records: seq<MilkEntry>)
    ensures forall i :: 0 <= i < |Group(records)| ==>
      exists k :: 0 <= k < |records| && records[k].date == Group(records)[i].date
  {
    if |records| > 0 {
      var init := records[..|records| - 1];
      var e := records[|records| - 1];
      var gs := Group(init);
      GroupDatesOccur(init);
      var r := AddRecord(gs, e);
      assert r == Group(records);
      forall i | 0 <= i < |r|
        ensures exists k :: 0 <= k < |records| && records[k].date == r[i].date
      {
        if i < |gs| {
          var k :| 0 <= k < |init| && init[k].date == gs[i].date;
          assert r[i].date == gs[i].date;
          assert records[k].date == r[i].date;
        } else {
          assert r[i].date == e.date;
          assert records[|init|].date == r[i].date;
        }
      }
    } else {
      assert |Group(records)| == 0;
    }
  }

  lemma {:induction false} AddRecordTotal(groups: seq<DayGroup>, e: MilkEntry)
    requires DistinctDates(groups)
    ensures SumOf(AddRecord(groups, e), GroupTotal) == SumOf(groups, GroupTotal) + e.quantity
  {
    if |groups| > 0 {
      var rest := groups[1..];
      assert groups == [groups[0]] + rest;
      SumOfCons(groups[0], rest, GroupTotal);
      if groups[0].date == e.date {
        SumOfCons(Put(groups[0], e), rest, GroupTotal);
      } else {
        AddRecordTotal(rest, e);
        SumOfCons(groups[0], AddRecord(rest, e), GroupTotal);
      }
    }
  }

  /** The range total shown above the list is the sum of the day totals. */
  lemma {:induction false} GroupTotalsSum(records: seq<MilkEntry>)
    ensures SumOf(Group(records), GroupTotal) == SumOf(records, Quantity)
  {
    if |records| > 0 {
      var init := records[..|records| - 1];
      GroupTotalsSum(init);
      AddRecordTotal(Group(init), records[|records| - 1]);
    }
  }

  /** A group's total is its morning sum plus its evening sum. */
  lemma {:induction false} SessionsSplitTotal(records: seq<MilkEntry>, d: Day)
    ensures SumOf(Filter(records, OnDate(d)), Quantity)
         == SumOf(Filter(records, InSession(d, Morning)), Quantity) + SumOf(Filter(records, InSession(d, Evening)), Quantity)
  {
    if |records| > 0 {
      var init := records[..|records| - 1];
      var e := records[|records| - 1];
      SessionsSplitTotal(init, d);
      SumOfAppend(Filter(init, OnDate(d)), if e.date == d then [e] else [], Quantity);
      SumOfAppend(Filter(init, InSession(d, Morning)), if e.date == d && e.time == Morning then [e] else [], Quantity);
      SumOfAppend(Filter(init, InSession(d, Evening)), if e.date == d && e.time == Evening then [e] else [], Quantity);
    }
  }

  function DayValue(d: Day): int {
    d
  }

  /** The list's days, latest first. */
  function DatesDescending(groups: seq<DayGroup>): (r: seq<Day>)
    ensures |r| == |groups|
    ensures forall i, j :: 0 <= i < j < |r| ==> r[i] >= r[j]
    ensures multiset(r) == multiset(Map(groups, GroupDate))
  {
    var dates := Map(groups, GroupDate);
    SortPermutes(dates, Negated(DayValue));
    SortedDescending(SortByKey(dates, Negated(DayValue)), DayValue);
    SortByKey(dates, Negated(DayValue))
  }

  // ---------------------------------------------------------------------------
  // Staging production records

  /** A row of the production dialog's list, before it gets a date and session. */
  datatype Staged = Staged(animalId: string, animalTag: string, animalBreed: string, quantity: int)

  /** The animal picked in the dialog. */
  datatype Picked = Picked(id: string, tag: string, breed: string)

  predicate DistinctAnimals(staged: seq<Staged>) {
    forall i, j :: 0 <= i < j < |staged| ==> staged[i].animalId != staged[j].animalId
  }

  const InvalidEntryMessage := "Please select an animal and enter a valid quantity."
  const DuplicateEntryMessage := "This animal has already been added to the list."

  /** Adding the picked animal and quantity to the list. `quantity` is None
      while the field is empty. */
  function AddStaged(staged: seq<Staged>, animal: Option<Picked>, quantity: Option<int>): (r: Result<seq<Staged>, string>)
    ensures (animal.None? || quantity.None? || quantity.value <= 0) ==> r == Failure(InvalidEntryMessage)
    ensures animal.Some? && quantity.Some? && quantity.value > 0 ==>
      (r.Failure? <==> exists i :: 0 <= i < |staged| && staged[i].animalId == animal.value.id)
    ensures r.Failure? ==> r.error in {InvalidEntryMessage, DuplicateEntryMessage}
    ensures r.Success? ==>
      (|r.value| == |staged| + 1 && r.value[..|staged|] == staged
       && r.value[|staged|] == Staged(animal.value.id, animal.value.tag, animal.value.breed, quantity.value))
  {
    if animal.None? || quantity.None? || quantity.value <= 0 then Failure(InvalidEntryMessage)
    else if exists i :: 0 <= i < |staged| && staged[i].animalId == animal.value.id then Failure(DuplicateEntryMessage)
    else Success(staged + [Staged(animal.value.id, animal.value.tag, animal.value.breed, quantity.value)])
  }

  /** The staged list never names an animal twice. */
  lemma AddStagedKeepsDistinct(staged: seq<Staged>, animal: Option<Picked>, quantity: Option<int>)
    requires DistinctAnimals(staged)
    ensures AddStaged(staged, animal, quantity).Success? ==> DistinctAnimals(AddStaged(staged, animal, quantity).value)
  {
  }

  function AnimalIsNot(id: string): Staged -> bool {
    (s: Staged) => s.animalId != id
  }

  /** Removing an animal's row keeps the other rows in order. */
  function RemoveStaged(staged: seq<Staged>, animalId: string): (r: seq<Staged>)
    ensures forall i :: 0 <= i < |r| ==> r[i].animalId != animalId && r[i] in staged
    ensures forall i :: 0 <= i < |staged| && staged[i].animalId != animalId ==> staged[i] in r
    ensures KeepsInOrder(staged, AnimalIsNot(animalId), r)
  {
    FilterMembers(staged, AnimalIsNot(animalId));
    FilterInOrder(staged, AnimalIsNot(animalId));
    Filter(staged, AnimalIsNot(animalId))
  }

  /** Removing a row just added restores the list. */
  lemma RemoveUndoesAdd(staged: seq<Staged>, animal: Picked, quantity: int)
    requires AddStaged(staged, Some(animal), Some(quantity)).Success?
    ensures RemoveStaged(AddStaged(staged, Some(animal), Some(quantity)).value, animal.id) == staged
  {
    var added := AddStaged(staged, Some(animal), Some(quantity)).value;
    assert added == staged + [added[|staged|]];
    FilterAppend(staged, [added[|staged|]], AnimalIsNot(animal.id));
    FilterAll(staged, AnimalIsNot(animal.id));
  }

  const NoRecordsMessage := "Please add at least one milk record."

  function StagedQuantity(s: Staged): int {
    s.quantity
  }

  /** Saving the dialog: one production record per staged row, all with the
      dialog's day and session, in one batch. `ids` stands for the document
      ids the store generates. */
  function SubmitProduction(staged: seq<Staged>, date: Day, session: Session, ids: nat -> string): (r: Result<seq<MilkEntry>, string>)
    ensures r.Failure? <==> |staged| == 0
    ensures r.Failure? ==> r.error == NoRecordsMessage
    ensures r.Success? ==> |r.value| == |staged|
    ensures r.Success? ==> forall i :: 0 <= i < |staged| ==>
      && r.value[i].date == date && r.value[i].time == session
      && r.value[i].animalId == staged[i].animalId && r.value[i].animalTag == staged[i].animalTag
      && r.value[i].animalBreed == staged[i].animalBreed && r.value[i].quantity == staged[i].quantity
  {
    if |staged| == 0 then Failure(NoRecordsMessage)
    else Success(seq(|staged|, i requires 0 <= i < |staged| =>
      MilkEntry(ids(i), date, staged[i].animalId, staged[i].animalTag, staged[i].animalBreed, staged[i].quantity, session)))
  }

  /** The dialog's running total is what the batch records. */
  lemma {:induction false} SubmitKeepsTotal(staged: seq<Staged>, date: Day, session: Session, ids: nat -> string)
    requires |staged| > 0
    ensures SumOf(SubmitProduction(staged, date, session, ids).value, Quantity) == SumOf(staged, StagedQuantity)
  {
    SumMatching(SubmitProduction(staged, date, session, ids).value, staged);
  }

  lemma {:induction false} SumMatching(written: seq<MilkEntry>, staged: seq<Staged>)
    requires |written| == |staged|
    requires forall i :: 0 <= i < |staged| ==> written[i].quantity == staged[i].quantity
    ensures SumOf(written, Quantity) == SumOf(staged, StagedQuantity)
  {
    if |staged| > 0 {
      SumMatching(written[..|written| - 1], staged[..|staged| - 1]);
    }
  }

  // ---------------------------------------------------------------------------
  // Invoice numbers

  /** `parseInt(invoiceNo)` for a sale that has an invoice number. */
  function InvoiceValue(r: FinancialRecord): Option<nat> {
    match r.invoiceNo
    case None => None
    case Some(s) => ParseLeadingInt(s)
  }

  /** The largest parseable invoice number. */
  function MaxInvoice(sales: seq<FinancialRecord>): (m: Option<nat>)
    ensures m.None? <==> forall i :: 0 <= i < |sales| ==> InvoiceValue(sales[i]).None?
    ensures m.Some? ==> (exists i :: 0 <= i < |sales| && InvoiceValue(sales[i]) == m)
                        && forall i :: 0 <= i < |sales| && InvoiceValue(sales[i]).Some? ==> InvoiceValue(sales[i]).value <= m.value
  {
    MaxOf(sales, InvoiceValue)
  }

  /** The invoice number proposed for a new sale: one more than the largest
      parseable one, or "1" when there is none. */
  function NextInvoiceNo(sales: seq<FinancialRecord>): (n: string)
    ensures MaxInvoice(sales).None? ==> n == "1"
    ensures MaxInvoice(sales).Some? ==> ParseLeadingInt(n) == Some(MaxInvoice(sales).value + 1)
    ensures AllDigits(n) && |n| > 0
  {
    match MaxInvoice(sales)
    case None => "1"
    case Some(m) =>
      NatToStringRoundTrip(m + 1);
      NatToString(m + 1)
  }

  /** The proposed number repeats no existing invoice number. */
  lemma NextInvoiceIsNew(sales: seq<FinancialRecord>, i: int)
    requires 0 <= i < |sales|
    ensures sales[i].invoiceNo != Some(NextInvoiceNo(sales))
  {
  }

  // ---------------------------------------------------------------------------
  // Milk sales

  const CashCustomerName := "Cash Customer"
  const SaleRequiredMessage := "Customer, amount, and date are required."
  const SaleFailedMessage := "Failed to record milk sale."

  /** The sale dialog's customer key: null for the cash customer, the ledger
      id of a picked customer, or absent in a dialog opened on a stored sale
      until a customer is picked in it again. */
  datatype CustomerKey = CashKey | AccountKey(id: string) | KeyAbsent

  /** The account id a sale record carries for a key. */
  function KeyAccount(k: CustomerKey): Option<string> {
    match k
    case AccountKey(id) => Some(id)
    case _ => None
  }

  /** The sale dialog's fields. */
  datatype SaleForm = SaleForm(
    customerName: string,
    customerId: CustomerKey,
    invoiceNo: string,
    quantity: int,
    rate: int,
    amount: int,
    date: Option<Day>)

  /** The effect that runs whenever quantity or rate changes. */
  function Priced(form: SaleForm): (r: SaleForm)
    ensures r.amount == r.quantity * r.rate
    ensures r.(amount := form.amount) == form
  {
    form.(amount := form.quantity * form.rate)
  }

  predicate SaleComplete(form: SaleForm) {
    form.customerName != "" && form.amount != 0 && form.date.Some?
  }

  /** The financial record a sale becomes, under document id `id`. */
  function SaleRecord(form: SaleForm, id: string): (r: FinancialRecord)
    requires form.date.Some?
    ensures r.recordType == Receipt <==> form.customerName == CashCustomerName
    ensures r.recordType != Receipt ==> r.recordType == MilkSale
    ensures r.category == Some(Ledger.MilkSaleCategory)
    ensures r.description == "Milk sale to " + form.customerName
    ensures r.accountId == KeyAccount(form.customerId) && r.amount == form.amount && r.date == form.date.value
  {
    FinancialRecord(
      id, form.date.value,
      if form.customerName == CashCustomerName then Receipt else MilkSale,
      Some("Milk Sale"), form.amount, "Milk sale to " + form.customerName,
      Some(form.customerName), Some(form.quantity), Some(form.rate), KeyAccount(form.customerId), Some(form.invoiceNo))
  }

  /** Saving the sale dialog: an incomplete form writes nothing; a form with
      an absent customer key carries an undefined account id, which the store
      client refuses, so it writes nothing either; otherwise a new sale is
      added under `newId`, and an edited sale keeps its id and takes the
      form's fields. */
  function SaveSale(store: seq<FinancialRecord>, form: SaleForm, editing: Option<string>, newId: string)
    : (r: Result<seq<FinancialRecord>, string>)
    ensures r.Failure? <==> !SaleComplete(form) || form.customerId.KeyAbsent?
    ensures !SaleComplete(form) ==> r == Failure(SaleRequiredMessage)
    ensures SaleComplete(form) && r.Failure? ==> r == Failure(SaleFailedMessage)
    ensures r.Success? && editing.None? ==> r.value == store + [SaleRecord(form, newId)]
    ensures r.Success? && editing.Some? ==>
      (|r.value| == |store|
       && forall i :: 0 <= i < |store| ==>
            r.value[i] == if store[i].id == editing.value then SaleRecord(form, store[i].id) else store[i])
  {
    if !SaleComplete(form) then Failure(SaleRequiredMessage)
    else if form.customerId.KeyAbsent? then Failure(SaleFailedMessage)
    else
      match editing
      case None => Success(store + [SaleRecord(form, newId)])
      case Some(id) => Success(Map(store, (x: FinancialRecord) => if x.id == id then SaleRecord(form, x.id) else x))
  }

  /** A priced sale is recorded at quantity × rate. */
  lemma SaleAmountIsQuantityTimesRate(form: SaleForm, id: string)
    requires form.date.Some?
    ensures SaleRecord(Priced(form), id).amount == form.quantity * form.rate
  {
  }

  /** A cash sale is a credit in the cash-customer ledger. */
  lemma CashSaleCreditsCashLedger(form: SaleForm, id: string)
    requires form.date.Some? && form.customerName == CashCustomerName
    ensures Ledger.InAccount(Ledger.CashCustomer, SaleRecord(form, id))
    ensures Ledger.Credit(SaleRecord(form, id)) == form.amount && Ledger.Debit(SaleRecord(form, id)) == 0
  {
  }

  /** A sale to a named customer is a debit in that customer's ledger, and it
      is also listed in the cash-customer ledger, which takes every milk sale. */
  lemma NamedSaleDebitsCustomer(form: SaleForm, id: string, customer: string)
    requires form.date.Some? && form.customerName != CashCustomerName
    requires form.customerId == AccountKey(customer) && customer != Ledger.CashCustomer
    ensures Ledger.InAccount(customer, SaleRecord(form, id))
    ensures Ledger.Debit(SaleRecord(form, id)) == form.amount && Ledger.Credit(SaleRecord(form, id)) == 0
    ensures Ledger.InAccount(Ledger.CashCustomer, SaleRecord(form, id))
  {
  }

  /** The dialog opened on a stored sale: the sale's own fields, which carry
      no customer key. A field the record lacks is shown empty. */
  function SaleEditForm(sale: FinancialRecord): (f: SaleForm)
    ensures f.customerId == KeyAbsent
    ensures f.date == Some(sale.date) && f.amount == sale.amount
    ensures sale.customerName.Some? ==> f.customerName == sale.customerName.value
  {
    SaleForm(
      if sale.customerName.Some? then sale.customerName.value else "",
      KeyAbsent,
      if sale.invoiceNo.Some? then sale.invoiceNo.value else "",
      if sale.quantity.Some? then sale.quantity.value else 0,
      if sale.rate.Some? then sale.rate.value else 0,
      sale.amount, Some(sale.date))
  }

  /** Saving an edit dialog without picking the customer again never writes:
      the stored sale stays as it was. */
  lemma UnpickedSaleEditFails(store: seq<FinancialRecord>, sale: FinancialRecord, newId: string)
    ensures SaveSale(store, SaleEditForm(sale), Some(sale.id), newId).Failure?
    ensures sale.customerName.Some? && sale.customerName.value != "" && sale.amount != 0 ==>
      SaveSale(store, SaleEditForm(sale), Some(sale.id), newId) == Failure(SaleFailedMessage)
  {
  }

  /** Picking a customer again makes an edit that writes. */
  lemma RepickedSaleEditSaves(store: seq<FinancialRecord>, sale: FinancialRecord, key: CustomerKey, newId: string)
    requires !key.KeyAbsent?
    requires sale.customerName.Some? && sale.customerName.value != "" && sale.amount != 0
    ensures SaveSale(store, SaleEditForm(sale).(customerId := key), Some(sale.id), newId).Success?
  {
  }

  function MilkSaleTest(): FinancialRecord -> bool {
    (r: FinancialRecord) => r.category == Some(Ledger.MilkSaleCategory)
  }

  /** The sales list: the finance records in category Milk Sale. */
  function MilkSales(records: seq<FinancialRecord>): (r: seq<FinancialRecord>)
    ensures forall i :: 0 <= i < |r| ==> r[i] in records && r[i].category == Some(Ledger.MilkSaleCategory)
    ensures forall i :: 0 <= i < |records| && records[i].category == Some(Ledger.MilkSaleCategory) ==> records[i] in r
  {
    FilterMembers(records, MilkSaleTest());
    Filter(records, MilkSaleTest())
  }
}
