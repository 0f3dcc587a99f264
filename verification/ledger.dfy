/** The account ledger: the transactions of one account, stably sorted by day,
    an opening balance from the transactions before the window, the
    transactions inside the window each with its debit/credit split and
    running balance, and a closing balance. */
module Ledger {
  import opened Wrappers
  import opened Text
  import opened Seqs
  import opened Calendar
  import opened Domain

  /** The pseudo-account that collects the milk sales. */
  const CashCustomer: string := "cash-customer"

  const MilkSaleCategory: string := "Milk Sale"

  /** Whether `r` belongs to the ledger of `account`. For the cash-customer
      pseudo-account this is every milk sale, whatever customer it names. */
  predicate InAccount(account: string, r: FinancialRecord) {
    if account == CashCustomer then
      r.category == Some(MilkSaleCategory) && (r.recordType == Receipt || r.recordType == MilkSale)
    else
      r.accountId == Some(account)
  }

  function AccountTest(account: string): FinancialRecord -> bool {
    r => InAccount(account, r)
  }

  /** The sign rule: a Receipt credits the account, anything else debits it. */
  function Credit(r: FinancialRecord): int {
    if r.recordType == Receipt then r.amount else 0
  }

  function Debit(r: FinancialRecord): int {
    if r.recordType != Receipt then r.amount else 0
  }

  function Net(r: FinancialRecord): int {
    Credit(r) - Debit(r)
  }

  function DayKey(r: FinancialRecord): int {
    r.date
  }

  function BeforeTest(from: Day): FinancialRecord -> bool {
    (r: FinancialRecord) => r.date < from
  }

  function WindowTest(range: DateRange): FinancialRecord -> bool {
    (r: FinancialRecord) => InRange(range, r.date)
  }

  /** The invoice line shown for a milk sale on credit:
      `Inv#<invoice number>: <quantity>L @ ₹<rate>`. */
  function InvoiceLine(invoiceNo: string, quantity: int, rate: int): (d: string)
    ensures StartsWith(d, "Inv#")
  {
    var tail := invoiceNo + ": " + IntToString(quantity) + "L @ \U{20B9}" + IntToString(rate);
    assert ("Inv#" + tail)[..4] == "Inv#";
    "Inv#" + tail
  }

  /** The description shown for a row: a milk sale on credit is shown as the
      invoice line of its invoice number, quantity and rate, a missing one
      shown as empty or 0; everything else as stored. */
  function RowDescription(r: FinancialRecord): (d: string)
    ensures r.category == Some(MilkSaleCategory) && r.recordType != Receipt ==>
      d == InvoiceLine(r.invoiceNo.GetOr(""), r.quantity.GetOr(0), r.rate.GetOr(0))
    ensures r.category == Some(MilkSaleCategory) && r.recordType != Receipt ==> StartsWith(d, "Inv#")
    ensures d != r.description ==> r.category == Some(MilkSaleCategory) && r.recordType != Receipt
  {
    if r.category == Some(MilkSaleCategory) && r.recordType != Receipt then
      InvoiceLine(r.invoiceNo.GetOr(""), r.quantity.GetOr(0), r.rate.GetOr(0))
    else
      r.description
  }

  /** Reads an invoice line back: the invoice number up to the first ':', then
      the quantity as the digits after ": " up to "L @ ₹", then the rate as the
      digits after that marker. */
  function ReadInvoiceLine(d: string): Option<(string, nat, nat)> {
    if !StartsWith(d, "Inv#") then None
    else
      var rest := d[4..];
      match IndexOf(rest, ':')
      case None => None
      case Some(k) =>
        var after := rest[k + 1..];
        if !StartsWith(after, " ") then None
        else
          match ReadAmounts(after[1..])
          case None => None
          case Some((quantity, rate)) => Some((rest[..k], quantity, rate))
  }

  /** Reads `<quantity>L @ ₹<rate>`: the leading digits, the marker, and the
      leading digits after it. */
  function ReadAmounts(nums: string): Option<(nat, nat)> {
    var n := DigitRun(nums);
    var tail := nums[n..];
    if n == 0 || !StartsWith(tail, InvoiceRateMarker) then None
    else
      match ParseLeadingInt(tail[|InvoiceRateMarker|..])
      case None => None
      case Some(rate) => Some((DigitsValue(nums[..n]), rate))
  }

  lemma ReadAfterPrefix(rest: string, invoiceNo: string, nums: string, quantity: nat, rate: nat)
    requires IndexOf(rest, ':') == Some(|invoiceNo|)
    requires rest[..|invoiceNo|] == invoiceNo && rest[|invoiceNo| + 1..] == " " + nums
    requires ReadAmounts(nums) == Some((quantity, rate))
    ensures ReadInvoiceLine("Inv#" + rest) == Some((invoiceNo, quantity, rate))
  {
    var d := "Inv#" + rest;
    assert d[..4] == "Inv#" && d[4..] == rest;
    assert (" " + nums)[..1] == " " && (" " + nums)[1..] == nums;
  }

  lemma ReadAmountsBack(quantity: nat, rate: nat)
    ensures ReadAmounts(NatToString(quantity) + InvoiceRateMarker + NatToString(rate)) == Some((quantity, rate))
  {
    var qs, rs := NatToString(quantity), NatToString(rate);
    var nums := qs + InvoiceRateMarker + rs;
    DigitRunStops(qs, InvoiceRateMarker + rs);
    assert nums == qs + (InvoiceRateMarker + rs);
    assert nums[..|qs|] == qs;
    assert nums[|qs|..] == InvoiceRateMarker + rs;
    assert (InvoiceRateMarker + rs)[|InvoiceRateMarker|..] == rs;
    NatToStringValue(quantity);
    NatToStringRoundTrip(rate);
  }

  const InvoiceRateMarker: string := "L @ \U{20B9}"

  /** The invoice line of a sale gives back its invoice number, quantity and
      rate, as long as the invoice number holds no ':' and the numbers are not
      negative. */
  lemma InvoiceLineReadsBack(invoiceNo: string, quantity: nat, rate: nat)
    requires ':' !in invoiceNo
    ensures ReadInvoiceLine(InvoiceLine(invoiceNo, quantity, rate)) == Some((invoiceNo, quantity, rate))
  {
    var qs, rs := NatToString(quantity), NatToString(rate);
    var d := InvoiceLine(invoiceNo, quantity, rate);
    var nums := qs + InvoiceRateMarker + rs;
    var rest := invoiceNo + [':'] + (" " + nums);
    assert d == "Inv#" + rest;
    assert d[4..] == rest;
    IndexOfAfterHead(invoiceNo, ':', " " + nums);
    assert (" " + nums)[1..] == nums;
    ReadAmountsBack(quantity, rate);
    ReadAfterPrefix(rest, invoiceNo, nums, quantity, rate);
  }

  datatype LedgerRow = LedgerRow(record: FinancialRecord, description: string, credit: int, debit: int, balance: int)

  datatype LedgerView = LedgerView(rows: seq<LedgerRow>, opening: int, closing: int)

  function RowFor(r: FinancialRecord, balance: int): LedgerRow {
    LedgerRow(r, RowDescription(r), Credit(r), Debit(r), balance)
  }

  /** Annotates `txs` with running balances starting from `start`. */
  function Annotate(txs: seq<FinancialRecord>, start: int): (rows: seq<LedgerRow>)
    ensures |rows| == |txs|
    ensures forall i :: 0 <= i < |txs| ==> rows[i].record == txs[i]
    ensures forall i :: 0 <= i < |txs| ==>
      rows[i].credit + rows[i].debit == txs[i].amount
      && (txs[i].recordType == Receipt ==> rows[i].credit == txs[i].amount && rows[i].debit == 0)
      && (txs[i].recordType != Receipt ==> rows[i].debit == txs[i].amount && rows[i].credit == 0)
    ensures forall i :: 0 <= i < |txs| ==>
      ((txs[i].category == Some(MilkSaleCategory) && txs[i].recordType != Receipt ==>
          StartsWith(rows[i].description, "Inv#"))
       && (rows[i].description != txs[i].description ==>
          txs[i].category == Some(MilkSaleCategory) && txs[i].recordType != Receipt))
    ensures |txs| > 0 ==> rows[0].balance == start + rows[0].credit - rows[0].debit
    ensures forall i :: 0 < i < |txs| ==>
      rows[i].balance == rows[i - 1].balance + rows[i].credit - rows[i].debit
  {
    if |txs| == 0 then []
    else
      var b := start + Credit(txs[0]) - Debit(txs[0]);
      [RowFor(txs[0], b)] + Annotate(txs[1..], b)
  }

  function Records(rows: seq<LedgerRow>): (r: seq<FinancialRecord>)
    ensures |r| == |rows|
    ensures forall i :: 0 <= i < |rows| ==> r[i] == rows[i].record
  {
    if |rows| == 0 then [] else Records(rows[..|rows| - 1]) + [rows[|rows| - 1].record]
  }

  /** The ledger of `account` ("" when none is selected) over `range`. */
  function Compute(records: seq<FinancialRecord>, account: string, range: DateRange): (v: LedgerView)
    ensures account == "" ==> v.rows == [] && v.opening == 0 && v.closing == 0
    ensures range.from.None? ==> v.opening == 0
    ensures forall i :: 0 <= i < |v.rows| ==>
      InAccount(account, v.rows[i].record) && InRange(range, v.rows[i].record.date)
    ensures forall i, j :: 0 <= i < j < |v.rows| ==> v.rows[i].record.date <= v.rows[j].record.date
  {
    if account == "" then LedgerView([], 0, 0)
    else
      var sorted := SortByKey(Filter(records, AccountTest(account)), DayKey);
      var opening := match range.from
        case None => 0
        case Some(f) => SumOf(Filter(sorted, BeforeTest(f)), Net);
      var inRange := Filter(sorted, WindowTest(range));
      SortedFilter(sorted, WindowTest(range), DayKey);
      FilterAll(Filter(records, AccountTest(account)), AccountTest(account));
      FilterTwiceHolds(Filter(records, AccountTest(account)), sorted, AccountTest(account), WindowTest(range), DayKey);
      Balances(inRange, opening, range.from.Some?)
  }

  /** The rows of the window `inRange` with running balances from `opening`,
      and the closing balance: the last row's balance when there are rows or
      no start day, the opening balance otherwise. */
  function Balances(inRange: seq<FinancialRecord>, opening: int, hasStart: bool): (v: LedgerView)
    ensures v.rows == Annotate(inRange, opening) && v.opening == opening
  {
    var rows := Annotate(inRange, opening);
    var current := if |rows| == 0 then opening else rows[|rows| - 1].balance;
    var closing := if |inRange| > 0 || !hasStart then current else opening;
    LedgerView(rows, opening, closing)
  }

  /** The closing balance of a window is its opening plus the net of its rows. */
  lemma BalancesClosing(inRange: seq<FinancialRecord>, opening: int, hasStart: bool)
    ensures Balances(inRange, opening, hasStart).closing == opening + SumOf(inRange, Net)
    ensures |inRange| > 0 ==>
      Balances(inRange, opening, hasStart).closing == Annotate(inRange, opening)[|inRange| - 1].balance
  {
    if |inRange| > 0 {
      AnnotateBalance(inRange, opening, |inRange| - 1);
      assert inRange[..|inRange|] == inRange;
    }
  }

  /** Filtering a sorted sequence keeps it sorted. */
  lemma {:induction false} SortedFilter<T>(s: seq<T>, p: T -> bool, key: T -> int)
    requires SortedBy(s, key)
    ensures SortedBy(Filter(s, p), key)
  {
    if |s| > 0 {
      var init := s[..|s| - 1];
      assert SortedBy(init, key);
      SortedFilter(init, p, key);
      if p(s[|s| - 1]) {
        assert KeysAtMost(init, key, key(s[|s| - 1]));
        FilterKeysAtMost(init, p, key, key(s[|s| - 1]));
      }
    }
  }

  /** Every element of the sorted, twice-filtered sequence passes both tests. */
  lemma FilterTwiceHolds<T>(f: seq<T>, sorted: seq<T>, p: T -> bool, q: T -> bool, key: T -> int)
    requires f == Filter(f, p)
    requires sorted == SortByKey(f, key)
    ensures forall i :: 0 <= i < |Filter(sorted, q)| ==> p(Filter(sorted, q)[i]) && q(Filter(sorted, q)[i])
  {
    FilterSortCommute(f, key, q);
    FilterSortCommute(f, key, p);
    var r := Filter(sorted, q);
    FilterFilter(sorted, q, p);
    assert Filter(sorted, p) == sorted;
    FilterFilter(sorted, p, q);
  }

  // ---------------------------------------------------------------------------
  // Properties of the ledger

  lemma RecordsOfAnnotate(txs: seq<FinancialRecord>, start: int)
    ensures Records(Annotate(txs, start)) == txs
  {
  }

  /** The rows are exactly the account's records inside the window, stably
      sorted by day. For the cash-customer pseudo-account these are all milk
      sales, named-customer sales included. */
  lemma RowsAreWindowedAccountRecords(records: seq<FinancialRecord>, account: string, range: DateRange)
    requires account != ""
    ensures Records(Compute(records, account, range).rows)
         == SortByKey(Filter(records, Both(AccountTest(account), WindowTest(range))), DayKey)
  {
    var a := Filter(records, AccountTest(account));
    var sorted := SortByKey(a, DayKey);
    var opening := Compute(records, account, range).opening;
    FilterSortCommute(a, DayKey, WindowTest(range));
    FilterFilter(records, AccountTest(account), WindowTest(range));
    RecordsOfAnnotate(Filter(sorted, WindowTest(range)), opening);
  }

  /** The rows are a permutation of the matching records, and records sharing
      a day keep their order in the log. */
  lemma RowsPermuteAndKeepOrder(records: seq<FinancialRecord>, account: string, range: DateRange, day: Day)
    requires account != ""
    ensures multiset(Records(Compute(records, account, range).rows))
         == multiset(Filter(records, Both(AccountTest(account), WindowTest(range))))
    ensures Filter(Records(Compute(records, account, range).rows), KeyIs(DayKey, day))
         == Filter(Filter(records, Both(AccountTest(account), WindowTest(range))), KeyIs(DayKey, day))
  {
    var f := Filter(records, Both(AccountTest(account), WindowTest(range)));
    RowsAreWindowedAccountRecords(records, account, range);
    SortPermutes(f, DayKey);
    SortIsStable(f, DayKey, day);
  }

  /** With a start day, the opening balance is the net of the account's
      records dated strictly before it. */
  lemma OpeningIsNetBefore(records: seq<FinancialRecord>, account: string, range: DateRange)
    requires account != "" && range.from.Some?
    ensures Compute(records, account, range).opening
         == SumOf(Filter(records, Both(AccountTest(account), BeforeTest(range.from.value))), Net)
  {
    var a := Filter(records, AccountTest(account));
    var before := BeforeTest(range.from.value);
    FilterSortCommute(a, DayKey, before);
    SumOfSort(Filter(a, before), DayKey, Net);
    FilterFilter(records, AccountTest(account), before);
  }

  /** Each row's balance is the opening balance plus the net of every row up
      to and including it. */
  lemma {:induction false} AnnotateBalance(txs: seq<FinancialRecord>, start: int, i: int)
    requires 0 <= i < |txs|
    ensures Annotate(txs, start)[i].balance == start + SumOf(txs[..i + 1], Net)
  {
    var rows := Annotate(txs, start);
    var p := txs[..i + 1];
    assert p[..i] == txs[..i] && p[i] == txs[i];
    assert SumOf(p, Net) == SumOf(txs[..i], Net) + Net(txs[i]);
    assert Net(txs[i]) == rows[i].credit - rows[i].debit;
    if i > 0 {
      AnnotateBalance(txs, start, i - 1);
    }
  }

  lemma RowBalanceIsPrefixSum(records: seq<FinancialRecord>, account: string, range: DateRange, i: int)
    requires 0 <= i < |Compute(records, account, range).rows|
    ensures Compute(records, account, range).rows[i].balance
         == Compute(records, account, range).opening
            + SumOf(Records(Compute(records, account, range).rows)[..i + 1], Net)
  {
    var v := Compute(records, account, range);
    var sorted := SortByKey(Filter(records, AccountTest(account)), DayKey);
    var inRange := Filter(sorted, WindowTest(range));
    RecordsOfAnnotate(inRange, v.opening);
    AnnotateBalance(inRange, v.opening, i);
  }

  /** The closing balance is the opening balance plus the net of the rows:
      the last row's balance, or the opening balance when there are none. */
  lemma ClosingIsOpeningPlusNet(records: seq<FinancialRecord>, account: string, range: DateRange)
    ensures Compute(records, account, range).closing
         == Compute(records, account, range).opening + SumOf(Records(Compute(records, account, range).rows), Net)
    ensures |Compute(records, account, range).rows| == 0 ==>
      Compute(records, account, range).closing == Compute(records, account, range).opening
    ensures |Compute(records, account, range).rows| > 0 ==>
      Compute(records, account, range).closing
        == Compute(records, account, range).rows[|Compute(records, account, range).rows| - 1].balance
  {
    if account != "" {
      var v := Compute(records, account, range);
      var sorted := SortByKey(Filter(records, AccountTest(account)), DayKey);
      var inRange := Filter(sorted, WindowTest(range));
      assert v == Balances(inRange, v.opening, range.from.Some?);
      BalancesClosing(inRange, v.opening, range.from.Some?);
      RecordsOfAnnotate(inRange, v.opening);
    }
  }

  /** Opening the window at day D gives the balance that a window closing on
      day D - 1 ends with. */
  lemma OpeningMatchesEarlierClosing(records: seq<FinancialRecord>, account: string, d: Day, to: Option<Day>)
    ensures Compute(records, account, DateRange(Some(d), to)).opening
         == Compute(records, account, DateRange(None, Some(d - 1))).closing
  {
    if account != "" {
      var early := DateRange(None, Some(d - 1));
      OpeningIsNetBefore(records, account, DateRange(Some(d), to));
      ClosingIsOpeningPlusNet(records, account, early);
      RowsAreWindowedAccountRecords(records, account, early);
      var f := Filter(records, Both(AccountTest(account), WindowTest(early)));
      SumOfSort(f, DayKey, Net);
      FilterCongruent(records, Both(AccountTest(account), BeforeTest(d)), Both(AccountTest(account), WindowTest(early)));
    }
  }

  /** With no window the closing balance is the net of all the account's
      records. */
  lemma ClosingOverAllTime(records: seq<FinancialRecord>, account: string)
    requires account != ""
    ensures Compute(records, account, DateRange(None, None)).closing == SumOf(Filter(records, AccountTest(account)), Net)
  {
    var all := DateRange(None, None);
    ClosingIsOpeningPlusNet(records, account, all);
    RowsAreWindowedAccountRecords(records, account, all);
    var f := Filter(records, Both(AccountTest(account), WindowTest(all)));
    SumOfSort(f, DayKey, Net);
    FilterCongruent(records, Both(AccountTest(account), WindowTest(all)), AccountTest(account));
  }
}
