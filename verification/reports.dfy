/** The herd reports: the day-by-day population summary, the cross-tabulated
    summary over a period, the per-animal check-in/check-out report and the
    filtered animal register. Each is a pure function of the animal register
    and the movement log; the current year is a parameter. */
module Reports {
  import opened Wrappers
  import opened Text
  import opened Seqs
  import opened Calendar
  import opened Domain
  import opened Herd

  // ---------------------------------------------------------------------------
  // Scope and cohorts

  /** The animal-type picker: "All" or one type. */
  function TypeTest(typeFilter: string): Animal -> bool {
    (a: Animal) => typeFilter == "All" || a.animalType == typeFilter
  }

  /** The young cohort: at most three years old in `year`. */
  predicate Young(a: Animal, year: int) {
    year - a.yearOfBirth <= 3
  }

  // ---------------------------------------------------------------------------
  // Daily summary

  /** Head counts by gender and by cohort (0-3 years, over 3 years). */
  datatype Counts = Counts(male: int, female: int, young: int, older: int)

  const NoCounts: Counts := Counts(0, 0, 0, 0)

  /** Each animal is counted once by gender and once by cohort. */
  predicate Balanced(c: Counts) {
    c.male + c.female == c.young + c.older
  }

  function Total(c: Counts): int {
    c.male + c.female
  }

  /** Counts one more animal: in its own gender column and in its own cohort
      column, aged in `year`, and in no other. */
  function Tally(c: Counts, a: Animal, year: int): (r: Counts)
    ensures r.male == c.male + (if a.gender == Male then 1 else 0)
    ensures r.female == c.female + (if a.gender == Female then 1 else 0)
    ensures r.young == c.young + (if Young(a, year) then 1 else 0)
    ensures r.older == c.older + (if Young(a, year) then 0 else 1)
    ensures Total(r) == Total(c) + 1
    ensures Balanced(c) ==> Balanced(r)
  {
    var g := match a.gender
      case Male => c.(male := c.male + 1)
      case Female => c.(female := c.female + 1);
    if Young(a, year) then g.(young := g.young + 1) else g.(older := g.older + 1)
  }

  /** The four columns of a head count. */
  datatype Column = MaleColumn | FemaleColumn | YoungColumn | OlderColumn

  function CountIn(c: Counts, col: Column): int {
    match col
    case MaleColumn => c.male
    case FemaleColumn => c.female
    case YoungColumn => c.young
    case OlderColumn => c.older
  }

  /** The animals that belong in column `col` when aged in `year`. */
  function ColumnTest(col: Column, year: int): Animal -> bool {
    (a: Animal) =>
      match col
      case MaleColumn => a.gender == Male
      case FemaleColumn => a.gender == Female
      case YoungColumn => Young(a, year)
      case OlderColumn => !Young(a, year)
  }

  /** opening + in - out, cell by cell. */
  function Carry(opening: Counts, inflow: Counts, outflow: Counts): Counts {
    Counts(opening.male + inflow.male - outflow.male,
           opening.female + inflow.female - outflow.female,
           opening.young + inflow.young - outflow.young,
           opening.older + inflow.older - outflow.older)
  }

  lemma {:induction false} CarryBalanced(opening: Counts, inflow: Counts, outflow: Counts)
    requires Balanced(opening) && Balanced(inflow) && Balanced(outflow)
    ensures Balanced(Carry(opening, inflow, outflow))
  {
  }

  /** The animals counted in the opening balance of `start`: those in scope
      whose last movement before that day is an Entry. */
  function OpeningTest(ids: set<string>, movements: seq<Movement>, start: Day): Animal -> bool {
    (a: Animal) => a.id in ids && PresentBefore(movements, a.id, start)
  }

  /** The opening balance of the first day: every animal of the register whose
      id is in scope and who was present before `start`, aged in `start`'s year. */
  function OpeningCounts(animals: seq<Animal>, ids: set<string>, movements: seq<Movement>, start: Day): (c: Counts)
    ensures Balanced(c)
    ensures forall col ::
      CountIn(c, col) == Count(animals, Both(OpeningTest(ids, movements, start), ColumnTest(col, YearOf(start))))
  {
    if |animals| == 0 then NoCounts
    else
      var c := OpeningCounts(animals[..|animals| - 1], ids, movements, start);
      var a := animals[|animals| - 1];
      if a.id in ids && PresentBefore(movements, a.id, start) then Tally(c, a, YearOf(start)) else c
  }

  /** The opening head count is the number of in-scope animals present before
      the first day. */
  lemma {:induction false} OpeningCountsTotal(animals: seq<Animal>, ids: set<string>, movements: seq<Movement>,
                                              start: Day)
    ensures Total(OpeningCounts(animals, ids, movements, start)) == Count(animals, OpeningTest(ids, movements, start))
  {
    if |animals| > 0 {
      OpeningCountsTotal(animals[..|animals| - 1], ids, movements, start);
    }
  }

  /** One day's arrivals and departures with their non-empty reasons. */
  datatype Flow = Flow(inflow: Counts, inReasons: seq<string>, outflow: Counts, outReasons: seq<string>)

  function KindTest(animals: seq<Animal>, kind: MovementType): Movement -> bool {
    (m: Movement) => m.kind == kind && m.animalId in IdsOf(animals)
  }

  function ReasonTest(animals: seq<Animal>, kind: MovementType): Movement -> bool {
    (m: Movement) => m.kind == kind && m.animalId in IdsOf(animals) && m.reason != ""
  }

  function ReasonsOf(ms: seq<Movement>): (r: seq<string>)
    ensures |r| == |ms|
    ensures forall i :: 0 <= i < |ms| ==> r[i] == ms[i].reason
  {
    if |ms| == 0 then [] else ReasonsOf(ms[..|ms| - 1]) + [ms[|ms| - 1].reason]
  }

  /** Tallies `moves` into arrivals and departures, looking each animal up by
      id in the whole register and ageing it in `year`. */
  function DayFlow(moves: seq<Movement>, animals: seq<Animal>, year: int): (f: Flow)
    ensures Balanced(f.inflow) && Balanced(f.outflow)
  {
    if |moves| == 0 then Flow(NoCounts, [], NoCounts, [])
    else
      var f := DayFlow(moves[..|moves| - 1], animals, year);
      var m := moves[|moves| - 1];
      var reason := if m.reason != "" then [m.reason] else [];
      match AnimalById(animals, m.animalId)
      case None => f
      case Some(a) =>
        if m.kind == Entry then f.(inflow := Tally(f.inflow, a, year), inReasons := f.inReasons + reason)
        else f.(outflow := Tally(f.outflow, a, year), outReasons := f.outReasons + reason)
  }

  /** A day's arrival (departure) head count is the number of its Entry (Exit)
      movements whose animal is in the register. */
  lemma {:induction false} DayFlowCounts(moves: seq<Movement>, animals: seq<Animal>, year: int)
    ensures Total(DayFlow(moves, animals, year).inflow) == Count(moves, KindTest(animals, Entry))
    ensures Total(DayFlow(moves, animals, year).outflow) == Count(moves, KindTest(animals, Exit))
  {
    if |moves| > 0 {
      var init := moves[..|moves| - 1];
      DayFlowCounts(init, animals, year);
    }
  }

  /** The arrival reasons listed are the non-empty reasons of the day's Entry
      movements of register animals, in log order. */
  lemma {:induction false} DayFlowInReasons(moves: seq<Movement>, animals: seq<Animal>, year: int)
    ensures DayFlow(moves, animals, year).inReasons == ReasonsOf(Filter(moves, ReasonTest(animals, Entry)))
  {
    if |moves| > 0 {
      var init := moves[..|moves| - 1];
      var m := moves[|moves| - 1];
      DayFlowInReasons(init, animals, year);
      var p := ReasonTest(animals, Entry);
      if p(m) {
        ReasonsAppend(Filter(init, p), m);
      }
    }
  }

  /** Likewise for departures and the day's Exit movements. */
  lemma {:induction false} DayFlowOutReasons(moves: seq<Movement>, animals: seq<Animal>, year: int)
    ensures DayFlow(moves, animals, year).outReasons == ReasonsOf(Filter(moves, ReasonTest(animals, Exit)))
  {
    if |moves| > 0 {
      var init := moves[..|moves| - 1];
      var m := moves[|moves| - 1];
      DayFlowOutReasons(init, animals, year);
      var p := ReasonTest(animals, Exit);
      if p(m) {
        ReasonsAppend(Filter(init, p), m);
      }
    }
  }

  function FlowBlock(f: Flow, kind: MovementType): Counts {
    if kind == Entry then f.inflow else f.outflow
  }

  /** The movements in direction `kind` whose register animal belongs in
      column `col` when aged in `year`. */
  function FlowTest(animals: seq<Animal>, year: int, kind: MovementType, col: Column): Movement -> bool {
    (m: Movement) =>
      m.kind == kind && AnimalById(animals, m.animalId).Some?
      && ColumnTest(col, year)(AnimalById(animals, m.animalId).value)
  }

  /** Every column of a day's arrivals (departures) counts the day's Entry
      (Exit) movements whose register animal belongs in it. */
  lemma {:induction false} DayFlowColumns(moves: seq<Movement>, animals: seq<Animal>, year: int,
                                          kind: MovementType, col: Column)
    ensures CountIn(FlowBlock(DayFlow(moves, animals, year), kind), col) == Count(moves, FlowTest(animals, year, kind, col))
  {
    var p := FlowTest(animals, year, kind, col);
    if |moves| > 0 {
      var init, m := moves[..|moves| - 1], moves[|moves| - 1];
      DayFlowColumns(init, animals, year, kind, col);
      assert Count(moves, p) == Count(init, p) + if p(m) then 1 else 0;
      var f := DayFlow(init, animals, year);
      match AnimalById(animals, m.animalId)
      case None =>
        assert !p(m);
      case Some(a) =>
        var reason := if m.reason != "" then [m.reason] else [];
        if m.kind == Entry {
          assert DayFlow(moves, animals, year) == f.(inflow := Tally(f.inflow, a, year), inReasons := f.inReasons + reason);
        } else {
          assert DayFlow(moves, animals, year) == f.(outflow := Tally(f.outflow, a, year), outReasons := f.outReasons + reason);
        }
        assert p(m) == (m.kind == kind && ColumnTest(col, year)(a));
    } else {
      assert Filter(moves, p) == [];
    }
  }

  lemma {:induction false} ReasonsAppend(ms: seq<Movement>, m: Movement)
    ensures ReasonsOf(ms + [m]) == ReasonsOf(ms) + [m.reason]
  {
    assert (ms + [m])[..|ms|] == ms;
  }

  /** The movements of in-scope animals dated on day `d`. */
  function OnDayTest(ids: set<string>, d: Day): Movement -> bool {
    (m: Movement) => DayOf(m.date) == d && m.animalId in ids
  }

  datatype DailyRow = DailyRow(
    day: Day,
    opening: Counts,
    inflow: Counts,
    inReasons: string,
    outflow: Counts,
    outReasons: string,
    closing: Counts)

  /** The tally of the in-scope movements dated on day `d`, aged in `d`'s year. */
  function FlowOn(d: Day, sorted: seq<Movement>, ids: set<string>, animals: seq<Animal>): (f: Flow)
    ensures Balanced(f.inflow) && Balanced(f.outflow)
  {
    DayFlow(Filter(sorted, OnDayTest(ids, d)), animals, YearOf(d))
  }

  /** The rows of consecutive days from `d`, one per flow: the first opens
      with `opening`, each later one with the previous closing, and each
      closes with opening + in - out. */
  function RowsOf(d: Day, opening: Counts, flows: seq<Flow>): (rows: seq<DailyRow>)
    decreases |flows|
    ensures |rows| == |flows|
    ensures |rows| > 0 ==> rows[0].opening == opening
    ensures forall k :: 0 <= k < |rows| ==> rows[k].day == d + k
    ensures forall k :: 0 <= k < |rows| ==>
      rows[k].inflow == flows[k].inflow && rows[k].outflow == flows[k].outflow
      && rows[k].inReasons == Join(flows[k].inReasons, ", ") && rows[k].outReasons == Join(flows[k].outReasons, ", ")
    ensures forall k :: 0 <= k < |rows| ==> rows[k].closing == Carry(rows[k].opening, rows[k].inflow, rows[k].outflow)
    ensures forall k :: 0 <= k < |rows| - 1 ==> rows[k + 1].opening == rows[k].closing
  {
    if |flows| == 0 then []
    else
      var f := flows[0];
      var closing := Carry(opening, f.inflow, f.outflow);
      [DailyRow(d, opening, f.inflow, Join(f.inReasons, ", "), f.outflow, Join(f.outReasons, ", "), closing)]
        + RowsOf(d + 1, closing, flows[1..])
  }

  /** Rows that open balanced over balanced flows stay balanced throughout. */
  lemma {:induction false} RowsOfBalanced(d: Day, opening: Counts, flows: seq<Flow>)
    requires Balanced(opening)
    requires forall k :: 0 <= k < |flows| ==> Balanced(flows[k].inflow) && Balanced(flows[k].outflow)
    decreases |flows|
    ensures forall k :: 0 <= k < |flows| ==>
      Balanced(RowsOf(d, opening, flows)[k].opening) && Balanced(RowsOf(d, opening, flows)[k].closing)
  {
    if |flows| > 0 {
      var f := flows[0];
      CarryBalanced(opening, f.inflow, f.outflow);
      RowsOfBalanced(d + 1, Carry(opening, f.inflow, f.outflow), flows[1..]);
    }
  }

  /** The rows of days `start` .. `end`, opening with `opening`. */
  function DailyRows(start: Day, end: Day, opening: Counts, sorted: seq<Movement>, ids: set<string>,
                     animals: seq<Animal>): (rows: seq<DailyRow>)
    requires Balanced(opening)
    ensures |rows| == if start <= end then end - start + 1 else 0
    ensures |rows| > 0 ==> rows[0].opening == opening
    ensures forall k :: 0 <= k < |rows| ==> rows[k].day == start + k
    ensures forall k :: 0 <= k < |rows| - 1 ==> rows[k + 1].opening == rows[k].closing
    ensures forall k :: 0 <= k < |rows| ==>
      rows[k].closing == Carry(rows[k].opening, rows[k].inflow, rows[k].outflow)
      && Balanced(rows[k].opening) && Balanced(rows[k].closing)
  {
    var flows := FlowsOn(start, end, sorted, ids, animals);
    RowsOfBalanced(start, opening, flows);
    RowsOf(start, opening, flows)
  }

  /** The flows of days `start` .. `end`, in order. */
  function FlowsOn(start: Day, end: Day, sorted: seq<Movement>, ids: set<string>, animals: seq<Animal>)
    : (flows: seq<Flow>)
    ensures |flows| == if start <= end then end - start + 1 else 0
    ensures forall k :: 0 <= k < |flows| ==> flows[k] == FlowOn(start + k, sorted, ids, animals)
    ensures forall k :: 0 <= k < |flows| ==> Balanced(flows[k].inflow) && Balanced(flows[k].outflow)
  {
    seq(if start <= end then end - start + 1 else 0, k => FlowOn(start + k, sorted, ids, animals))
  }

  /** The daily summary for the animals of `typeFilter` over `range`: no rows
      without a start day, and a single day when the end day is missing. */
  function DailySummary(animals: seq<Animal>, movements: seq<Movement>, typeFilter: string, range: DateRange)
    : (rows: seq<DailyRow>)
    ensures range.from.None? ==> rows == []
    ensures range.from.Some? && range.to.None? ==> |rows| == 1
    ensures range.from.Some? && range.to.Some? ==>
      |rows| == if range.from.value <= range.to.value then range.to.value - range.from.value + 1 else 0
    ensures range.from.Some? ==>
      var start := range.from.value;
      var ids := ScopeIds(animals, typeFilter);
      rows == DailyRows(start, range.to.GetOr(start), OpeningCounts(animals, ids, movements, start),
                        SortByKey(movements, TimeKey), ids, animals)
  {
    match range.from
    case None => []
    case Some(start) =>
      var ids := ScopeIds(animals, typeFilter);
      var opening := OpeningCounts(animals, ids, movements, start);
      DailyRows(start, range.to.GetOr(start), opening, SortByKey(movements, TimeKey), ids, animals)
  }

  /** The in-scope animal ids of the type picker's choice. */
  function ScopeIds(animals: seq<Animal>, typeFilter: string): set<string> {
    IdsOf(Filter(animals, TypeTest(typeFilter)))
  }

  /** Row `k` of the rows from `start` carries the flow of day `start + k`. */
  lemma {:induction false} DailyRowsFlow(start: Day, end: Day, opening: Counts, sorted: seq<Movement>, ids: set<string>,
                      animals: seq<Animal>, k: int)
    requires Balanced(opening)
    requires 0 <= k < |DailyRows(start, end, opening, sorted, ids, animals)|
    ensures DailyRows(start, end, opening, sorted, ids, animals)[k].inflow == FlowOn(start + k, sorted, ids, animals).inflow
    ensures DailyRows(start, end, opening, sorted, ids, animals)[k].outflow == FlowOn(start + k, sorted, ids, animals).outflow
    ensures DailyRows(start, end, opening, sorted, ids, animals)[k].inReasons
      == Join(FlowOn(start + k, sorted, ids, animals).inReasons, ", ")
    ensures DailyRows(start, end, opening, sorted, ids, animals)[k].outReasons
      == Join(FlowOn(start + k, sorted, ids, animals).outReasons, ", ")
  {
    var flows := FlowsOn(start, end, sorted, ids, animals);
    assert flows[k] == FlowOn(start + k, sorted, ids, animals);
  }

  /** Row `k` brings in (takes out) one head per in-scope Entry (Exit)
      movement dated on day `start + k` whose animal is in the register. */
  lemma {:induction false} DailyRowsCounts(start: Day, end: Day, opening: Counts, sorted: seq<Movement>, ids: set<string>,
                        animals: seq<Animal>, k: int)
    requires Balanced(opening)
    requires 0 <= k < |DailyRows(start, end, opening, sorted, ids, animals)|
    ensures Total(DailyRows(start, end, opening, sorted, ids, animals)[k].inflow)
      == Count(Filter(sorted, OnDayTest(ids, start + k)), KindTest(animals, Entry))
    ensures Total(DailyRows(start, end, opening, sorted, ids, animals)[k].outflow)
      == Count(Filter(sorted, OnDayTest(ids, start + k)), KindTest(animals, Exit))
  {
    DailyRowsFlow(start, end, opening, sorted, ids, animals, k);
    DayFlowCounts(Filter(sorted, OnDayTest(ids, start + k)), animals, YearOf(start + k));
  }

  /** Row `k` lists the non-empty reasons of those movements, in time order,
      joined with ", ". */
  lemma {:induction false} DailyRowsReasons(start: Day, end: Day, opening: Counts, sorted: seq<Movement>, ids: set<string>,
                         animals: seq<Animal>, k: int)
    requires Balanced(opening)
    requires 0 <= k < |DailyRows(start, end, opening, sorted, ids, animals)|
    ensures DailyRows(start, end, opening, sorted, ids, animals)[k].inReasons
      == Join(ReasonsOf(Filter(Filter(sorted, OnDayTest(ids, start + k)), ReasonTest(animals, Entry))), ", ")
    ensures DailyRows(start, end, opening, sorted, ids, animals)[k].outReasons
      == Join(ReasonsOf(Filter(Filter(sorted, OnDayTest(ids, start + k)), ReasonTest(animals, Exit))), ", ")
  {
    DailyRowsFlow(start, end, opening, sorted, ids, animals, k);
    DayFlowInReasons(Filter(sorted, OnDayTest(ids, start + k)), animals, YearOf(start + k));
    DayFlowOutReasons(Filter(sorted, OnDayTest(ids, start + k)), animals, YearOf(start + k));
  }

  // ---------------------------------------------------------------------------
  // Cross-tabulated summary over a period

  /** One block of the cross-tab: the 0-3 year and over-3 year columns and
      their total. */
  datatype Cell = Cell(young: int, older: int, total: int)

  const NoCell: Cell := Cell(0, 0, 0)

  /** The total column is the sum of the two cohort columns. */
  predicate Whole(c: Cell) {
    c.total == c.young + c.older
  }

  /** Counts one more animal in its cohort and in the total. */
  function Bump(c: Cell, young: bool): (r: Cell)
    ensures r.young == c.young + (if young then 1 else 0)
    ensures r.older == c.older + (if young then 0 else 1)
    ensures r.total == c.total + 1
    ensures Whole(c) ==> Whole(r)
  {
    if young then c.(young := c.young + 1, total := c.total + 1)
    else c.(older := c.older + 1, total := c.total + 1)
  }

  /** The 0-3 year column of a block when `young`, the over-3 year column otherwise. */
  function CohortOf(c: Cell, young: bool): int {
    if young then c.young else c.older
  }

  /** opening + in - out, column by column. */
  function CloseCell(opening: Cell, inflow: Cell, outflow: Cell): Cell {
    Cell(opening.young + inflow.young - outflow.young,
         opening.older + inflow.older - outflow.older,
         opening.total + inflow.total - outflow.total)
  }

  function AddCells(a: Cell, b: Cell): Cell {
    Cell(a.young + b.young, a.older + b.older, a.total + b.total)
  }

  /** One gender's arrivals and departures over the period, with reasons. */
  datatype Half = Half(inflow: Cell, inReasons: seq<string>, outflow: Cell, outReasons: seq<string>)

  const NoHalf: Half := Half(NoCell, [], NoCell, [])

  predicate HalfWhole(h: Half) {
    Whole(h.inflow) && Whole(h.outflow)
  }

  /** One row of the cross-tab (male, female or total). */
  datatype GenderSummary = GenderSummary(
    opening: Cell,
    inflow: Cell,
    inReasons: seq<string>,
    outflow: Cell,
    outReasons: seq<string>,
    closing: Cell)

  /** Every block adds up across its columns and the closing block is the
      opening plus arrivals minus departures. */
  predicate Consistent(g: GenderSummary) {
    && Whole(g.opening) && Whole(g.inflow) && Whole(g.outflow) && Whole(g.closing)
    && g.closing == CloseCell(g.opening, g.inflow, g.outflow)
  }

  datatype CrossTab = CrossTab(male: GenderSummary, female: GenderSummary, total: GenderSummary)

  /** `startOfDay(from)` compared with an instant: an instant is before the
      start of day `d` exactly when its day is earlier than `d`. */
  lemma {:induction false} BeforeStartOfDay(t: Instant, d: Day)
    ensures t < StartOf(d) <==> DayOf(t) < d
  {
    var e := DayOf(t);
    if e < d {
      assert (e + 1) * MsPerDay <= d * MsPerDay;
    } else {
      assert d * MsPerDay <= e * MsPerDay;
    }
  }

  /** The period's movements: dated from the start of day `start` to the end
      of day `end` (`endOfDay`, the last millisecond), of an animal in scope. */
  function InPeriodTest(ids: set<string>, start: Day, end: Day): Movement -> bool {
    (m: Movement) => StartOf(start) <= m.date <= StartOf(end + 1) - 1 && m.animalId in ids
  }

  /** The period test is the day test: a movement is in the period exactly
      when its day lies between `start` and `end`. */
  lemma {:induction false} InPeriodIsDayWindow(ids: set<string>, start: Day, end: Day, m: Movement)
    ensures InPeriodTest(ids, start, end)(m) <==> start <= DayOf(m.date) <= end && m.animalId in ids
  {
    BeforeStartOfDay(m.date, start);
    BeforeStartOfDay(m.date + 1, end + 1);
    var e := DayOf(m.date);
    assert DayOf(m.date + 1) == e || DayOf(m.date + 1) == e + 1;
    if DayOf(m.date + 1) == e + 1 {
      assert m.date + 1 == (e + 1) * MsPerDay;
    }
  }

  /** `present(id)`: the last movement of animal `id` before the start of day
      `start` is an Entry. */
  function PresentTest(movements: seq<Movement>, start: Day): string -> bool {
    (id: string) => PresentBefore(movements, id, start)
  }

  /** The opening blocks of both genders: every in-scope animal (duplicates
      included) that is `present`, aged in `year`. */
  function CrossOpening(scope: seq<Animal>, present: string -> bool, year: int): (r: (Cell, Cell))
    ensures Whole(r.0) && Whole(r.1)
  {
    if |scope| == 0 then (NoCell, NoCell)
    else
      var r := CrossOpening(scope[..|scope| - 1], present, year);
      var a := scope[|scope| - 1];
      if !present(a.id) then r
      else if a.gender == Male then (Bump(r.0, Young(a, year)), r.1)
      else (r.0, Bump(r.1, Young(a, year)))
  }

  /** The animals of gender `g` that are `present` and, aged in `year`, in the
      young cohort when `young` and in the older one otherwise. */
  function PresentOfCohort(present: string -> bool, g: Gender, year: int, young: bool): Animal -> bool {
    (a: Animal) => a.gender == g && present(a.id) && Young(a, year) == young
  }

  lemma BumpCohort(c: Cell, y: bool, young: bool)
    ensures CohortOf(Bump(c, y), young) == CohortOf(c, young) + if y == young then 1 else 0
  {
  }

  /** The animals of gender `g` that are `present`. */
  function PresentOfGender(present: string -> bool, g: Gender): Animal -> bool {
    (a: Animal) => a.gender == g && present(a.id)
  }

  /** The male (female) opening total is the number of male (female) in-scope
      animals that are present. */
  lemma {:induction false} CrossOpeningCounts(scope: seq<Animal>, present: string -> bool, year: int)
    ensures CrossOpening(scope, present, year).0.total == Count(scope, PresentOfGender(present, Male))
    ensures CrossOpening(scope, present, year).1.total == Count(scope, PresentOfGender(present, Female))
    ensures CrossOpening(scope, present, year).0.young
      == Count(scope, PresentOfCohort(present, Male, year, true))
    ensures CrossOpening(scope, present, year).0.older
      == Count(scope, PresentOfCohort(present, Male, year, false))
    ensures CrossOpening(scope, present, year).1.young
      == Count(scope, PresentOfCohort(present, Female, year, true))
    ensures CrossOpening(scope, present, year).1.older
      == Count(scope, PresentOfCohort(present, Female, year, false))
  {
    CrossOpeningTotals(scope, present, year);
    CrossOpeningCohort(scope, present, year, Male, true);
    CrossOpeningCohort(scope, present, year, Male, false);
    CrossOpeningCohort(scope, present, year, Female, true);
    CrossOpeningCohort(scope, present, year, Female, false);
  }

  lemma CrossOpeningTotals(scope: seq<Animal>, present: string -> bool, year: int)
    ensures CrossOpening(scope, present, year).0.total == Count(scope, PresentOfGender(present, Male))
    ensures CrossOpening(scope, present, year).1.total == Count(scope, PresentOfGender(present, Female))
  {
    CrossOpeningTotal(scope, present, year, Male);
    CrossOpeningTotal(scope, present, year, Female);
  }

  function OpeningOf(r: (Cell, Cell), g: Gender): Cell {
    if g == Male then r.0 else r.1
  }

  /** One gender's opening total counts its present in-scope animals. */
  lemma {:induction false} CrossOpeningTotal(scope: seq<Animal>, present: string -> bool, year: int, g: Gender)
    ensures OpeningOf(CrossOpening(scope, present, year), g).total == Count(scope, PresentOfGender(present, g))
  {
    var p := PresentOfGender(present, g);
    if |scope| > 0 {
      var init, a := scope[..|scope| - 1], scope[|scope| - 1];
      assert scope == init + [a];
      CrossOpeningTotal(init, present, year, g);
      CrossOpeningTotalStep(init, a, present, year, g);
      assert Count(scope, p) == Count(init, p) + if p(a) then 1 else 0;
    } else {
      assert CrossOpening(scope, present, year) == (NoCell, NoCell);
      assert Filter(scope, p) == [];
    }
  }

  /** Adding one animal to the scope moves a gender's opening total by one
      exactly when the animal is of that gender and present. */
  lemma CrossOpeningTotalStep(init: seq<Animal>, a: Animal, present: string -> bool, year: int, g: Gender)
    ensures OpeningOf(CrossOpening(init + [a], present, year), g).total
      == OpeningOf(CrossOpening(init, present, year), g).total + if PresentOfGender(present, g)(a) then 1 else 0
  {
    var s := init + [a];
    assert s[..|s| - 1] == init && s[|s| - 1] == a;
  }

  /** One cohort column of one gender's opening block counts the present
      in-scope animals of that gender and cohort. */
  lemma {:induction false} CrossOpeningCohort(scope: seq<Animal>, present: string -> bool, year: int, g: Gender,
                                              young: bool)
    ensures CohortOf(OpeningOf(CrossOpening(scope, present, year), g), young)
      == Count(scope, PresentOfCohort(present, g, year, young))
  {
    var p := PresentOfCohort(present, g, year, young);
    if |scope| > 0 {
      var init, a := scope[..|scope| - 1], scope[|scope| - 1];
      CrossOpeningCohort(init, present, year, g, young);
      assert Count(scope, p) == Count(init, p) + if p(a) then 1 else 0;
      assert p(a) == (a.gender == g && present(a.id) && Young(a, year) == young);
      var r := CrossOpening(init, present, year);
      var r' := CrossOpening(scope, present, year);
      if !present(a.id) {
        assert r' == r;
      } else {
        assert r' == if a.gender == Male then (Bump(r.0, Young(a, year)), r.1) else (r.0, Bump(r.1, Young(a, year)));
        assert OpeningOf(r', a.gender) == Bump(OpeningOf(r, a.gender), Young(a, year));
        BumpCohort(OpeningOf(r, a.gender), Young(a, year), young);
      }
      assert CohortOf(OpeningOf(r', g), young) == CohortOf(OpeningOf(r, g), young) + if p(a) then 1 else 0;
      assert CohortOf(OpeningOf(r', g), young) == Count(scope, p);
    } else {
      assert CrossOpening(scope, present, year) == (NoCell, NoCell);
      assert Filter(scope, p) == [];
    }
  }

  /** `animalMap.get(id)` over the in-scope animals. */
  function LookupIn(scope: seq<Animal>): string -> Option<Animal> {
    (id: string) => AnimalById(scope, id)
  }

  /** Tallies the period's movements into the male and female halves, looking
      each animal up with `lookup` and ageing it in the year of the movement. */
  function CrossMoves(moves: seq<Movement>, lookup: string -> Option<Animal>): (r: (Half, Half))
    ensures HalfWhole(r.0) && HalfWhole(r.1)
  {
    if |moves| == 0 then (NoHalf, NoHalf)
    else
      var r := CrossMoves(moves[..|moves| - 1], lookup);
      var m := moves[|moves| - 1];
      match lookup(m.animalId)
      case None => r
      case Some(a) =>
        var h := if a.gender == Male then r.0 else r.1;
        var h' := TallyMove(h, m, Young(a, YearOf(DayOf(m.date))));
        if a.gender == Male then (h', r.1) else (r.0, h')
  }

  /** Counts one movement into a half: its direction's block, and its reason
      when it has one. */
  function TallyMove(h: Half, m: Movement, young: bool): (r: Half)
    ensures HalfWhole(h) ==> HalfWhole(r)
  {
    var reason := if m.reason != "" then [m.reason] else [];
    if m.kind == Entry then h.(inflow := Bump(h.inflow, young), inReasons := h.inReasons + reason)
    else h.(outflow := Bump(h.outflow, young), outReasons := h.outReasons + reason)
  }

  /** The movements in direction `kind` of a known animal of gender `g`. */
  function MoveOfGender(lookup: string -> Option<Animal>, g: Gender, kind: MovementType): Movement -> bool {
    (m: Movement) => m.kind == kind && lookup(m.animalId).Some? && lookup(m.animalId).value.gender == g
  }

  function HalfOf(r: (Half, Half), g: Gender): Half {
    if g == Male then r.0 else r.1
  }

  function BlockOf(h: Half, kind: MovementType): Cell {
    if kind == Entry then h.inflow else h.outflow
  }

  /** Each block's total is the number of the period's movements of that
      gender and direction, and each of its cohort columns the number of those
      whose animal is in that cohort in the year of the movement. */
  lemma CrossMovesCounts(moves: seq<Movement>, lookup: string -> Option<Animal>, g: Gender, kind: MovementType)
    ensures BlockOf(HalfOf(CrossMoves(moves, lookup), g), kind).total == Count(moves, MoveOfGender(lookup, g, kind))
    ensures BlockOf(HalfOf(CrossMoves(moves, lookup), g), kind).young == Count(moves, MoveOfCohort(lookup, g, kind, true))
    ensures BlockOf(HalfOf(CrossMoves(moves, lookup), g), kind).older == Count(moves, MoveOfCohort(lookup, g, kind, false))
  {
    CrossMovesTotals(moves, lookup, g, kind);
    CrossMovesCohort(moves, lookup, g, kind, true);
    CrossMovesCohort(moves, lookup, g, kind, false);
  }

  lemma {:induction false} CrossMovesTotals(moves: seq<Movement>, lookup: string -> Option<Animal>, g: Gender,
                                            kind: MovementType)
    ensures BlockOf(HalfOf(CrossMoves(moves, lookup), g), kind).total == Count(moves, MoveOfGender(lookup, g, kind))
  {
    if |moves| > 0 {
      var init := moves[..|moves| - 1];
      var m := moves[|moves| - 1];
      var p := MoveOfGender(lookup, g, kind);
      CrossMovesTotals(init, lookup, g, kind);
      assert Filter(moves, p) == Filter(init, p) + (if p(m) then [m] else []);
      assert Count(moves, p) == Count(init, p) + if p(m) then 1 else 0;
      var r := CrossMoves(init, lookup);
      match lookup(m.animalId)
      case None =>
        assert CrossMoves(moves, lookup) == r;
        assert !p(m);
        assert BlockOf(HalfOf(CrossMoves(moves, lookup), g), kind).total == Count(moves, p);
      case Some(a) =>
        var y := Young(a, YearOf(DayOf(m.date)));
        assert p(m) == (m.kind == kind && a.gender == g);
        assert CrossMoves(moves, lookup)
          == if a.gender == Male then (TallyMove(r.0, m, y), r.1) else (r.0, TallyMove(r.1, m, y));
        TallyMoveBlock(HalfOf(r, a.gender), m, y, kind);
        assert BlockOf(HalfOf(CrossMoves(moves, lookup), g), kind).total
          == BlockOf(HalfOf(r, g), kind).total + if p(m) then 1 else 0;
        assert BlockOf(HalfOf(CrossMoves(moves, lookup), g), kind).total == Count(moves, p);
    } else {
      assert CrossMoves(moves, lookup) == (NoHalf, NoHalf);
      assert Filter(moves, MoveOfGender(lookup, g, kind)) == [];
      assert HalfOf(CrossMoves(moves, lookup), g) == NoHalf;
      assert BlockOf(NoHalf, kind).total == 0;
    }
  }

  /** The movements in direction `kind` of a known animal of gender `g` whose
      cohort, aged in the year of the movement, is the young one when `young`. */
  function MoveOfCohort(lookup: string -> Option<Animal>, g: Gender, kind: MovementType, young: bool): Movement -> bool {
    (m: Movement) =>
      m.kind == kind && lookup(m.animalId).Some? && lookup(m.animalId).value.gender == g
      && Young(lookup(m.animalId).value, YearOf(DayOf(m.date))) == young
  }

  /** One cohort column of a block counts the period's movements of that
      gender and direction whose animal is in that cohort at the movement. */
  lemma {:induction false} CrossMovesCohort(moves: seq<Movement>, lookup: string -> Option<Animal>, g: Gender,
                                            kind: MovementType, young: bool)
    ensures CohortOf(BlockOf(HalfOf(CrossMoves(moves, lookup), g), kind), young)
      == Count(moves, MoveOfCohort(lookup, g, kind, young))
  {
    var p := MoveOfCohort(lookup, g, kind, young);
    if |moves| > 0 {
      var init, m := moves[..|moves| - 1], moves[|moves| - 1];
      CrossMovesCohort(init, lookup, g, kind, young);
      assert Count(moves, p) == Count(init, p) + if p(m) then 1 else 0;
      var r := CrossMoves(init, lookup);
      match lookup(m.animalId)
      case None =>
        assert CrossMoves(moves, lookup) == r;
        assert !p(m);
      case Some(a) =>
        var y := Young(a, YearOf(DayOf(m.date)));
        assert p(m) == (m.kind == kind && a.gender == g && y == young);
        assert CrossMoves(moves, lookup)
          == if a.gender == Male then (TallyMove(r.0, m, y), r.1) else (r.0, TallyMove(r.1, m, y));
        TallyMoveCohort(HalfOf(r, a.gender), m, y, kind, young);
    } else {
      assert CrossMoves(moves, lookup) == (NoHalf, NoHalf);
      assert Filter(moves, p) == [];
    }
  }

  lemma {:induction false} TallyMoveCohort(h: Half, m: Movement, y: bool, kind: MovementType, young: bool)
    ensures CohortOf(BlockOf(TallyMove(h, m, y), kind), young)
      == CohortOf(BlockOf(h, kind), young) + if m.kind == kind && y == young then 1 else 0
  {
  }

  lemma {:induction false} TallyMoveBlock(h: Half, m: Movement, young: bool, kind: MovementType)
    ensures BlockOf(TallyMove(h, m, young), kind).total == BlockOf(h, kind).total + if m.kind == kind then 1 else 0
  {
  }

  /** One gender's row: its opening, its movements and the closing they give. */
  function Summarize(opening: Cell, h: Half): (g: GenderSummary)
    requires Whole(opening) && HalfWhole(h)
    ensures Consistent(g)
    ensures g.opening == opening && g.inflow == h.inflow && g.outflow == h.outflow
    ensures g.inReasons == h.inReasons && g.outReasons == h.outReasons
  {
    GenderSummary(opening, h.inflow, h.inReasons, h.outflow, h.outReasons, CloseCell(opening, h.inflow, h.outflow))
  }

  /** The total row: male plus female in every block, reasons male first. */
  function Combine(male: GenderSummary, female: GenderSummary): (t: GenderSummary)
    ensures Consistent(male) && Consistent(female) ==> Consistent(t)
    ensures t.opening == AddCells(male.opening, female.opening)
    ensures t.inflow == AddCells(male.inflow, female.inflow) && t.outflow == AddCells(male.outflow, female.outflow)
    ensures t.closing == AddCells(male.closing, female.closing)
    ensures t.inReasons == male.inReasons + female.inReasons && t.outReasons == male.outReasons + female.outReasons
  {
    GenderSummary(AddCells(male.opening, female.opening),
                  AddCells(male.inflow, female.inflow), male.inReasons + female.inReasons,
                  AddCells(male.outflow, female.outflow), male.outReasons + female.outReasons,
                  AddCells(male.closing, female.closing))
  }

  /** The in-scope animals of the type picker's choice, in register order. */
  function Scope(animals: seq<Animal>, typeFilter: string): seq<Animal> {
    Filter(animals, TypeTest(typeFilter))
  }

  /** The period's movements in stable time order. */
  function PeriodMoves(animals: seq<Animal>, movements: seq<Movement>, typeFilter: string, start: Day, end: Day)
    : seq<Movement>
  {
    Filter(SortByKey(movements, TimeKey), InPeriodTest(IdsOf(Scope(animals, typeFilter)), start, end))
  }

  /** The cross-tab for `typeFilter` over `range`: none without a start day;
      the period ends with the end day, or with the start day when it is
      missing. */
  function CrossTabReport(animals: seq<Animal>, movements: seq<Movement>, typeFilter: string, range: DateRange)
    : (r: Option<CrossTab>)
    ensures r.None? <==> range.from.None?
    ensures r.Some? ==> Consistent(r.value.male) && Consistent(r.value.female) && Consistent(r.value.total)
    ensures r.Some? ==> r.value.total == Combine(r.value.male, r.value.female)
  {
    match range.from
    case None => None
    case Some(start) =>
      var scope := Scope(animals, typeFilter);
      var opening := CrossOpening(scope, PresentTest(movements, start), YearOf(start));
      var moves := CrossMoves(PeriodMoves(animals, movements, typeFilter, start, range.to.GetOr(start)), LookupIn(scope));
      var male := Summarize(opening.0, moves.0);
      var female := Summarize(opening.1, moves.1);
      Some(CrossTab(male, female, Combine(male, female)))
  }

  /** A gender's row of the cross-tab is the summary of its opening block
      and its half of the period's movements. */
  lemma {:induction false} CrossTabRow(animals: seq<Animal>, movements: seq<Movement>, typeFilter: string,
                                       range: DateRange, g: Gender)
    requires range.from.Some?
    ensures var start := range.from.value;
      var scope := Scope(animals, typeFilter);
      var opening := CrossOpening(scope, PresentTest(movements, start), YearOf(start));
      var flows := CrossMoves(PeriodMoves(animals, movements, typeFilter, start, range.to.GetOr(start)), LookupIn(scope));
      GenderRow(CrossTabReport(animals, movements, typeFilter, range).value, g)
      == Summarize(if g == Male then opening.0 else opening.1, HalfOf(flows, g))
  {
  }

  /** Each gender's opening total is the number of its in-scope animals
      present before the start day. */
  lemma {:induction false} CrossTabOpening(animals: seq<Animal>, movements: seq<Movement>, typeFilter: string,
                                           range: DateRange, g: Gender)
    requires range.from.Some?
    ensures GenderRow(CrossTabReport(animals, movements, typeFilter, range).value, g).opening.total
      == Count(Scope(animals, typeFilter), PresentOfGender(PresentTest(movements, range.from.value), g))
  {
    var start := range.from.value;
    var scope := Scope(animals, typeFilter);
    var opening := CrossOpening(scope, PresentTest(movements, start), YearOf(start));
    CrossTabRow(animals, movements, typeFilter, range, g);
    assert (if g == Male then opening.0 else opening.1) == OpeningOf(opening, g);
    CrossOpeningTotal(scope, PresentTest(movements, start), YearOf(start), g);
  }

  /** Each gender's arrival (departure) total is the number of the period's
      Entry (Exit) movements of its in-scope animals. */
  lemma {:induction false} CrossTabFlows(animals: seq<Animal>, movements: seq<Movement>, typeFilter: string,
                                         range: DateRange, g: Gender, kind: MovementType)
    requires range.from.Some?
    ensures BlockOf(HalfOfRow(GenderRow(CrossTabReport(animals, movements, typeFilter, range).value, g)), kind).total
      == Count(PeriodMoves(animals, movements, typeFilter, range.from.value, range.to.GetOr(range.from.value)),
               MoveOfGender(LookupIn(Scope(animals, typeFilter)), g, kind))
  {
    CrossTabRow(animals, movements, typeFilter, range, g);
    var start := range.from.value;
    CrossMovesCounts(PeriodMoves(animals, movements, typeFilter, start, range.to.GetOr(start)),
                     LookupIn(Scope(animals, typeFilter)), g, kind);
  }

  function GenderRow(t: CrossTab, g: Gender): GenderSummary {
    if g == Male then t.male else t.female
  }

  function HalfOfRow(row: GenderSummary): Half {
    Half(row.inflow, row.inReasons, row.outflow, row.outReasons)
  }

  // ---------------------------------------------------------------------------
  // Check-in / check-out report

  /** The Entry movements of animal `id`. */
  function EntryOf(id: string): Movement -> bool {
    (m: Movement) => m.animalId == id && m.kind == Entry
  }

  /** The movements of animal `id` that are not entries (its exits). */
  function ExitOf(id: string): Movement -> bool {
    (m: Movement) => m.animalId == id && m.kind != Entry
  }

  /** `ms[i]` is the earliest Entry of `id`; an earlier Entry on the same
      instant would have been kept instead. */
  ghost predicate EarliestEntryAt(ms: seq<Movement>, id: string, i: int)
    requires 0 <= i < |ms|
  {
    && EntryOf(id)(ms[i])
    && (forall j :: 0 <= j < i && EntryOf(id)(ms[j]) ==> ms[j].date > ms[i].date)
    && (forall j :: i < j < |ms| && EntryOf(id)(ms[j]) ==> ms[j].date >= ms[i].date)
  }

  /** `ms[i]` is the latest exit of `id`, the first one on ties. */
  ghost predicate LatestExitAt(ms: seq<Movement>, id: string, i: int)
    requires 0 <= i < |ms|
  {
    && ExitOf(id)(ms[i])
    && (forall j :: 0 <= j < i && ExitOf(id)(ms[j]) ==> ms[j].date < ms[i].date)
    && (forall j :: i < j < |ms| && ExitOf(id)(ms[j]) ==> ms[j].date <= ms[i].date)
  }

  /** The entry kept for `id` by the scan over the log: replaced only by a
      strictly earlier one. */
  function EarliestEntry(ms: seq<Movement>, id: string): (r: Option<Movement>)
    ensures r.None? <==> forall i :: 0 <= i < |ms| ==> !EntryOf(id)(ms[i])
    ensures r.Some? ==> exists i :: 0 <= i < |ms| && ms[i] == r.value && EarliestEntryAt(ms, id, i)
  {
    var r := FirstMaxWhere(ms, EntryOf(id), Negated(TimeKey));
    assert r.Some? ==> exists i :: 0 <= i < |ms| && ms[i] == r.value && EarliestEntryAt(ms, id, i) by {
      if r.Some? {
        var i :| 0 <= i < |ms| && ms[i] == r.value && IsFirstMaxAt(ms, EntryOf(id), Negated(TimeKey), i);
        forall j | 0 <= j < |ms|
          ensures Negated(TimeKey)(ms[j]) == -ms[j].date
        {
          assert Negated(TimeKey)(ms[j]) == -TimeKey(ms[j]);
        }
        assert EarliestEntryAt(ms, id, i);
      }
    }
    r
  }

  /** The exit kept for `id`: replaced only by a strictly later one. */
  function LatestExit(ms: seq<Movement>, id: string): (r: Option<Movement>)
    ensures r.None? <==> forall i :: 0 <= i < |ms| ==> !ExitOf(id)(ms[i])
    ensures r.Some? ==> exists i :: 0 <= i < |ms| && ms[i] == r.value && LatestExitAt(ms, id, i)
  {
    var r := FirstMaxWhere(ms, ExitOf(id), TimeKey);
    assert r.Some? ==> exists i :: 0 <= i < |ms| && ms[i] == r.value && LatestExitAt(ms, id, i) by {
      if r.Some? {
        var i :| 0 <= i < |ms| && ms[i] == r.value && IsFirstMaxAt(ms, ExitOf(id), TimeKey, i);
        assert LatestExitAt(ms, id, i);
      }
    }
    r
  }

  /** One row of the report: the animal, its age in the current year, the
      instant of its earliest entry and of its latest exit with that exit's
      reason. */
  datatype DetailedRow = DetailedRow(
    animal: Animal,
    age: int,
    checkIn: Option<Instant>,
    checkOut: Option<Instant>,
    checkOutReason: Option<string>)

  function DetailFor(a: Animal, ms: seq<Movement>, year: int): (row: DetailedRow)
    ensures row.animal == a && row.age == year - a.yearOfBirth
    ensures row.checkIn.None? <==> forall i :: 0 <= i < |ms| ==> !EntryOf(a.id)(ms[i])
    ensures row.checkIn.Some? ==>
      exists i :: 0 <= i < |ms| && EarliestEntryAt(ms, a.id, i) && ms[i].date == row.checkIn.value
    ensures row.checkOut.None? <==> forall i :: 0 <= i < |ms| ==> !ExitOf(a.id)(ms[i])
    ensures row.checkOut.Some? ==>
      exists i :: 0 <= i < |ms| && LatestExitAt(ms, a.id, i) && ms[i].date == row.checkOut.value
                  && row.checkOutReason == Some(ms[i].reason)
    ensures row.checkOut.None? ==> row.checkOutReason.None?
  {
    var e := EarliestEntry(ms, a.id);
    var x := LatestExit(ms, a.id);
    DetailedRow(a, year - a.yearOfBirth,
                if e.Some? then Some(e.value.date) else None,
                if x.Some? then Some(x.value.date) else None,
                if x.Some? then Some(x.value.reason) else None)
  }

  /** The ids of the animals with at least one movement. */
  function MovedIds(ms: seq<Movement>): set<string> {
    set i | 0 <= i < |ms| :: ms[i].animalId
  }

  function MovedTest(ms: seq<Movement>): Animal -> bool {
    (a: Animal) => a.id in MovedIds(ms)
  }

  /** One row per animal of `list`, in order. */
  function DetailRows(list: seq<Animal>, ms: seq<Movement>, year: int): (rows: seq<DetailedRow>)
    ensures |rows| == |list|
    ensures forall i :: 0 <= i < |list| ==> rows[i] == DetailFor(list[i], ms, year)
  {
    if |list| == 0 then [] else DetailRows(list[..|list| - 1], ms, year) + [DetailFor(list[|list| - 1], ms, year)]
  }

  /** The check-in/check-out report: the animals of the register that have at
      least one movement, in register order, each with its row. */
  function DetailedReport(animals: seq<Animal>, ms: seq<Movement>, year: int): (rows: seq<DetailedRow>)
    ensures |rows| == Count(animals, MovedTest(ms))
    ensures forall i :: 0 <= i < |rows| ==> rows[i].animal.id in MovedIds(ms)
    ensures forall i :: 0 <= i < |animals| && animals[i].id in MovedIds(ms) ==>
      CountWhere(animals[..i], MovedTest(ms)) < |rows| && rows[CountWhere(animals[..i], MovedTest(ms))] == DetailFor(animals[i], ms, year)
  {
    FilterInOrder(animals, MovedTest(ms));
    DetailRows(Filter(animals, MovedTest(ms)), ms, year)
  }

  /** Every animal of the register with a movement has its row, and every row
      is of an animal of the register. */
  lemma {:induction false} DetailedReportMembers(animals: seq<Animal>, ms: seq<Movement>, year: int)
    ensures forall i :: 0 <= i < |animals| && animals[i].id in MovedIds(ms) ==>
      DetailFor(animals[i], ms, year) in DetailedReport(animals, ms, year)
    ensures forall i :: 0 <= i < |DetailedReport(animals, ms, year)| ==>
      DetailedReport(animals, ms, year)[i].animal in animals
  {
    var list := Filter(animals, MovedTest(ms));
    var rows := DetailedReport(animals, ms, year);
    FilterMembers(animals, MovedTest(ms));
    forall i | 0 <= i < |animals| && animals[i].id in MovedIds(ms)
      ensures DetailFor(animals[i], ms, year) in rows
    {
      assert MovedTest(ms)(animals[i]);
      var j :| 0 <= j < |list| && list[j] == animals[i];
      assert rows[j] == DetailFor(animals[i], ms, year);
    }
    forall i | 0 <= i < |rows|
      ensures rows[i].animal in animals
    {
      assert rows[i].animal == list[i];
    }
  }

  // ---------------------------------------------------------------------------
  // Animal register filter

  /** The five pickers of the register report; "All" switches one off. */
  datatype RegistryFilter = RegistryFilter(animalType: string, breed: string, color: string, health: string,
                                           age: string)

  /** The age picker's buckets: 0-2, 3-5, 6-10 and over 10 years. Any other
      value matches nothing. */
  predicate AgeMatches(ageFilter: string, age: int) {
    || ageFilter == "All"
    || (ageFilter == "0-2" && age <= 2)
    || (ageFilter == "3-5" && 3 <= age <= 5)
    || (ageFilter == "6-10" && 6 <= age <= 10)
    || (ageFilter == "10+" && age > 10)
  }

  const AgeBuckets: seq<string> := ["0-2", "3-5", "6-10", "10+"]

  /** Every age falls in exactly one bucket. */
  lemma {:induction false} AgeBucketsPartition(age: int)
    ensures exists i :: 0 <= i < |AgeBuckets| && AgeMatches(AgeBuckets[i], age)
    ensures forall i, j :: 0 <= i < j < |AgeBuckets| ==>
      !(AgeMatches(AgeBuckets[i], age) && AgeMatches(AgeBuckets[j], age))
  {
    if age <= 2 {
      assert AgeMatches(AgeBuckets[0], age);
    } else if age <= 5 {
      assert AgeMatches(AgeBuckets[1], age);
    } else if age <= 10 {
      assert AgeMatches(AgeBuckets[2], age);
    } else {
      assert AgeMatches(AgeBuckets[3], age);
    }
  }

  function RegistryTest(f: RegistryFilter, year: int): Animal -> bool {
    (a: Animal) =>
      && (f.animalType == "All" || a.animalType == f.animalType)
      && (f.breed == "All" || a.breed == f.breed)
      && (f.color == "All" || a.color == f.color)
      && (f.health == "All" || HealthName(a.healthStatus) == f.health)
      && AgeMatches(f.age, year - a.yearOfBirth)
  }

  /** The register report's rows: the animals passing all five pickers, in
      register order; ages are taken in the current `year`. */
  function Registry(animals: seq<Animal>, f: RegistryFilter, year: int): (r: seq<Animal>)
    ensures |r| <= |animals|
    ensures forall i :: 0 <= i < |r| ==> RegistryTest(f, year)(r[i]) && r[i] in animals
    ensures forall i :: 0 <= i < |animals| && RegistryTest(f, year)(animals[i]) ==> animals[i] in r
    ensures KeepsInOrder(animals, RegistryTest(f, year), r)
  {
    FilterMembers(animals, RegistryTest(f, year));
    FilterInOrder(animals, RegistryTest(f, year));
    Filter(animals, RegistryTest(f, year))
  }

  const NoRegistryFilter: RegistryFilter := RegistryFilter("All", "All", "All", "All", "All")

  /** With every picker on "All" the report lists the whole register. */
  lemma {:induction false} RegistryAllKeepsAll(animals: seq<Animal>, year: int)
    ensures Registry(animals, NoRegistryFilter, year) == animals
  {
    FilterAll(animals, RegistryTest(NoRegistryFilter, year));
  }

  /** Narrowing one picker from "All" keeps a subsequence: the report for a
      bucket is the "All" report filtered by that bucket. */
  lemma {:induction false} RegistryByAge(animals: seq<Animal>, f: RegistryFilter, year: int)
    requires f.age == "All"
    ensures forall b :: b in AgeBuckets ==>
      (Registry(animals, f.(age := b), year)
       == Filter(Registry(animals, f, year), (a: Animal) => AgeMatches(b, year - a.yearOfBirth)))
  {
    forall b | b in AgeBuckets
      ensures Registry(animals, f.(age := b), year)
        == Filter(Registry(animals, f, year), (a: Animal) => AgeMatches(b, year - a.yearOfBirth))
    {
      var q := (a: Animal) => AgeMatches(b, year - a.yearOfBirth);
      FilterFilter(animals, RegistryTest(f, year), q);
      FilterCongruent(animals, Both(RegistryTest(f, year), q), RegistryTest(f.(age := b), year));
    }
  }
}
