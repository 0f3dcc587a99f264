/** Herd presence reconstructed from the movement log. An animal is present
    ("in") when its latest movement, in a stable ascending sort by timestamp,
    is an Entry; with no movement at all it is absent ("out"). */
module Herd {
  import opened Wrappers
  import opened Seqs
  import opened Calendar
  import opened Domain

  datatype Presence = In | Out

  function TimeKey(m: Movement): int {
    m.date
  }

  function AnimalTest(animalId: string): Movement -> bool {
    (m: Movement) => m.animalId == animalId
  }

  /** The ids of the roster. */
  function IdsOf(animals: seq<Animal>): set<string> {
    set i | 0 <= i < |animals| :: animals[i].id
  }

  function IdTest(id: string): Animal -> bool {
    (a: Animal) => a.id == id
  }

  /** `new Map(animals.map(a => [a.id, a])).get(id)`: the last animal with that
      id, since later entries overwrite earlier ones. */
  function AnimalById(animals: seq<Animal>, id: string): (r: Option<Animal>)
    ensures r.None? <==> id !in IdsOf(animals)
    ensures r.Some? ==> r.value.id == id
    ensures r.Some? ==> exists i :: 0 <= i < |animals| && animals[i] == r.value
                                    && forall j :: i < j < |animals| ==> animals[j].id != id
  {
    LastWhere(animals, IdTest(id))
  }

  /** The last movement of `animalId` once the log is sorted by time: what the
      screens' `latestMovements` map holds after replaying the sorted log. */
  function LatestMovement(movements: seq<Movement>, animalId: string): (r: Option<Movement>)
    ensures r.None? <==> forall i :: 0 <= i < |movements| ==> movements[i].animalId != animalId
    ensures r.Some? ==> r.value.animalId == animalId
  {
    LastOfSortedFilter(movements, AnimalTest(animalId), TimeKey);
    LastOf(Filter(SortByKey(movements, TimeKey), AnimalTest(animalId)))
  }

  /** The presence shown for an animal on the movement and milk screens. */
  function StatusOf(movements: seq<Movement>, animalId: string): Presence {
    match LatestMovement(movements, animalId)
    case Some(m) => if m.kind == Exit then Out else In
    case None => Out
  }

  /** An animal is in iff some movement of it is the latest one (greatest
      timestamp, later in the log on ties) and that movement is an Entry. */
  lemma StatusIsLatestEntry(movements: seq<Movement>, animalId: string)
    ensures StatusOf(movements, animalId) == In
        <==> exists i :: 0 <= i < |movements| && IsLatestAt(movements, AnimalTest(animalId), TimeKey, i)
                        && movements[i].kind == Entry
  {
    var p := AnimalTest(animalId);
    LastOfSortedFilter(movements, p, TimeKey);
    var r := LatestWhere(movements, p, TimeKey);
    if r.Some? {
      var k :| 0 <= k < |movements| && movements[k] == r.value && IsLatestAt(movements, p, TimeKey, k);
      forall i | 0 <= i < |movements| && IsLatestAt(movements, p, TimeKey, i)
        ensures i == k
      {
        LatestAtUnique(movements, p, TimeKey, i, k);
      }
    }
  }

  /** An animal that never moved is out. */
  lemma NoMovementIsOut(movements: seq<Movement>, animalId: string)
    requires forall i :: 0 <= i < |movements| ==> movements[i].animalId != animalId
    ensures StatusOf(movements, animalId) == Out
  {
  }

  /** Recording a movement dated later than every earlier movement of the same
      animal sets the animal's status to that movement's direction, wherever
      its generated document id places it in the query order (`at` documents
      before it). */
  lemma StatusAfterRecording(movements: seq<Movement>, m: Movement, at: nat)
    requires forall i :: 0 <= i < |movements| && movements[i].animalId == m.animalId ==>
      movements[i].date < m.date
    ensures StatusOf(InsertAt(movements, at, m), m.animalId) == if m.kind == Entry then In else Out
  {
    var t := InsertAt(movements, at, m);
    var k := if at <= |movements| then at else |movements|;
    var p := AnimalTest(m.animalId);
    assert t[k] == m by {
      if at > |movements| {
        assert t == movements + [m];
      }
    }
    forall j | 0 <= j < |t| && j != k && p(t[j])
      ensures TimeKey(t[j]) < TimeKey(t[k])
    {
      if at > |movements| {
        assert t == movements + [m];
        assert t[j] == movements[j];
      } else if j < k {
        assert t[j] == t[..k][j] == movements[..k][j];
      } else {
        assert t[j] == t[k + 1..][j - k - 1] == movements[k..][j - k - 1];
      }
    }
    StrictMaxIsLatest(t, p, TimeKey, k);
    StatusIsLatestEntry(t, m.animalId);
    if m.kind == Exit && StatusOf(t, m.animalId) == In {
      var i :| 0 <= i < |t| && IsLatestAt(t, p, TimeKey, i) && t[i].kind == Entry;
      LatestAtUnique(t, p, TimeKey, i, k);
    }
  }

  /** A movement placed after every other in the query order and dated no
      earlier than the animal's other movements sets its status, date ties
      included. */
  lemma StatusAfterAppending(movements: seq<Movement>, m: Movement)
    requires forall i :: 0 <= i < |movements| && movements[i].animalId == m.animalId ==>
      movements[i].date <= m.date
    ensures StatusOf(movements + [m], m.animalId) == if m.kind == Entry then In else Out
  {
    var p := AnimalTest(m.animalId);
    LastOfSortedFilter(movements + [m], p, TimeKey);
    LatestAfterAppend(movements, m, p, TimeKey);
  }

  /** On a date tie the query order decides: an Exit dated on the very instant
      of the animal's Entry leaves the animal present when its document comes
      first, and absent when it comes last. */
  lemma TieFollowsQueryOrder(entry: Movement, exit: Movement)
    requires entry.animalId == exit.animalId && entry.date == exit.date
    requires entry.kind == Entry && exit.kind == Exit
    ensures StatusOf([exit, entry], entry.animalId) == In
    ensures StatusOf([entry, exit], entry.animalId) == Out
  {
    StatusAfterAppending([exit], entry);
    assert [exit] + [entry] == [exit, entry];
    StatusAfterAppending([entry], exit);
    assert [entry] + [exit] == [entry, exit];
  }

  /** The movements dated on a day before `start`. */
  function BeforeDayTest(start: Day): Movement -> bool {
    (m: Movement) => DayOf(m.date) < start
  }

  /** The reports' opening rule: the animal's last movement dated before
      `start`, in the sorted log, is an Entry. */
  predicate PresentBefore(movements: seq<Movement>, animalId: string, start: Day) {
    var last := LastOf(Filter(SortByKey(movements, TimeKey), Both(AnimalTest(animalId), BeforeDayTest(start))));
    last.Some? && last.value.kind == Entry
  }

  /** The opening rule is the screens' status rule applied to the part of the
      log dated before `start`. */
  lemma PresentBeforeIsStatusOfEarlierLog(movements: seq<Movement>, animalId: string, start: Day)
    ensures PresentBefore(movements, animalId, start)
        <==> StatusOf(Filter(movements, BeforeDayTest(start)), animalId) == In
  {
    var p := AnimalTest(animalId);
    var b := BeforeDayTest(start);
    var sorted := SortByKey(movements, TimeKey);
    FilterCongruent(sorted, Both(p, b), Both(b, p));
    FilterFilter(sorted, b, p);
    FilterSortCommute(movements, TimeKey, b);
    assert Filter(sorted, Both(p, b)) == Filter(SortByKey(Filter(movements, b), TimeKey), p);
    assert LatestMovement(Filter(movements, b), animalId)
        == LastOf(Filter(SortByKey(movements, TimeKey), Both(p, b)));
  }

  /** An animal with no movement before `start` is not counted as present. */
  lemma NothingBeforeIsAbsent(movements: seq<Movement>, animalId: string, start: Day)
    requires forall i :: 0 <= i < |movements| && movements[i].animalId == animalId ==>
      DayOf(movements[i].date) >= start
    ensures !PresentBefore(movements, animalId, start)
  {
    var q := Both(AnimalTest(animalId), BeforeDayTest(start));
    var sorted := SortByKey(movements, TimeKey);
    LastOfSortedFilter(movements, q, TimeKey);
  }
}
