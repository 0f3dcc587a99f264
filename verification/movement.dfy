/** The movement screen: the animals offered for a new movement, the tag shown
    beside each movement, the tag search, the Entries and Exits tabs, and the
    form that records, edits and deletes movements. Presence itself is
    `Herd.StatusOf`. */
module Movements {
  import opened Wrappers
  import opened Text
  import opened Seqs
  import opened Calendar
  import opened Domain
  import opened Herd

  // ---------------------------------------------------------------------------
  // Candidate animals

  function StatusTest(movements: seq<Movement>, want: Presence): Animal -> bool {
    (a: Animal) => StatusOf(movements, a.id) == want
  }

  /** The presence an animal must have to be offered for a movement of `kind`:
      an Entry brings back an absent animal, an Exit removes a present one. */
  function Required(kind: MovementType): Presence {
    if kind == Entry then Out else In
  }

  /** The animals the dialog's picker offers. */
  function Candidates(animals: seq<Animal>, movements: seq<Movement>, mode: DialogMode, kind: MovementType): (r: seq<Animal>)
    ensures mode.Edit? ==> r == animals
    ensures mode.Create? ==> forall i :: 0 <= i < |r| ==>
      r[i] in animals && StatusOf(movements, r[i].id) == Required(kind)
    ensures mode.Create? ==> forall i :: 0 <= i < |animals| && StatusOf(movements, animals[i].id) == Required(kind) ==>
      animals[i] in r
  {
    if mode.Edit? then animals
    else
      FilterMembers(animals, StatusTest(movements, Required(kind)));
      Filter(animals, StatusTest(movements, Required(kind)))
  }

  /** In create mode the Entry and Exit candidates split the roster: every
      animal is offered for exactly one of the two directions. */
  lemma CandidatesPartition(animals: seq<Animal>, movements: seq<Movement>)
    ensures |Candidates(animals, movements, Create, Entry)| + |Candidates(animals, movements, Create, Exit)| == |animals|
    ensures forall i :: 0 <= i < |animals| ==>
      (animals[i] in Candidates(animals, movements, Create, Entry)) != (animals[i] in Candidates(animals, movements, Create, Exit))
  {
    var out := StatusTest(movements, Out);
    var inn := StatusTest(movements, In);
    FilterSplit(animals, out);
    FilterCongruent(animals, Not(out), inn);
    var entries := Candidates(animals, movements, Create, Entry);
    var exits := Candidates(animals, movements, Create, Exit);
    forall i | 0 <= i < |animals|
      ensures (animals[i] in entries) != (animals[i] in exits)
    {
      if animals[i] in entries {
        var k :| 0 <= k < |entries| && entries[k] == animals[i];
        assert StatusOf(movements, animals[i].id) == Out;
      }
      if animals[i] in exits {
        var k :| 0 <= k < |exits| && exits[k] == animals[i];
        assert StatusOf(movements, animals[i].id) == In;
      }
    }
  }

  /** Recording a movement for an offered animal, dated later than every
      earlier movement of that animal, flips the animal's presence, wherever
      its document id places it in the query order. */
  lemma CandidateFlips(animals: seq<Animal>, movements: seq<Movement>, m: Movement, at: nat)
    requires exists a :: a in Candidates(animals, movements, Create, m.kind) && a.id == m.animalId
    requires forall i :: 0 <= i < |movements| && movements[i].animalId == m.animalId ==>
      movements[i].date < m.date
    ensures StatusOf(movements, m.animalId) == Required(m.kind)
    ensures StatusOf(InsertAt(movements, at, m), m.animalId) != StatusOf(movements, m.animalId)
  {
    var a :| a in Candidates(animals, movements, Create, m.kind) && a.id == m.animalId;
    var c := Candidates(animals, movements, Create, m.kind);
    var k :| 0 <= k < |c| && c[k] == a;
    StatusAfterRecording(movements, m, at);
  }

  // ---------------------------------------------------------------------------
  // Tags and search

  /** `animalMap.get(m.animalId) || 'Unknown'`: the tag of the last animal with
      that id, or 'Unknown' when there is none or its tag is empty. */
  function TagFor(animals: seq<Animal>, animalId: string): (tag: string)
    ensures animalId !in IdsOf(animals) ==> tag == "Unknown"
    ensures animalId in IdsOf(animals) ==>
      exists i :: (0 <= i < |animals| && animals[i].id == animalId
                   && (forall j :: i < j < |animals| ==> animals[j].id != animalId)
                   && tag == (if animals[i].govtTagNo == "" then "Unknown" else animals[i].govtTagNo))
  {
    match AnimalById(animals, animalId)
    case None => "Unknown"
    case Some(a) => if a.govtTagNo == "" then "Unknown" else a.govtTagNo
  }

  /** A movement with the tag the table shows for it. */
  datatype TaggedMovement = Tagged(movement: Movement, tag: string)

  function TagWith(animals: seq<Animal>): Movement -> TaggedMovement {
    (m: Movement) => Tagged(m, TagFor(animals, m.animalId))
  }

  /** The movement log with each movement's tag joined in, in log order. */
  function WithTags(movements: seq<Movement>, animals: seq<Animal>): (r: seq<TaggedMovement>)
    ensures |r| == |movements|
    ensures forall i :: 0 <= i < |r| ==> r[i].movement == movements[i]
    ensures forall i :: 0 <= i < |r| ==> r[i].tag == TagFor(animals, movements[i].animalId)
  {
    Map(movements, TagWith(animals))
  }

  function TagMatches(term: string): TaggedMovement -> bool {
    (t: TaggedMovement) => ContainsIgnoreCase(t.tag, term)
  }

  /** The search box: every movement for an empty term, otherwise those whose
      tag contains the term, ignoring case. */
  function Search(rows: seq<TaggedMovement>, term: string): (r: seq<TaggedMovement>)
    ensures term == "" ==> r == rows
    ensures forall i :: 0 <= i < |r| ==> r[i] in rows
    ensures term != "" ==> forall i :: 0 <= i < |r| ==> ContainsIgnoreCase(r[i].tag, term)
    ensures forall i :: 0 <= i < |rows| && ContainsIgnoreCase(rows[i].tag, term) ==> rows[i] in r
  {
    if term == "" then rows
    else
      FilterMembers(rows, TagMatches(term));
      Filter(rows, TagMatches(term))
  }

  /** A movement whose animal is no longer on the roster is found by searching
      for 'Unknown'. */
  lemma MissingAnimalFoundAsUnknown(movements: seq<Movement>, animals: seq<Animal>, i: int)
    requires 0 <= i < |movements| && movements[i].animalId !in IdsOf(animals)
    ensures WithTags(movements, animals)[i] in Search(WithTags(movements, animals), "Unknown")
  {
    var rows := WithTags(movements, animals);
    assert rows[i].tag == "Unknown";
    assert OccursAt(Lower(rows[i].tag), Lower("Unknown"), 0);
  }

  // ---------------------------------------------------------------------------
  // Tabs

  function KindIs(kind: MovementType): TaggedMovement -> bool {
    (t: TaggedMovement) => t.movement.kind == kind
  }

  function EntriesTab(rows: seq<TaggedMovement>): seq<TaggedMovement> {
    Filter(rows, KindIs(Entry))
  }

  function ExitsTab(rows: seq<TaggedMovement>): seq<TaggedMovement> {
    Filter(rows, KindIs(Exit))
  }

  /** The Entries and Exits tabs split the searched list: each row appears in
      the tab of its own kind and in no other. */
  lemma TabsPartition(rows: seq<TaggedMovement>)
    ensures |EntriesTab(rows)| + |ExitsTab(rows)| == |rows|
    ensures forall i :: 0 <= i < |rows| && rows[i].movement.kind == Entry ==> rows[i] in EntriesTab(rows)
    ensures forall i :: 0 <= i < |rows| && rows[i].movement.kind == Exit ==> rows[i] in ExitsTab(rows)
    ensures forall i :: 0 <= i < |EntriesTab(rows)| ==> EntriesTab(rows)[i].movement.kind == Entry
    ensures forall i :: 0 <= i < |ExitsTab(rows)| ==> ExitsTab(rows)[i].movement.kind == Exit
  {
    FilterSplit(rows, KindIs(Entry));
    FilterCongruent(rows, Not(KindIs(Entry)), KindIs(Exit));
    FilterMembers(rows, KindIs(Entry));
    FilterMembers(rows, KindIs(Exit));
  }

  // ---------------------------------------------------------------------------
  // The form

  /** The dialog's fields; an empty date control is None. */
  datatype MovementForm = MovementForm(animalId: string, kind: MovementType, date: Option<Instant>, reason: string)

  /** Switching the direction clears the chosen animal, since it was picked
      from the other direction's candidates. */
  function ChangeType(form: MovementForm, kind: MovementType): (r: MovementForm)
    ensures r.kind == kind && r.animalId == ""
    ensures r.date == form.date && r.reason == form.reason
  {
    form.(kind := kind, animalId := "")
  }

  const RequiredMessage := "Animal, Date, and Reason are required."

  predicate Complete(form: MovementForm) {
    form.animalId != "" && form.date.Some? && form.reason != ""
  }

  /** The movement the form describes, under the document id `id`. */
  function Recorded(form: MovementForm, id: string): Movement
    requires form.date.Some?
  {
    Movement(id, form.animalId, form.kind, form.date.value, form.reason)
  }

  /** Saving the form: an incomplete form writes nothing; in create mode the
      movement is added under the fresh id `newId`, taking its place `at` in
      the query order (the number of documents whose ids sort before it); in
      edit mode the selected movement takes the form's fields and keeps its id. */
  function Submit(store: seq<Movement>, form: MovementForm, mode: DialogMode, newId: string, at: nat)
    : (r: Result<seq<Movement>, string>)
    ensures r.Failure? <==> !Complete(form)
    ensures r.Failure? ==> r.error == RequiredMessage
    ensures r.Success? && mode.Create? ==>
      |r.value| == |store| + 1
      && (exists k :: 0 <= k <= |store| && r.value[..k] == store[..k] && r.value[k + 1..] == store[k..]
                       && r.value[k].id == newId && r.value[k].animalId == form.animalId
                       && r.value[k].kind == form.kind && Some(r.value[k].date) == form.date
                       && r.value[k].reason == form.reason)
    ensures r.Success? && mode.Edit? ==>
      (|r.value| == |store|
       && forall i :: 0 <= i < |store| ==>
            if store[i].id == mode.selectedId then r.value[i] == Recorded(form, store[i].id) else r.value[i] == store[i])
  {
    if !Complete(form) then Failure(RequiredMessage)
    else
      match mode
      case Create =>
        var r := InsertAt(store, at, Recorded(form, newId));
        assert at > |store| ==> r[..|store|] == store && r[|store| + 1..] == store[|store|..];
        Success(r)
      case Edit(sel) => Success(Map(store, (m: Movement) => if m.id == sel then Recorded(form, m.id) else m))
  }

  /** After a change of direction the form cannot be saved until an animal is
      picked again. */
  lemma ChangeTypeBlocksSubmit(store: seq<Movement>, form: MovementForm, kind: MovementType, mode: DialogMode,
                               newId: string, at: nat)
    ensures Submit(store, ChangeType(form, kind), mode, newId, at) == Failure(RequiredMessage)
  {
  }

  /** Saving a new movement for an offered animal, dated later than its
      earlier movements, flips that animal's presence wherever the new
      document lands in the query order. */
  lemma SubmitCandidateFlips(animals: seq<Animal>, store: seq<Movement>, form: MovementForm, newId: string, at: nat)
    requires Complete(form)
    requires exists a :: a in Candidates(animals, store, Create, form.kind) && a.id == form.animalId
    requires forall i :: 0 <= i < |store| && store[i].animalId == form.animalId ==> store[i].date < form.date.value
    ensures Submit(store, form, Create, newId, at).Success?
    ensures StatusOf(Submit(store, form, Create, newId, at).value, form.animalId) != StatusOf(store, form.animalId)
  {
    CandidateFlips(animals, store, Recorded(form, newId), at);
  }

  function IdIsNot(id: string): Movement -> bool {
    (m: Movement) => m.id != id
  }

  /** Deleting a movement removes the record with that id and keeps the rest in
      order. */
  function Delete(store: seq<Movement>, id: string): (r: seq<Movement>)
    ensures forall i :: 0 <= i < |r| ==> r[i].id != id && r[i] in store
    ensures forall i :: 0 <= i < |store| && store[i].id != id ==> store[i] in r
    ensures KeepsInOrder(store, IdIsNot(id), r)
  {
    FilterMembers(store, IdIsNot(id));
    FilterInOrder(store, IdIsNot(id));
    Filter(store, IdIsNot(id))
  }
}
