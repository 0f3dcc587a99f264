/** The animal register: the search box, registering and editing an animal
    under the tag-uniqueness rule, the spreadsheet import with its duplicate
    checks, deleting an animal, and marking an animal as exited. */
module Animals {
  import opened Wrappers
  import opened Text
  import opened Seqs
  import opened Calendar
  import opened Domain
  import opened Herd

  // ---------------------------------------------------------------------------
  // Search

  function Present(field: Option<string>): seq<string> {
    if field.Some? then [field.value] else []
  }

  /** `Object.values(animal).map(String)`: the text of every field the stored
      document carries, including its id; absent optional fields carry none. */
  function FieldValues(a: Animal): (r: seq<string>)
    ensures a.id in r && a.govtTagNo in r && a.breed in r && a.animalType in r && a.color in r && a.tagColor in r
    ensures GenderName(a.gender) in r && HealthName(a.healthStatus) in r && IntToString(a.yearOfBirth) in r
    ensures a.identificationMark.Some? ==> a.identificationMark.value in r
  {
    [a.id] + Present(a.ownerId)
    + [a.animalType, a.govtTagNo, a.breed, a.color, GenderName(a.gender), IntToString(a.yearOfBirth),
       HealthName(a.healthStatus), a.tagColor]
    + Present(a.identificationMark) + Present(a.imageUrl)
  }

  /** Some field of the animal contains the term, ignoring case. */
  predicate AnyFieldMatches(a: Animal, term: string) {
    exists v :: v in FieldValues(a) && ContainsIgnoreCase(v, term)
  }

  function FieldTest(term: string): Animal -> bool {
    (a: Animal) => AnyFieldMatches(a, term)
  }

  /** The register's search box: the whole roster for an empty term, otherwise
      the animals, in roster order, with a field containing the term. */
  function Search(animals: seq<Animal>, term: string): (r: seq<Animal>)
    ensures term == "" ==> r == animals
    ensures forall i :: 0 <= i < |r| ==> r[i] in animals && AnyFieldMatches(r[i], term)
    ensures forall i :: 0 <= i < |animals| && AnyFieldMatches(animals[i], term) ==> animals[i] in r
  {
    FilterMembers(animals, FieldTest(term));
    if term == "" then
      EmptyTermMatches(animals);
      animals
    else Filter(animals, FieldTest(term))
  }

  /** The empty term occurs in every field, so it matches every animal. */
  lemma EmptyTermMatches(animals: seq<Animal>)
    ensures forall i :: 0 <= i < |animals| ==> AnyFieldMatches(animals[i], "")
  {
    forall i | 0 <= i < |animals|
      ensures AnyFieldMatches(animals[i], "")
    {
      var v := animals[i].id;
      assert v in FieldValues(animals[i]);
      assert OccursAt(Lower(v), Lower(""), 0);
      assert ContainsIgnoreCase(v, "");
    }
  }

  /** Searching for an animal's own tag always finds it. */
  lemma SearchFindsOwnTag(animals: seq<Animal>, i: int)
    requires 0 <= i < |animals|
    ensures animals[i] in Search(animals, animals[i].govtTagNo)
  {
    var a := animals[i];
    assert OccursAt(Lower(a.govtTagNo), Lower(a.govtTagNo), 0);
    assert a.govtTagNo in FieldValues(a);
  }

  // ---------------------------------------------------------------------------
  // Registering and editing

  const RequiredMessage := "Tag No and Breed are required."

  function TagTakenMessage(tag: string): string {
    "An animal with Tag No \"" + tag + "\" already exists."
  }

  /** No two animals of the roster share a tag. */
  predicate TagsUnique(animals: seq<Animal>) {
    forall i, j :: 0 <= i < j < |animals| ==> animals[i].govtTagNo != animals[j].govtTagNo
  }

  /** No two documents share an id, as in any document collection. */
  predicate IdsUnique(animals: seq<Animal>) {
    forall i, j :: 0 <= i < j < |animals| ==> animals[i].id != animals[j].id
  }

  /** The tag is already used by an animal other than the one being edited;
      in create mode by any animal. */
  predicate TagTaken(store: seq<Animal>, tag: string, mode: DialogMode) {
    exists i :: 0 <= i < |store| && store[i].govtTagNo == tag && (mode.Edit? ==> store[i].id != mode.selectedId)
  }

  /** The stored animal `a` after the edit form is saved over it: the form's
      fields under the document's own id and owner. */
  function Edited(a: Animal, form: Animal): Animal {
    form.(id := a.id, ownerId := a.ownerId)
  }

  /** Saving the register's form (whose `id` and `ownerId` are ignored): both the
      tag and the breed must be filled in and the tag must not clash; a new
      animal is added under the fresh id `newId` and the user's uid, an edit
      overwrites the selected animal's fields. */
  function Submit(store: seq<Animal>, form: Animal, mode: DialogMode, owner: string, newId: string)
    : (r: Result<seq<Animal>, string>)
    ensures r == Failure(RequiredMessage) <==> form.govtTagNo == "" || form.breed == ""
    ensures r.Failure? <==> form.govtTagNo == "" || form.breed == "" || TagTaken(store, form.govtTagNo, mode)
    ensures r.Success? && mode.Create? ==>
      |r.value| == |store| + 1 && r.value[..|store|] == store
      && r.value[|store|] == form.(id := newId, ownerId := Some(owner))
    ensures r.Success? && mode.Edit? ==>
      |r.value| == |store|
      && forall i :: 0 <= i < |store| ==>
           r.value[i] == if store[i].id == mode.selectedId then Edited(store[i], form) else store[i]
  {
    if form.govtTagNo == "" || form.breed == "" then Failure(RequiredMessage)
    else if TagTaken(store, form.govtTagNo, mode) then Failure(TagTakenMessage(form.govtTagNo))
    else
      match mode
      case Create => Success(store + [form.(id := newId, ownerId := Some(owner))])
      case Edit(sel) => Success(Map(store, (a: Animal) => if a.id == sel then Edited(a, form) else a))
  }

  /** An edit that keeps the animal's own tag is never refused as a clash. */
  lemma EditKeepsOwnTag(store: seq<Animal>, k: int, form: Animal, owner: string, newId: string)
    requires TagsUnique(store) && 0 <= k < |store|
    requires form.govtTagNo == store[k].govtTagNo && form.govtTagNo != "" && form.breed != ""
    ensures Submit(store, form, Edit(store[k].id), owner, newId).Success?
  {
  }

  /** A successful save keeps the roster's tags unique. */
  lemma SubmitKeepsTagsUnique(store: seq<Animal>, form: Animal, mode: DialogMode, owner: string, newId: string)
    requires TagsUnique(store) && IdsUnique(store)
    requires Submit(store, form, mode, owner, newId).Success?
    ensures TagsUnique(Submit(store, form, mode, owner, newId).value)
  {
    var r := Submit(store, form, mode, owner, newId).value;
    forall i, j | 0 <= i < j < |r|
      ensures r[i].govtTagNo != r[j].govtTagNo
    {
      if mode.Create? {
        if j == |store| {
          assert !(store[i].govtTagNo == form.govtTagNo);
        } else {
          assert r[i] == store[i] && r[j] == store[j];
        }
      } else {
        var sel := mode.selectedId;
        if store[i].id == sel {
          assert store[j].id != sel;
          assert store[j].govtTagNo != form.govtTagNo;
        } else if store[j].id == sel {
          assert store[i].govtTagNo != form.govtTagNo;
        }
      }
    }
  }

  // ---------------------------------------------------------------------------
  // Import

  /** One spreadsheet row; `tagNo` is the `TAG NO` cell as text and an empty
      `IDENTIFICATION MARK` cell reads as "". */
  datatype ImportRow = ImportRow(
    animalType: string,
    tagNo: string,
    breed: string,
    color: string,
    gender: Gender,
    yearOfBirth: int,
    healthStatus: HealthStatus,
    tagColor: string,
    identificationMark: string)

  datatype ImportError = EmptySheet | RepeatedInFile(tag: string) | AlreadyStored(tag: string)

  function ImportMessage(e: ImportError): string {
    match e
    case EmptySheet => "The Excel file is empty."
    case RepeatedInFile(t) => "Duplicate Tag No \"" + t + "\" found in the import file."
    case AlreadyStored(t) => "Tag No \"" + t + "\" already exists in the database."
  }

  /** The tags of the roster. */
  function TagSet(animals: seq<Animal>): set<string> {
    set i | 0 <= i < |animals| :: animals[i].govtTagNo
  }

  function RowTag(row: ImportRow): string {
    row.tagNo
  }

  /** The duplicate scan over the sheet's tags, `seen` holding the tags of the
      rows already accepted: the first row whose tag was seen, or else is
      already stored, stops the scan. */
  function Scan(tags: seq<string>, existing: set<string>, seen: set<string>): (r: Option<ImportError>)
    ensures r.Some? ==> !r.value.EmptySheet?
  {
    if |tags| == 0 then None
    else if tags[0] in seen then Some(RepeatedInFile(tags[0]))
    else if tags[0] in existing then Some(AlreadyStored(tags[0]))
    else Scan(tags[1..], existing, seen + {tags[0]})
  }

  /** Every tag is new to the roster and to `seen`, and no tag repeats. */
  ghost predicate Clean(tags: seq<string>, existing: set<string>, seen: set<string>) {
    (forall i :: 0 <= i < |tags| ==> tags[i] !in existing && tags[i] !in seen) && Distinct(tags)
  }

  /** The verdict the scan gives on row `k`, whose tag is a repeat or stored. */
  ghost function Verdict(tags: seq<string>, seen: set<string>, k: int): ImportError
    requires 0 <= k < |tags|
  {
    if tags[k] in seen || tags[k] in tags[..k] then RepeatedInFile(tags[k]) else AlreadyStored(tags[k])
  }

  /** The scan passes iff the tags are clean, and otherwise it reports the first
      offending row, an in-file repeat taking precedence over a stored tag. */
  lemma {:induction false} ScanFindsFirstProblem(tags: seq<string>, existing: set<string>, seen: set<string>)
    ensures Scan(tags, existing, seen).None? <==> Clean(tags, existing, seen)
    ensures Scan(tags, existing, seen).Some? ==>
      exists k :: 0 <= k < |tags| && Clean(tags[..k], existing, seen)
                  && (tags[k] in seen || tags[k] in tags[..k] || tags[k] in existing)
                  && Scan(tags, existing, seen).value == Verdict(tags, seen, k)
    decreases |tags|
  {
    if |tags| == 0 {
    } else if tags[0] in seen || tags[0] in existing {
      assert tags[..0] == [];
      assert !Clean(tags, existing, seen);
    } else {
      var rest := tags[1..];
      var seen' := seen + {tags[0]};
      ScanFindsFirstProblem(rest, existing, seen');
      assert tags == [tags[0]] + rest;
      CleanCons(tags[0], rest, existing, seen);
      if Scan(rest, existing, seen').Some? {
        var k :| 0 <= k < |rest| && Clean(rest[..k], existing, seen')
                 && (rest[k] in seen' || rest[k] in rest[..k] || rest[k] in existing)
                 && Scan(rest, existing, seen').value == Verdict(rest, seen', k);
        ProblemShifts(tags, existing, seen, k);
      }
    }
  }

  /** A first problem at row `k` of the tail, scanned with the head counted as
      seen, is the first problem at row `k + 1` of the whole sheet, with the
      same verdict. */
  lemma ProblemShifts(tags: seq<string>, existing: set<string>, seen: set<string>, k: int)
    requires |tags| > 0 && tags[0] !in seen && tags[0] !in existing
    requires 0 <= k < |tags| - 1
    requires Clean(tags[1..][..k], existing, seen + {tags[0]})
    requires tags[1..][k] in seen + {tags[0]} || tags[1..][k] in tags[1..][..k] || tags[1..][k] in existing
    ensures Clean(tags[..k + 1], existing, seen)
    ensures tags[k + 1] in seen || tags[k + 1] in tags[..k + 1] || tags[k + 1] in existing
    ensures Verdict(tags[1..], seen + {tags[0]}, k) == Verdict(tags, seen, k + 1)
  {
    var rest := tags[1..];
    assert tags[..k + 1] == [tags[0]] + rest[..k];
    CleanCons(tags[0], rest[..k], existing, seen);
    assert rest[k] == tags[k + 1];
  }

  /** A tag list is clean iff its head is new and its tail is clean once the
      head counts as seen. */
  lemma CleanCons(x: string, rest: seq<string>, existing: set<string>, seen: set<string>)
    ensures Clean([x] + rest, existing, seen) <==> x !in existing && x !in seen && Clean(rest, existing, seen + {x})
  {
    var tags := [x] + rest;
    if x !in existing && x !in seen && Clean(rest, existing, seen + {x}) {
      forall i, j | 0 <= i < j < |tags|
        ensures tags[i] != tags[j]
      {
        if i == 0 {
          assert rest[j - 1] !in seen + {x};
        } else {
          assert rest[i - 1] != rest[j - 1];
        }
      }
    }
    if Clean(tags, existing, seen) {
      assert tags[0] == x;
      forall i | 0 <= i < |rest|
        ensures rest[i] !in seen + {x} && rest[i] !in existing
      {
        assert tags[i + 1] == rest[i];
      }
      forall i, j | 0 <= i < j < |rest|
        ensures rest[i] != rest[j]
      {
        assert tags[i + 1] == rest[i] && tags[j + 1] == rest[j];
      }
    }
  }

  /** The animal a row becomes, under the document id `id` and owner `owner`. */
  function FromRow(row: ImportRow, owner: string, id: string): Animal {
    Animal(id, Some(owner), row.animalType, row.tagNo, row.breed, row.color, row.gender, row.yearOfBirth,
           row.healthStatus, row.tagColor, Some(row.identificationMark), None)
  }

  /** The animals the sheet's rows become, row `i` under the id `ids(i)`. */
  function Imported(rows: seq<ImportRow>, owner: string, ids: nat -> string): (r: seq<Animal>)
    ensures |r| == |rows|
    ensures forall i :: 0 <= i < |rows| ==> r[i].govtTagNo == rows[i].tagNo && r[i].id == ids(i)
  {
    var r := seq(|rows|, (i: int) requires 0 <= i < |rows| => FromRow(rows[i], owner, ids(i)));
    assert forall i :: 0 <= i < |rows| ==> r[i] == FromRow(rows[i], owner, ids(i));
    r
  }

  /** The import: an empty sheet, or a sheet with a repeated or already stored
      tag, writes nothing; otherwise every row is added. */
  function Import(store: seq<Animal>, rows: seq<ImportRow>, owner: string, ids: nat -> string)
    : (r: Result<seq<Animal>, ImportError>)
    ensures r.Failure? <==> |rows| == 0 || Scan(Map(rows, RowTag), TagSet(store), {}).Some?
    ensures r == Failure(EmptySheet) <==> |rows| == 0
    ensures r.Success? ==> |r.value| == |store| + |rows| && r.value[..|store|] == store
  {
    if |rows| == 0 then Failure(EmptySheet)
    else
      match Scan(Map(rows, RowTag), TagSet(store), {})
      case Some(e) => Failure(e)
      case None => Success(store + Imported(rows, owner, ids))
  }

  /** An import succeeds exactly when the sheet is non-empty, no two rows share
      a tag and no row's tag is already on the roster. */
  lemma ImportAccepts(store: seq<Animal>, rows: seq<ImportRow>, owner: string, ids: nat -> string)
    ensures Import(store, rows, owner, ids).Success? <==>
      |rows| > 0
      && (forall i, j :: 0 <= i < j < |rows| ==> rows[i].tagNo != rows[j].tagNo)
      && (forall i :: 0 <= i < |rows| ==> rows[i].tagNo !in TagSet(store))
  {
    var tags := Map(rows, RowTag);
    ScanFindsFirstProblem(tags, TagSet(store), {});
  }

  /** Row `k` is where an import stops with error `e`: the rows before it have
      distinct tags, none of them on the roster, and `e` names row `k`'s tag, as
      a repeat when an earlier row has it and as already stored otherwise. */
  ghost predicate StopsAt(store: seq<Animal>, rows: seq<ImportRow>, k: int, e: ImportError)
    requires 0 <= k < |rows|
  {
    && (forall i, j :: 0 <= i < j < k ==> rows[i].tagNo != rows[j].tagNo)
    && (forall i :: 0 <= i < k ==> rows[i].tagNo !in TagSet(store))
    && e == if exists i :: 0 <= i < k && rows[i].tagNo == rows[k].tagNo
            then RepeatedInFile(rows[k].tagNo) else AlreadyStored(rows[k].tagNo)
  }

  /** A rejected non-empty import stops at the first offending row. */
  lemma ImportRejectsFirstProblem(store: seq<Animal>, rows: seq<ImportRow>, owner: string, ids: nat -> string)
    requires |rows| > 0 && Import(store, rows, owner, ids).Failure?
    ensures exists k :: 0 <= k < |rows| && StopsAt(store, rows, k, Import(store, rows, owner, ids).error)
  {
    var tags := Map(rows, RowTag);
    ScanFindsFirstProblem(tags, TagSet(store), {});
    var k :| 0 <= k < |tags| && Clean(tags[..k], TagSet(store), {})
             && (tags[k] in tags[..k] || tags[k] in TagSet(store))
             && Scan(tags, TagSet(store), {}).value == Verdict(tags, {}, k);
    PrefixTags(store, rows, tags, k);
    assert Import(store, rows, owner, ids).error == Verdict(tags, {}, k);
    assert StopsAt(store, rows, k, Verdict(tags, {}, k));
  }

  lemma PrefixTags(store: seq<Animal>, rows: seq<ImportRow>, tags: seq<string>, k: int)
    requires tags == Map(rows, RowTag) && 0 <= k < |rows| && Clean(tags[..k], TagSet(store), {})
    ensures forall i, j :: 0 <= i < j < k ==> rows[i].tagNo != rows[j].tagNo
    ensures forall i :: 0 <= i < k ==> rows[i].tagNo !in TagSet(store)
    ensures (tags[k] in tags[..k]) <==> exists i :: 0 <= i < k && rows[i].tagNo == rows[k].tagNo
  {
    var pre := tags[..k];
    assert forall i :: 0 <= i < k ==> pre[i] == rows[i].tagNo;
  }

  /** A successful import keeps the roster's tags unique. */
  lemma ImportKeepsTagsUnique(store: seq<Animal>, rows: seq<ImportRow>, owner: string, ids: nat -> string)
    requires TagsUnique(store)
    requires Import(store, rows, owner, ids).Success?
    ensures TagsUnique(Import(store, rows, owner, ids).value)
  {
    ImportAccepts(store, rows, owner, ids);
    var r := Import(store, rows, owner, ids).value;
    var added := Imported(rows, owner, ids);
    assert r == store + added;
    forall i, j | 0 <= i < j < |r|
      ensures r[i].govtTagNo != r[j].govtTagNo
    {
      if j >= |store| && i < |store| {
        assert r[j].govtTagNo == rows[j - |store|].tagNo;
        assert store[i].govtTagNo in TagSet(store);
      } else if i >= |store| {
        assert r[i].govtTagNo == rows[i - |store|].tagNo;
        assert r[j].govtTagNo == rows[j - |store|].tagNo;
      } else {
        assert r[i] == store[i] && r[j] == store[j];
      }
    }
  }

  // ---------------------------------------------------------------------------
  // Deleting and marking as exited

  function IdIsNot(id: string): Animal -> bool {
    (a: Animal) => a.id != id
  }

  /** Deleting an animal removes the document with that id and keeps the rest
      in order; its movements are left in place. */
  function Delete(store: seq<Animal>, id: string): (r: seq<Animal>)
    ensures forall i :: 0 <= i < |r| ==> r[i].id != id && r[i] in store
    ensures forall i :: 0 <= i < |store| && store[i].id != id ==> store[i] in r
    ensures KeepsInOrder(store, IdIsNot(id), r)
    ensures TagsUnique(store) ==> TagsUnique(r)
  {
    FilterMembers(store, IdIsNot(id));
    FilterInOrder(store, IdIsNot(id));
    if TagsUnique(store) then
      FilterKeepsDistinct(store, IdIsNot(id), (a: Animal) => a.govtTagNo);
      Filter(store, IdIsNot(id))
    else
      Filter(store, IdIsNot(id))
  }

  const ExitReasonMessage := "A reason for exit is required."

  /** Marking an animal as exited: without a reason nothing is written;
      otherwise one Exit movement for that animal, stamped `now`, is added
      under the fresh id `newId`, at its place `at` in the query order. */
  function MarkExit(movements: seq<Movement>, animal: Animal, reason: string, now: Instant, newId: string, at: nat)
    : (r: Result<seq<Movement>, string>)
    ensures r.Failure? <==> reason == ""
    ensures r.Failure? ==> r.error == ExitReasonMessage
    ensures r.Success? ==>
      |r.value| == |movements| + 1
      && (exists k :: 0 <= k <= |movements| && r.value[..k] == movements[..k] && r.value[k + 1..] == movements[k..]
                       && r.value[k].animalId == animal.id && r.value[k].kind == Exit
                       && r.value[k].reason == reason && r.value[k].date == now)
  {
    if reason == "" then Failure(ExitReasonMessage)
    else
      var r := InsertAt(movements, at, Movement(newId, animal.id, Exit, now, reason));
      assert at > |movements| ==> r[..|movements|] == movements && r[|movements| + 1..] == movements[|movements|..];
      Success(r)
  }

  /** Once marked as exited, an animal whose earlier movements are all stamped
      before now is absent. */
  lemma MarkExitMakesAbsent(movements: seq<Movement>, animal: Animal, reason: string, now: Instant, newId: string,
                            at: nat)
    requires reason != ""
    requires forall i :: 0 <= i < |movements| && movements[i].animalId == animal.id ==> movements[i].date < now
    ensures StatusOf(MarkExit(movements, animal, reason, now, newId, at).value, animal.id) == Out
  {
    StatusAfterRecording(movements, Movement(newId, animal.id, Exit, now, reason), at);
  }
}
