/** The settings screen's backup and restore. A backup is a workbook of named
    sheets of flat documents; an administrator's backup has one sheet of user
    profiles and one sheet per user and non-empty collection, named after the
    user's identifier and the collection. A restore reads the sheets back into
    one batch of document writes. */
module Backup {
  import opened Wrappers
  import opened Text
  import opened Seqs
  import opened Domain

  // ---------------------------------------------------------------------------
  // Documents and sheets

  /** A document as the spreadsheet sees it: field name to cell text. */
  type Doc = map<string, string>

  datatype Sheet = Sheet(name: string, rows: seq<Doc>)

  /** A document without the given fields. */
  function Without(fields: set<string>): Doc -> Doc {
    (d: Doc) => d - fields
  }

  /** `cleanDataForExport`: a copy of every document with the listed fields
      removed and every other field kept. */
  function CleanForExport(data: seq<Doc>, fields: set<string>): (r: seq<Doc>)
    ensures |r| == |data|
    ensures forall i :: 0 <= i < |r| ==> r[i].Keys == data[i].Keys - fields
    ensures forall i, k :: 0 <= i < |r| && k in r[i] ==> r[i][k] == data[i][k]
  {
    Map(data, Without(fields))
  }

  const ProfilesSheet := "All User Profiles"
  const SheetNameLimit := 31

  /** The collections backed up for each user, in sheet order. */
  const Collections := ["animals", "movements", "financial_records", "milk_records", "accounts"]

  /** The fields left out of the backup: profile photos and animal images. */
  const ProfileFieldsDropped := {"photoURL"}
  const AnimalFieldsDropped := {"imageUrl"}

  /** `u.customerId || u.id.substring(0, 5)`: the name a user's sheets carry. */
  function Identifier(u: UserProfile): string {
    if u.customerId != "" then u.customerId else Take(u.id, 5)
  }

  /** `${identifier}_${collection}`, cut to the 31 characters a sheet name may
      have. */
  function SheetName(identifier: string, collection: string): (r: string)
    ensures |r| <= SheetNameLimit
    ensures StartsWith(identifier + "_" + collection, r)
  {
    Take(identifier + "_" + collection, SheetNameLimit)
  }

  /** The rows a collection's sheet holds: animal images are dropped. */
  function Exported(collection: string, data: seq<Doc>): seq<Doc> {
    if collection == "animals" then CleanForExport(data, AnimalFieldsDropped) else data
  }

  /** One user's sheets, in collection order, for the collections that hold
      documents; `fetch(uid, collection)` stands for reading that collection. */
  function UserSheets(u: UserProfile, cols: seq<string>, fetch: (string, string) -> seq<Doc>): (r: seq<Sheet>)
    ensures forall i :: 0 <= i < |r| ==> |r[i].rows| > 0 && |r[i].name| <= SheetNameLimit
    ensures forall i :: 0 <= i < |r| ==>
      exists j :: 0 <= j < |cols| && r[i] == Sheet(SheetName(Identifier(u), cols[j]), Exported(cols[j], fetch(u.id, cols[j])))
    ensures forall j :: 0 <= j < |cols| && |fetch(u.id, cols[j])| > 0 ==>
      Sheet(SheetName(Identifier(u), cols[j]), Exported(cols[j], fetch(u.id, cols[j]))) in r
  {
    if |cols| == 0 then []
    else
      var init := cols[..|cols| - 1];
      var col := cols[|cols| - 1];
      var data := fetch(u.id, col);
      assert forall j :: 0 <= j < |init| ==> init[j] == cols[j];
      var sheet := Sheet(SheetName(Identifier(u), col), Exported(col, data));
      if |data| > 0 then UserSheets(u, init, fetch) + [sheet] else UserSheets(u, init, fetch)
  }

  /** An administrator's backup: the profiles sheet, then every user's sheets
      in roster order. `profiles` are the stored user documents. */
  function AdminBackup(users: seq<UserProfile>, profiles: seq<Doc>, fetch: (string, string) -> seq<Doc>): (r: seq<Sheet>)
    ensures |r| >= 1 && r[0] == Sheet(ProfilesSheet, CleanForExport(profiles, ProfileFieldsDropped))
    ensures forall i :: 1 <= i < |r| ==> |r[i].rows| > 0 && |r[i].name| <= SheetNameLimit
    ensures forall u, j :: u in users && 0 <= j < |Collections| && |fetch(u.id, Collections[j])| > 0 ==>
      Sheet(SheetName(Identifier(u), Collections[j]), Exported(Collections[j], fetch(u.id, Collections[j]))) in r
  {
    [Sheet(ProfilesSheet, CleanForExport(profiles, ProfileFieldsDropped))] + AllUserSheets(users, fetch)
  }

  function AllUserSheets(users: seq<UserProfile>, fetch: (string, string) -> seq<Doc>): (r: seq<Sheet>)
    ensures forall i :: 0 <= i < |r| ==> |r[i].rows| > 0 && |r[i].name| <= SheetNameLimit
    ensures forall u, j :: u in users && 0 <= j < |Collections| && |fetch(u.id, Collections[j])| > 0 ==>
      Sheet(SheetName(Identifier(u), Collections[j]), Exported(Collections[j], fetch(u.id, Collections[j]))) in r
  {
    if |users| == 0 then []
    else
      var init := users[..|users| - 1];
      var rest := AllUserSheets(init, fetch);
      var last := UserSheets(users[|users| - 1], Collections, fetch);
      assert forall u :: u in users ==> u in init || u == users[|users| - 1];
      rest + last
  }

  /** The sheet titles of a personal backup, one per collection, in collection order. */
  const PersonalSheetNames := ["Animals", "Movements", "Financial_Records", "Milk_Records", "Accounts"]

  /** A user's own backup: one sheet per collection, in collection order and
      whether or not the collection is empty, each holding the collection's
      documents cleaned as in the full backup (animals without their images). */
  function PersonalBackup(uid: string, fetch: (string, string) -> seq<Doc>): (r: seq<Sheet>)
    ensures |r| == |Collections|
    ensures forall j :: 0 <= j < |Collections| ==>
      r[j] == Sheet(PersonalSheetNames[j], Exported(Collections[j], fetch(uid, Collections[j])))
    ensures r[0].rows == CleanForExport(fetch(uid, "animals"), AnimalFieldsDropped)
  {
    [Sheet("Animals", CleanForExport(fetch(uid, "animals"), AnimalFieldsDropped)),
     Sheet("Movements", fetch(uid, "movements")),
     Sheet("Financial_Records", fetch(uid, "financial_records")),
     Sheet("Milk_Records", fetch(uid, "milk_records")),
     Sheet("Accounts", fetch(uid, "accounts"))]
  }

  // ---------------------------------------------------------------------------
  // Reading sheet names back

  /** `const [identifier, ...parts] = name.split('_')` with
      `collection = parts.join('_')`. */
  function ParseSheetName(name: string): (r: (string, string))
    ensures '_' !in r.0
    ensures '_' in name ==> name == r.0 + "_" + r.1
    ensures '_' !in name ==> r == (name, "")
  {
    var parts := Split(name, '_');
    SplitHeadTail(name, '_');
    (parts[0], Join(parts[1..], "_"))
  }

  /** A sheet name parses back into the identifier and collection it was built
      from when the identifier has no '_' and the name was not cut short; the
      collection itself may contain '_', as `financial_records` does. */
  lemma SheetNameRoundTrip(identifier: string, collection: string)
    requires '_' !in identifier
    requires |identifier| + 1 + |collection| <= SheetNameLimit
    ensures ParseSheetName(SheetName(identifier, collection)) == (identifier, collection)
  {
    assert SheetName(identifier, collection) == identifier + "_" + collection;
    SplitAfterHead(identifier, collection, '_');
    assert Split(identifier + "_" + collection, '_')[1..] == Split(collection, '_');
    JoinSplit(collection, '_');
  }

  // ---------------------------------------------------------------------------
  // Restoring

  /** Where a restored row is written: a profile document, or a document of one
      of a user's collections. */
  datatype Target = ProfileDoc(userId: string) | UserDoc(userId: string, collection: string, docId: string)

  datatype Write = Write(target: Target, record: Doc)

  // ---------------------------------------------------------------------------
  // Document references

  function NonEmptyTest(): string -> bool {
    (s: string) => |s| > 0
  }

  /** The path segments the store client reads from one argument of `doc`:
      the pieces between its '/' characters, empty pieces dropped. */
  function Segments(component: string): seq<string> {
    Filter(Split(component, '/'), NonEmptyTest())
  }

  /** The segments of all the arguments, in order. */
  function PathSegments(components: seq<string>): seq<string> {
    if |components| == 0 then []
    else PathSegments(components[..|components| - 1]) + Segments(components[|components| - 1])
  }

  /** `doc(firestore, ...components)` names a document instead of throwing:
      no argument holds "//", and the segments alternate collection and
      document, so there is an even, non-zero number of them. */
  predicate NamesDocument(components: seq<string>) {
    && (forall i :: 0 <= i < |components| ==> !Contains(components[i], "//"))
    && |PathSegments(components)| > 0
    && |PathSegments(components)| % 2 == 0
  }

  /** The arguments the restore passes to `doc` for a target. */
  function DocArguments(t: Target): seq<string> {
    match t
    case ProfileDoc(id) => ["users", id]
    case UserDoc(uid, collection, id) => ["users/" + uid + "/" + collection, id]
  }

  /** The restore can build a reference to the target. */
  predicate Reachable(t: Target) {
    NamesDocument(DocArguments(t))
  }

  /** Every write of the batch has a reachable target. */
  predicate AllReachable(ws: seq<Write>) {
    forall i :: 0 <= i < |ws| ==> Reachable(ws[i].target)
  }

  /** A non-empty piece of text without '/'. */
  predicate PlainSegment(s: string) {
    s != "" && '/' !in s
  }

  lemma NoSlashNoDouble(s: string)
    requires '/' !in s
    ensures !Contains(s, "//")
  {
    forall i: nat | i <= |s|
      ensures !OccursAt(s, "//", i)
    {
      if i + 2 <= |s| {
        assert s[i..i + 2][0] == s[i];
      }
    }
  }

  /** A plain head, '/', then a rest that has no "//" and does not start with
      '/': no "//" anywhere. */
  lemma ConsNoDouble(head: string, rest: string)
    requires PlainSegment(head) && !Contains(rest, "//") && (rest == "" || rest[0] != '/')
    ensures !Contains(head + "/" + rest, "//")
  {
    var s := head + "/" + rest;
    forall i: nat | i <= |s| && i + 2 <= |s|
      ensures !OccursAt(s, "//", i)
    {
      if i < |head| {
        assert s[i..i + 2][0] == s[i] == head[i];
        assert head[i] != '/';
      } else if i == |head| {
        assert s[i..i + 2][1] == s[i + 1] == rest[0];
      } else {
        var j: nat := i - |head| - 1;
        assert s[i..i + 2] == rest[j..j + 2];
        assert j <= |rest| && !OccursAt(rest, "//", j);
      }
    }
  }

  lemma SegmentsOfPlain(s: string)
    requires PlainSegment(s)
    ensures Segments(s) == [s]
  {
    SplitHeadTail(s, '/');
    FilterSingle(s, NonEmptyTest());
  }

  lemma SegmentsOfEmpty()
    ensures Segments("") == []
  {
    SplitHeadTail("", '/');
    FilterSingle("", NonEmptyTest());
  }

  /** A '/'-free head, then '/', then the rest: the head's segment first. */
  lemma SegmentsAfterHead(head: string, rest: string)
    requires PlainSegment(head)
    ensures Segments(head + "/" + rest) == [head] + Segments(rest)
  {
    SplitAfterHead(head, rest, '/');
    FilterAppend([head], Split(rest, '/'), NonEmptyTest());
    FilterSingle(head, NonEmptyTest());
  }

  lemma PathSegmentsOfTwo(a: string, b: string)
    ensures PathSegments([a, b]) == Segments(a) + Segments(b)
  {
    assert [a, b][..1] == [a];
    assert [a][..0] == [];
    assert PathSegments([a]) == PathSegments([]) + Segments(a);
    assert PathSegments([a, b]) == PathSegments([a]) + Segments(b);
  }

  /** The first argument of a user-collection reference: segments "users",
      the user and the collection (none for an empty collection), and no "//"
      when the user and the collection are plain. */
  lemma CollectionPath(uid: string, collection: string)
    requires PlainSegment(uid) && '/' !in collection
    ensures Segments("users/" + uid + "/" + collection) == ["users", uid] + (if collection == "" then [] else [collection])
    ensures !Contains("users/" + uid + "/" + collection, "//")
  {
    var tail := uid + "/" + collection;
    assert "users/" + uid + "/" + collection == "users" + "/" + tail;
    SegmentsAfterHead("users", tail);
    SegmentsAfterHead(uid, collection);
    if collection == "" {
      SegmentsOfEmpty();
    } else {
      SegmentsOfPlain(collection);
    }
    NoSlashNoDouble(collection);
    ConsNoDouble(uid, collection);
    assert tail[0] == uid[0];
    ConsNoDouble("users", tail);
  }

  /** Plain user, collection and document ids name a document. */
  lemma PlainTargetReachable(uid: string, collection: string, id: string)
    requires PlainSegment(uid) && PlainSegment(collection) && PlainSegment(id)
    ensures Reachable(UserDoc(uid, collection, id))
  {
    var args := DocArguments(UserDoc(uid, collection, id));
    CollectionPath(uid, collection);
    SegmentsOfPlain(id);
    NoSlashNoDouble(id);
    PathSegmentsOfTwo(args[0], args[1]);
    assert |PathSegments(args)| == 4;
  }

  /** With an empty collection the path is "users/<uid>/<id>": three
      segments, which is no document. */
  lemma EmptyCollectionUnreachable(uid: string, id: string)
    requires PlainSegment(uid) && PlainSegment(id)
    ensures !Reachable(UserDoc(uid, "", id))
  {
    var args := DocArguments(UserDoc(uid, "", id));
    CollectionPath(uid, "");
    SegmentsOfPlain(id);
    PathSegmentsOfTwo(args[0], args[1]);
    assert |PathSegments(args)| == 3;
  }

  /** A plain profile id names a document. */
  lemma PlainProfileReachable(id: string)
    requires PlainSegment(id)
    ensures Reachable(ProfileDoc(id))
  {
    SegmentsOfPlain("users");
    SegmentsOfPlain(id);
    NoSlashNoDouble("users");
    NoSlashNoDouble(id);
    PathSegmentsOfTwo("users", id);
  }

  /** A profile id with one '/' inside, as "a/b", gives the odd path
      "users/a/b". */
  lemma SlashedProfileUnreachable(a: string, b: string)
    requires PlainSegment(a) && PlainSegment(b)
    ensures !Reachable(ProfileDoc(a + "/" + b))
  {
    SegmentsOfPlain("users");
    SegmentsAfterHead(a, b);
    SegmentsOfPlain(b);
    PathSegmentsOfTwo("users", a + "/" + b);
  }

  /** `if (record.id)`: the row carries a non-empty id. */
  predicate HasId(d: Doc) {
    "id" in d && d["id"] != ""
  }

  /** The writes restoring `rows` into collection `collection` of user `uid`:
      one per row with an id, under that id, in row order. */
  function CollectionWrites(rows: seq<Doc>, uid: string, collection: string): (r: seq<Write>)
    ensures |r| <= |rows|
    ensures forall w :: w in r ==> w.record in rows && HasId(w.record)
                                   && w.target == UserDoc(uid, collection, w.record["id"])
    ensures forall d :: d in rows && HasId(d) ==> Write(UserDoc(uid, collection, d["id"]), d) in r
  {
    if |rows| == 0 then []
    else
      var init := rows[..|rows| - 1];
      var d := rows[|rows| - 1];
      var rest := CollectionWrites(init, uid, collection);
      assert forall x :: x in rows ==> x in init || x == d;
      if HasId(d) then rest + [Write(UserDoc(uid, collection, d["id"]), d)] else rest
  }

  /** A profiles-sheet row the restore can write: it has an id, and that id
      names a profile document. */
  predicate ProfileRowOk(d: Doc) {
    HasId(d) && Reachable(ProfileDoc(d["id"]))
  }

  /** The profiles sheet's writes: each row to the profile named by its id.
      A row without an id, or whose id names no document, makes `doc` throw,
      which aborts the whole restore: None. */
  function ProfileWrites(rows: seq<Doc>): (r: Option<seq<Write>>)
    ensures r.None? <==> exists i :: 0 <= i < |rows| && !ProfileRowOk(rows[i])
    ensures r.Some? ==> |r.value| == |rows|
    ensures r.Some? ==> forall i :: 0 <= i < |rows| ==>
      ProfileRowOk(rows[i]) && r.value[i] == Write(ProfileDoc(rows[i]["id"]), rows[i])
  {
    if |rows| == 0 then Some([])
    else
      var init := rows[..|rows| - 1];
      var d := rows[|rows| - 1];
      assert forall i :: 0 <= i < |init| ==> init[i] == rows[i];
      match ProfileWrites(init)
      case None => None
      case Some(w) => if ProfileRowOk(d) then Some(w + [Write(ProfileDoc(d["id"]), d)]) else None
  }

  /** A user whose customer id, or whose uid's first five characters, is the
      identifier. */
  function OwnerTest(identifier: string): UserProfile -> bool {
    (u: UserProfile) => u.customerId == identifier || Take(u.id, 5) == identifier
  }

  /** `allUsers.find(...)`: the first such user. */
  function OwnerOf(users: seq<UserProfile>, identifier: string): (r: Option<UserProfile>)
    ensures r.None? <==> forall i :: 0 <= i < |users| ==> !OwnerTest(identifier)(users[i])
    ensures r.Some? ==> exists i :: 0 <= i < |users| && users[i] == r.value && OwnerTest(identifier)(users[i])
                                    && forall j :: 0 <= j < i ==> !OwnerTest(identifier)(users[j])
  {
    FirstWhere(users, OwnerTest(identifier))
  }

  /** A row with an id whose write into `collection` of user `uid` has no
      reference the store client accepts. */
  predicate RowUnreachable(d: Doc, uid: string, collection: string) {
    HasId(d) && !Reachable(UserDoc(uid, collection, d["id"]))
  }

  /** Some row of the sheet makes `doc` throw. */
  predicate SheetAborts(rows: seq<Doc>, uid: string, collection: string) {
    exists d :: d in rows && RowUnreachable(d, uid, collection)
  }

  /** A collection's writes all have reachable targets exactly when no row
      makes `doc` throw. */
  lemma CollectionWritesReachable(rows: seq<Doc>, uid: string, collection: string)
    ensures AllReachable(CollectionWrites(rows, uid, collection)) <==> !SheetAborts(rows, uid, collection)
  {
    var ws := CollectionWrites(rows, uid, collection);
    if !AllReachable(ws) {
      var i :| 0 <= i < |ws| && !Reachable(ws[i].target);
      assert ws[i] in ws;
      assert RowUnreachable(ws[i].record, uid, collection);
    }
    if SheetAborts(rows, uid, collection) {
      var d :| d in rows && RowUnreachable(d, uid, collection);
      var w := Write(UserDoc(uid, collection, d["id"]), d);
      assert w in ws;
      var i :| 0 <= i < |ws| && ws[i] == w;
    }
  }

  /** The writes a full restore makes for one sheet; None when the sheet
      aborts the restore: a profiles row `doc` cannot take, or, for a sheet
      whose identifier has an owner, a row whose path is no document (as with
      a name without '_', whose collection part is empty). */
  function FullSheetWrites(sheet: Sheet, users: seq<UserProfile>): (r: Option<seq<Write>>)
    ensures r.None? <==>
      if sheet.name == ProfilesSheet then ProfileWrites(sheet.rows).None?
      else OwnerOf(users, ParseSheetName(sheet.name).0).Some?
           && SheetAborts(sheet.rows, OwnerOf(users, ParseSheetName(sheet.name).0).value.id, ParseSheetName(sheet.name).1)
    ensures r.Some? ==> AllReachable(r.value)
    ensures sheet.name != ProfilesSheet && OwnerOf(users, ParseSheetName(sheet.name).0).None? ==> r == Some([])
    ensures sheet.name != ProfilesSheet && OwnerOf(users, ParseSheetName(sheet.name).0).Some? && r.Some? ==>
      forall w :: w in r.value ==> w.target.UserDoc? && w.target.userId == OwnerOf(users, ParseSheetName(sheet.name).0).value.id
                                   && w.target.collection == ParseSheetName(sheet.name).1
    ensures sheet.name == ProfilesSheet && r.Some? ==> forall w :: w in r.value ==> w.target.ProfileDoc?
  {
    if sheet.name == ProfilesSheet then ProfileWrites(sheet.rows)
    else
      var (identifier, collection) := ParseSheetName(sheet.name);
      match OwnerOf(users, identifier)
      case None => Some([])
      case Some(u) =>
        var ws := CollectionWrites(sheet.rows, u.id, collection);
        CollectionWritesReachable(sheet.rows, u.id, collection);
        if AllReachable(ws) then Some(ws) else None
  }

  /** `w` is one of the writes of `sheet` in a full restore. */
  predicate SheetWrites(sheet: Sheet, users: seq<UserProfile>, w: Write) {
    FullSheetWrites(sheet, users).Some? && w in FullSheetWrites(sheet, users).value
  }

  /** A full restore: every sheet's writes, in sheet order, as one batch;
      None when any sheet aborts it. */
  function FullRestore(sheets: seq<Sheet>, users: seq<UserProfile>): (r: Option<seq<Write>>)
    ensures r.None? <==> exists i :: 0 <= i < |sheets| && FullSheetWrites(sheets[i], users).None?
  {
    FlattenAll(Map(sheets, (sheet: Sheet) => FullSheetWrites(sheet, users)))
  }

  /** The batch of a full restore holds every write of every sheet, and
      nothing else. */
  lemma FullRestoreMembers(sheets: seq<Sheet>, users: seq<UserProfile>)
    requires FullRestore(sheets, users).Some?
    ensures forall i, w :: 0 <= i < |sheets| && SheetWrites(sheets[i], users, w) ==> w in FullRestore(sheets, users).value
    ensures forall w :: w in FullRestore(sheets, users).value ==>
      exists i :: 0 <= i < |sheets| && SheetWrites(sheets[i], users, w)
  {
    var parts := Map(sheets, (sheet: Sheet) => FullSheetWrites(sheet, users));
    FlattenAllMembers(parts);
    assert forall i :: 0 <= i < |sheets| ==> parts[i] == FullSheetWrites(sheets[i], users);
  }

  /** The collection names the backup uses are plain path segments. */
  lemma CollectionNamesPlain()
    ensures forall j :: 0 <= j < |Collections| ==> PlainSegment(Collections[j])
  {
    assert '/' !in Collections[0] && '/' !in Collections[1] && '/' !in Collections[2];
    assert '/' !in Collections[3] && '/' !in Collections[4];
  }

  /** A sheet made by the backup for `u` is restored by a full restore into
      `u`'s own collection, row by row under each row's id, when `u` is the
      first user its identifier points at, the identifier has no '_', the
      name was not cut short, and the user and row ids are document ids (no
      '/'), as the store's own ids are. */
  lemma FullRestoreReturnsSheet(users: seq<UserProfile>, k: int, collection: string, rows: seq<Doc>)
    requires 0 <= k < |users|
    requires '_' !in Identifier(users[k])
    requires collection in Collections
    requires PlainSegment(users[k].id)
    requires forall d :: d in rows && HasId(d) ==> '/' !in d["id"]
    requires |Identifier(users[k])| + 1 + |collection| <= SheetNameLimit
    requires forall j :: 0 <= j < k ==> !OwnerTest(Identifier(users[k]))(users[j])
    ensures FullSheetWrites(Sheet(SheetName(Identifier(users[k]), collection), rows), users)
            == Some(CollectionWrites(rows, users[k].id, collection))
  {
    var u := users[k];
    var name := SheetName(Identifier(u), collection);
    SheetNameRoundTrip(Identifier(u), collection);
    assert name != ProfilesSheet by {
      assert '_' in name by { assert name[|Identifier(u)|] == '_'; }
      assert '_' !in ProfilesSheet;
    }
    assert OwnerTest(Identifier(u))(u) by {
      if u.customerId == "" {
        assert Take(u.id, 5) == Identifier(u);
      }
    }
    var o := OwnerOf(users, Identifier(u));
    var i :| 0 <= i < |users| && users[i] == o.value && OwnerTest(Identifier(u))(users[i])
             && forall j :: 0 <= j < i ==> !OwnerTest(Identifier(u))(users[j]);
    assert i == k;
    CollectionNamesPlain();
    assert PlainSegment(collection);
    forall d | d in rows && HasId(d)
      ensures !RowUnreachable(d, u.id, collection)
    {
      PlainTargetReachable(u.id, collection, d["id"]);
    }
    CollectionWritesReachable(rows, u.id, collection);
  }

  /** A sheet whose name has no '_' but whose identifier has an owner with a
      plain id has an empty collection part: its first row with a plain id
      makes `doc` throw, and the whole full restore is abandoned. */
  lemma FullRestoreAbortsOnNameWithoutCollection(sheets: seq<Sheet>, users: seq<UserProfile>, i: int, d: Doc)
    requires 0 <= i < |sheets| && sheets[i].name != ProfilesSheet && '_' !in sheets[i].name
    requires OwnerOf(users, sheets[i].name).Some? && PlainSegment(OwnerOf(users, sheets[i].name).value.id)
    requires d in sheets[i].rows && HasId(d) && '/' !in d["id"]
    ensures FullRestore(sheets, users).None?
  {
    var name := sheets[i].name;
    assert ParseSheetName(name) == (name, "");
    EmptyCollectionUnreachable(OwnerOf(users, name).value.id, d["id"]);
    assert RowUnreachable(d, OwnerOf(users, name).value.id, "");
    assert FullSheetWrites(sheets[i], users).None?;
  }

  /** The user-wise restore of one sheet as the screen does it: processed when
      its name starts with the identifier, into the selected user's collection
      named by the text after the first '_'. */
  function UserSheetWritesAsWritten(sheet: Sheet, identifier: string, uid: string): (r: seq<Write>)
    ensures |r| > 0 ==> StartsWith(sheet.name, identifier)
    ensures forall w :: w in r ==>
      w.record in sheet.rows && HasId(w.record) && w.target == UserDoc(uid, ParseSheetName(sheet.name).1, w.record["id"])
    ensures StartsWith(sheet.name, identifier) ==>
      forall d :: d in sheet.rows && HasId(d) ==> Write(UserDoc(uid, ParseSheetName(sheet.name).1, d["id"]), d) in r
  {
    if StartsWith(sheet.name, identifier) then CollectionWrites(sheet.rows, uid, ParseSheetName(sheet.name).1)
    else []
  }

  /** The corrected selection: the name must start with the identifier and
      the '_' that ends it. */
  function UserSheetWrites(sheet: Sheet, identifier: string, uid: string): (r: seq<Write>)
    ensures |r| > 0 ==> ParseSheetName(sheet.name).0 == identifier || '_' in identifier
  {
    if StartsWith(sheet.name, identifier + "_") then
      SelectedSheetIdentifier(sheet.name, identifier);
      CollectionWrites(sheet.rows, uid, ParseSheetName(sheet.name).1)
    else []
  }

  /** A name beginning with an identifier free of '_' and then '_' parses back
      to that identifier. */
  lemma SelectedSheetIdentifier(name: string, identifier: string)
    requires StartsWith(name, identifier + "_")
    ensures '_' !in identifier ==> ParseSheetName(name).0 == identifier
  {
    if '_' !in identifier {
      var rest := name[|identifier| + 1..];
      assert name == identifier + "_" + rest;
      SplitAfterHead(identifier, rest, '_');
    }
  }

  const UserNotFoundMessage := "Selected user not found."

  /** Stands for the store client's error when `doc` is given a path that is
      no document; the client's own text, which names the path, is not
      modelled. */
  const InvalidReferenceMessage := "Invalid document reference."

  /** Some sheet the as-written selection takes has a row that makes `doc`
      throw. */
  predicate SelectionAborts(sheets: seq<Sheet>, identifier: string, uid: string) {
    exists i :: 0 <= i < |sheets| && StartsWith(sheets[i].name, identifier)
                && SheetAborts(sheets[i].rows, uid, ParseSheetName(sheets[i].name).1)
  }

  lemma AllReachableAppend(a: seq<Write>, b: seq<Write>)
    ensures AllReachable(a + b) <==> AllReachable(a) && AllReachable(b)
  {
    if AllReachable(a) && AllReachable(b) {
      forall i | 0 <= i < |a + b|
        ensures Reachable((a + b)[i].target)
      {
        if i >= |a| {
          assert (a + b)[i] == b[i - |a|];
        }
      }
    }
    if AllReachable(a + b) {
      forall i | 0 <= i < |a|
        ensures Reachable(a[i].target)
      {
        assert (a + b)[i] == a[i];
      }
      forall i | 0 <= i < |b|
        ensures Reachable(b[i].target)
      {
        assert (a + b)[|a| + i] == b[i];
      }
    }
  }

  /** One sheet's as-written writes can be built exactly when the sheet is
      not selected or none of its rows makes `doc` throw. */
  lemma SheetAsWrittenReachable(sheet: Sheet, identifier: string, uid: string)
    ensures AllReachable(UserSheetWritesAsWritten(sheet, identifier, uid))
            <==> !(StartsWith(sheet.name, identifier) && SheetAborts(sheet.rows, uid, ParseSheetName(sheet.name).1))
  {
    if StartsWith(sheet.name, identifier) {
      CollectionWritesReachable(sheet.rows, uid, ParseSheetName(sheet.name).1);
    }
  }

  /** A selection of several sheets aborts when the earlier ones do or the
      last one does. */
  lemma SelectionAbortsSplit(sheets: seq<Sheet>, identifier: string, uid: string)
    requires |sheets| > 0
    ensures SelectionAborts(sheets, identifier, uid) <==>
      SelectionAborts(sheets[..|sheets| - 1], identifier, uid)
      || (StartsWith(sheets[|sheets| - 1].name, identifier)
          && SheetAborts(sheets[|sheets| - 1].rows, uid, ParseSheetName(sheets[|sheets| - 1].name).1))
  {
    var n := |sheets| - 1;
    var init := sheets[..n];
    assert forall i :: 0 <= i < n ==> init[i] == sheets[i];
    if SelectionAborts(sheets, identifier, uid) {
      var i :| 0 <= i < |sheets| && StartsWith(sheets[i].name, identifier)
               && SheetAborts(sheets[i].rows, uid, ParseSheetName(sheets[i].name).1);
      if i < n {
        assert SelectionAborts(init, identifier, uid);
      }
    }
  }

  /** The as-written batch can be built exactly when no selected sheet has a
      row that makes `doc` throw. */
  lemma {:induction false} AsWrittenReachable(sheets: seq<Sheet>, identifier: string, uid: string)
    ensures AllReachable(UserWritesAsWritten(sheets, identifier, uid)) <==> !SelectionAborts(sheets, identifier, uid)
  {
    if |sheets| > 0 {
      var n := |sheets| - 1;
      var init, last := sheets[..n], sheets[n];
      var front, back := UserWritesAsWritten(init, identifier, uid), UserSheetWritesAsWritten(last, identifier, uid);
      assert UserWritesAsWritten(sheets, identifier, uid) == front + back;
      AsWrittenReachable(init, identifier, uid);
      AllReachableAppend(front, back);
      SheetAsWrittenReachable(last, identifier, uid);
      SelectionAbortsSplit(sheets, identifier, uid);
    }
  }

  function IdTest(id: string): UserProfile -> bool {
    (u: UserProfile) => u.id == id
  }

  /** The user-wise restore: the selected user must be on the roster; each
      sheet whose name starts with that user's identifier has its rows with an
      id written into that user's collections, in sheet order, as one batch.
      A row whose path is no document (a sheet named just the identifier has
      an empty collection part) makes `doc` throw and abandons the restore. */
  function UserRestore(sheets: seq<Sheet>, users: seq<UserProfile>, selectedId: string): (r: Result<seq<Write>, string>)
    ensures (forall i :: 0 <= i < |users| ==> users[i].id != selectedId) ==> r == Failure(UserNotFoundMessage)
    ensures (exists i :: 0 <= i < |users| && users[i].id == selectedId) ==>
      (r.Failure? <==> SelectionAborts(sheets, Identifier(FirstWhere(users, IdTest(selectedId)).value), selectedId))
    ensures r.Failure? ==> r.error == UserNotFoundMessage || r.error == InvalidReferenceMessage
    ensures r.Success? ==> AllReachable(r.value)
    ensures r.Success? ==> forall w :: w in r.value ==> w.target.UserDoc? && w.target.userId == selectedId
  {
    match FirstWhere(users, IdTest(selectedId))
    case None => Failure(UserNotFoundMessage)
    case Some(u) =>
      var ws := UserWritesAsWritten(sheets, Identifier(u), selectedId);
      AsWrittenReachable(sheets, Identifier(u), selectedId);
      if AllReachable(ws) then Success(ws) else Failure(InvalidReferenceMessage)
  }

  /** A sheet named just the selected user's identifier, with a row whose id
      is a document id, makes the user-wise restore fail. */
  lemma UserRestoreAbortsOnBareIdentifierSheet(sheets: seq<Sheet>, users: seq<UserProfile>, selectedId: string, i: int, d: Doc)
    requires FirstWhere(users, IdTest(selectedId)).Some? && PlainSegment(selectedId)
    requires 0 <= i < |sheets| && sheets[i].name == Identifier(FirstWhere(users, IdTest(selectedId)).value)
    requires '_' !in sheets[i].name
    requires d in sheets[i].rows && HasId(d) && '/' !in d["id"]
    ensures UserRestore(sheets, users, selectedId) == Failure(InvalidReferenceMessage)
  {
    var name := sheets[i].name;
    assert StartsWith(name, name);
    assert ParseSheetName(name) == (name, "");
    EmptyCollectionUnreachable(selectedId, d["id"]);
    assert RowUnreachable(d, selectedId, "");
    assert SelectionAborts(sheets, name, selectedId);
  }

  /** The corrected user-wise batch: the writes of every sheet whose name
      starts with the identifier and the '_' that ends it, in sheet order. */
  function UserWrites(sheets: seq<Sheet>, identifier: string, uid: string): (r: seq<Write>)
    ensures forall w :: w in r ==> w.target.UserDoc? && w.target.userId == uid
    ensures '_' !in identifier ==>
      forall w :: w in r ==> exists i :: 0 <= i < |sheets| && ParseSheetName(sheets[i].name).0 == identifier
                                         && w.record in sheets[i].rows
  {
    if |sheets| == 0 then []
    else
      var init := sheets[..|sheets| - 1];
      var last := sheets[|sheets| - 1];
      var rest := UserWrites(init, identifier, uid);
      var mine := UserSheetWrites(last, identifier, uid);
      assert forall i :: 0 <= i < |init| ==> init[i] == sheets[i];
      rest + mine
  }

  /** The user-wise batch as the screen builds it: the writes of every sheet
      whose name starts with the identifier, in sheet order. */
  function UserWritesAsWritten(sheets: seq<Sheet>, identifier: string, uid: string): (r: seq<Write>)
    ensures forall w :: w in r ==> w.target.UserDoc? && w.target.userId == uid
    ensures forall w :: w in r ==>
      exists i :: 0 <= i < |sheets| && StartsWith(sheets[i].name, identifier) && w.record in sheets[i].rows
  {
    if |sheets| == 0 then []
    else
      var init := sheets[..|sheets| - 1];
      assert forall i :: 0 <= i < |init| ==> init[i] == sheets[i];
      UserWritesAsWritten(init, identifier, uid) + UserSheetWritesAsWritten(sheets[|sheets| - 1], identifier, uid)
  }

  /** A selected sheet's rows with an id all land in the as-written batch. */
  lemma {:induction false} UserWritesAsWrittenCovers(sheets: seq<Sheet>, identifier: string, uid: string, i: nat, d: Doc)
    requires i < |sheets| && StartsWith(sheets[i].name, identifier) && d in sheets[i].rows && HasId(d)
    ensures Write(UserDoc(uid, ParseSheetName(sheets[i].name).1, d["id"]), d) in UserWritesAsWritten(sheets, identifier, uid)
  {
    var n := |sheets| - 1;
    var init := sheets[..n];
    var w := Write(UserDoc(uid, ParseSheetName(sheets[i].name).1, d["id"]), d);
    var front, back := UserWritesAsWritten(init, identifier, uid), UserSheetWritesAsWritten(sheets[n], identifier, uid);
    assert UserWritesAsWritten(sheets, identifier, uid) == front + back;
    if i < n {
      assert w in front by {
        assert init[i] == sheets[i];
        UserWritesAsWrittenCovers(init, identifier, uid, i, d);
      }
    } else {
      assert w in back;
    }
  }

  /** The sheets named `prefix...`. */
  function NamedTest(prefix: string): Sheet -> bool {
    (sheet: Sheet) => StartsWith(sheet.name, prefix)
  }

  /** The corrected batch is the as-written batch over just the sheets whose
      name starts with the identifier and '_'. */
  lemma {:induction false} CorrectedIsAsWrittenOnOwnSheets(sheets: seq<Sheet>, identifier: string, uid: string)
    ensures UserWrites(sheets, identifier, uid)
            == UserWritesAsWritten(Filter(sheets, NamedTest(identifier + "_")), identifier, uid)
  {
    if |sheets| > 0 {
      var init, last := sheets[..|sheets| - 1], sheets[|sheets| - 1];
      var p := NamedTest(identifier + "_");
      CorrectedIsAsWrittenOnOwnSheets(init, identifier, uid);
      if p(last) {
        assert last.name[..|identifier|] == (identifier + "_")[..|identifier|] == identifier;
        assert Filter(sheets, p) == Filter(init, p) + [last];
        assert (Filter(init, p) + [last])[..|Filter(init, p)|] == Filter(init, p);
      } else {
        assert Filter(sheets, p) == Filter(init, p);
      }
    }
  }

  /** The sheet the backup makes for customer G-1000's animals. */
  const OtherCustomerSheet := Sheet("G-1000_animals", [map["id" := "a1"]])

  /** The sheet is G-1000's: its name parses to that identifier. */
  lemma OtherCustomerSheetIsTheirs()
    ensures SheetName("G-1000", "animals") == OtherCustomerSheet.name
    ensures ParseSheetName(OtherCustomerSheet.name) == ("G-1000", "animals")
  {
    SheetNameRoundTrip("G-1000", "animals");
  }

  /** As written, restoring customer G-100 (uid "uid100") also restores
      customer G-1000's sheet into G-100's account, since "G-1000_animals"
      starts with "G-100". */
  lemma PrefixSelectsOtherCustomer()
    ensures UserWritesAsWritten([OtherCustomerSheet], "G-100", "uid100")
            == [Write(UserDoc("uid100", "animals", "a1"), map["id" := "a1"])]
  {
    AsWrittenTakesOtherSheet();
    OneSheetAsWritten(OtherCustomerSheet, "G-100", "uid100");
    OneRowWrites(map["id" := "a1"], "uid100", "animals");
  }

  /** The as-written test lets G-1000's sheet through for G-100, into the
      collection its name carries. */
  lemma AsWrittenTakesOtherSheet()
    ensures UserSheetWritesAsWritten(OtherCustomerSheet, "G-100", "uid100")
            == CollectionWrites(OtherCustomerSheet.rows, "uid100", "animals")
  {
    OtherCustomerSheetIsTheirs();
    OtherSheetStartsWithShorterId();
    AsWrittenSelects(OtherCustomerSheet, "G-100", "uid100");
  }

  lemma OtherSheetStartsWithShorterId()
    ensures StartsWith(OtherCustomerSheet.name, "G-100")
  {
    assert OtherCustomerSheet.name[..5] == "G-100";
  }

  /** As written, a sheet whose name starts with the identifier is restored
      into the collection named after its first '_'. */
  lemma AsWrittenSelects(sheet: Sheet, identifier: string, uid: string)
    requires StartsWith(sheet.name, identifier)
    ensures UserSheetWritesAsWritten(sheet, identifier, uid)
            == CollectionWrites(sheet.rows, uid, ParseSheetName(sheet.name).1)
  {
  }

  lemma OneSheetAsWritten(sheet: Sheet, identifier: string, uid: string)
    ensures UserWritesAsWritten([sheet], identifier, uid) == UserSheetWritesAsWritten(sheet, identifier, uid)
  {
    assert [sheet][..0] == [];
  }

  lemma OneRowWrites(d: Doc, uid: string, collection: string)
    requires HasId(d)
    ensures CollectionWrites([d], uid, collection) == [Write(UserDoc(uid, collection, d["id"]), d)]
  {
    assert [d][..0] == [];
  }

  /** With the corrected selection that sheet is left alone. */
  lemma CorrectedSkipsOtherCustomer()
    ensures UserWrites([OtherCustomerSheet], "G-100", "uid100") == []
  {
    var sheet := OtherCustomerSheet;
    assert sheet.name[5] == '0';
    assert !StartsWith(sheet.name, "G-100" + "_");
    assert [sheet][..0] == [];
  }

  // ---------------------------------------------------------------------------
  // Starting and running a restore

  datatype RestoreMode = Full | UserWise

  const NoFileMessage := "Please select a backup file to restore."
  const NoUserMessage := "Please select a user to restore data for."

  /** The restore button: a backup file must be chosen, and in user-wise mode
      a user too; then the confirmation is shown. */
  function TriggerRestore(fileChosen: bool, mode: RestoreMode, selectedUser: Option<string>): (r: Result<RestoreMode, string>)
    ensures r.Success? <==> fileChosen && (mode == UserWise ==> selectedUser.Some?)
    ensures !fileChosen ==> r == Failure(NoFileMessage)
    ensures fileChosen && mode == UserWise && selectedUser.None? ==> r == Failure(NoUserMessage)
  {
    if !fileChosen then Failure(NoFileMessage)
    else if mode == UserWise && selectedUser.None? then Failure(NoUserMessage)
    else Success(mode)
  }

  /** A confirmed restore: the maintenance flags it sets, in order, and the
      batch it commits, None when it fails. */
  datatype RestoreRun = RestoreRun(maintenance: seq<bool>, committed: Option<seq<Write>>)

  /** Running a confirmed restore as an administrator: maintenance mode is
      switched on, the batch is committed when it could be built, and
      maintenance mode is switched off again whatever happened. Anyone else
      changes nothing. */
  function ConfirmRestore(isAdmin: bool, mode: RestoreMode, sheets: seq<Sheet>, users: seq<UserProfile>, selectedId: string)
    : (r: RestoreRun)
    ensures !isAdmin ==> r == RestoreRun([], None)
    ensures isAdmin ==> r.maintenance == [true, false]
    ensures isAdmin && mode == Full ==> r.committed == FullRestore(sheets, users)
    ensures isAdmin && mode == UserWise && (forall i :: 0 <= i < |users| ==> users[i].id != selectedId) ==>
      r.committed.None?
    ensures isAdmin && mode == UserWise ==> (r.committed.None? <==> UserRestore(sheets, users, selectedId).Failure?)
    ensures isAdmin && mode == UserWise && r.committed.Some? ==>
      UserRestore(sheets, users, selectedId) == Success(r.committed.value)
  {
    if !isAdmin then RestoreRun([], None)
    else
      var batch := match mode
        case Full => FullRestore(sheets, users)
        case UserWise => (match UserRestore(sheets, users, selectedId)
          case Failure(_) => None
          case Success(w) => Some(w));
      RestoreRun([true, false], batch)
  }
}
