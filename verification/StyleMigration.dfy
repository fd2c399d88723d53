/**
 The data migration that puts a "set" between an operator and its style profiles. Rows are maps from row
 numbers; every statement is one function on the two tables, whose new uniqueness constraints are already
 installed when the migration starts.
 */
module StyleMigration {
  import opened Collections

  /** A stored document: an object, or anything else (unparsable text, a list, a scalar). */
  datatype Json =
    | Other(text: string)
    | Object(schema: string, kind: Option<string>, active: Option<string>, profiles: Sets, rest: string)

  /** The `profiles` field of an object: absent (or no object itself), or an ordered object. */
  datatype Sets = NoSets | Sets(value: seq<Entry>)

  datatype Entry = Entry(name: string, content: Json)

  datatype Profile = Profile(owner: Option<int>, name: string, kind: string, active: bool, version: int, content: Json)

  datatype Version = Version(set_: Option<int>, owner: int, version: int, content: Json, note: Option<string>)

  datatype DB = DB(profiles: map<int, Profile>, versions: map<int, Version>)

  const DEFAULT_NAME := "图文"
  const DEFAULT_KIND := "carousel"

  predicate IsContainer(doc: Json) {
    doc.Object? && doc.schema == "profiles-v1" && doc.profiles.Sets? && doc.profiles.value != []
  }

  function KindOf(content: Json): string {
    if content.Object? && content.kind.Some? then content.kind.value else DEFAULT_KIND
  }

  predicate Names(entries: seq<Entry>, name: string) { exists e <- entries :: e.name == name }

  /** The container's own choice, or its first set when that choice is not among the sets. */
  function ActiveName(doc: Json): string
    requires IsContainer(doc)
  {
    if doc.active.Some? && Names(doc.profiles.value, doc.active.value) then doc.active.value else doc.profiles.value[0].name
  }

  function ContentOf(entries: seq<Entry>, name: string): Json
    requires Names(entries, name)
  {
    if entries[0].name == name then entries[0].content
    else assert Names(entries[1..], name) by { assert entries == [entries[0]] + entries[1..]; } ContentOf(entries[1..], name)
  }

  // ---- the constraints ----

  ghost predicate UniqueNames(profiles: map<int, Profile>) {
    forall i, j | i in profiles && j in profiles && i != j ::
      !(profiles[i].owner == profiles[j].owner && profiles[i].name == profiles[j].name)
  }

  /** A null `set_id` is equal to nothing, so rows without a set do not clash. */
  ghost predicate UniqueVersions(versions: map<int, Version>) {
    forall i, j | i in versions && j in versions && i != j ::
      !(versions[i].set_.Some? && versions[i].set_ == versions[j].set_ && versions[i].version == versions[j].version)
  }

  /** A version row with a set points to a profile row of its own operator. */
  ghost predicate PointsHome(db: DB) {
    forall k | k in db.versions && db.versions[k].set_.Some? ::
      db.versions[k].set_.value in db.profiles && db.profiles[db.versions[k].set_.value].owner == Some(db.versions[k].owner)
  }

  ghost predicate Consistent(db: DB) {
    UniqueNames(db.profiles) && UniqueVersions(db.versions) && PointsHome(db)
  }

  // ---- the statements ----

  function Marked(note: Option<string>): Option<string> {
    Some("迁移前整份历史;" + if note.Some? then note.value else "")
  }

  /** Gives the operator's rows without a set to `id`, and marks them as old history if asked to. */
  function Backfill(db: DB, id: int, operator: int, mark: bool): DB {
    DB(db.profiles,
       map k | k in db.versions ::
         var v := db.versions[k];
         if v.owner == operator && v.set_.None? then v.(set_ := Some(id), note := if mark then Marked(v.note) else v.note) else v)
  }

  function Rewrite(db: DB, id: int, row: Profile): DB {
    if id in db.profiles then DB(db.profiles[id := row.(owner := db.profiles[id].owner)], db.versions) else db
  }

  function InsertProfile(db: DB, row: Profile): DB {
    DB(db.profiles[Fresh(db.profiles.Keys) := row], db.versions)
  }

  function InsertVersion(db: DB, row: Version): DB {
    DB(db.profiles, db.versions[Fresh(db.versions.Keys) := row])
  }

  datatype Statement =
    | Move(id: int, operator: int, mark: bool)
    | Set(id: int, row: Profile)
    | PutProfile(row: Profile)
    | PutVersion(version: Version)

  function Apply(db: DB, st: Statement): DB {
    match st
    case Move(id, operator, mark) => Backfill(db, id, operator, mark)
    case Set(id, row) => Rewrite(db, id, row)
    case PutProfile(row) => InsertProfile(db, row)
    case PutVersion(version) => InsertVersion(db, version)
  }

  // ---- the migration of one fetched row ----

  function VersionNumbers(db: DB, owner: Option<int>): set<int> {
    set k | k in db.versions && Some(db.versions[k].owner) == owner :: db.versions[k].version
  }

  /** `(max or current) + 1`, where a maximum of zero counts as no maximum. */
  function NewCurrent(numbers: set<int>, owner: Option<int>, current: int): int {
    if owner.None? then 1
    else
      var maxv := if numbers == {} then current else Greatest(numbers);
      (if maxv != 0 then maxv else current) + 1
  }

  /** The name is used by another row of the owner. */
  predicate NameTaken(db: DB, owner: Option<int>, name: string, id: int) {
    exists k | k in db.profiles :: k != id && db.profiles[k].owner == owner && db.profiles[k].name == name
  }

  function SetRow(owner: Option<int>, e: Entry): Profile {
    Profile(owner, e.name, KindOf(e.content), false, 1, e.content)
  }

  function ActiveRow(owner: Option<int>, doc: Json, version: int): Profile
    requires IsContainer(doc)
  {
    ActiveIsNamed(doc);
    var name := ActiveName(doc);
    var content := ContentOf(doc.profiles.value, name);
    Profile(owner, name, KindOf(content), true, version, content)
  }

  lemma ActiveIsNamed(doc: Json)
    requires IsContainer(doc)
    ensures Names(doc.profiles.value, ActiveName(doc))
  {
    assert doc.profiles.value[0] in doc.profiles.value;
  }

  /** The two inserts for one set; the administrator's rows have no version history. */
  function AddSet(db: DB, owner: Option<int>, e: Entry): DB {
    var p, d := Fresh(db.profiles.Keys), InsertProfile(db, SetRow(owner, e));
    if owner.Some? then InsertVersion(d, Version(Some(p), owner.value, 1, e.content, Some("迁移拆分"))) else d
  }

  function SplitOne(db: DB, id: int, owner: Option<int>, active: string, e: Entry): DB {
    if e.name == active || NameTaken(db, owner, e.name, id) then db else AddSet(db, owner, e)
  }

  function SplitAll(db: DB, id: int, owner: Option<int>, active: string, entries: seq<Entry>): DB {
    if entries == [] then db
    else
      var last := |entries| - 1;
      SplitOne(SplitAll(db, id, owner, active, entries[..last]), id, owner, active, entries[last])
  }

  predicate HasVersion(db: DB, id: int, version: int) {
    exists k | k in db.versions :: db.versions[k].set_ == Some(id) && db.versions[k].version == version
  }

  function Snapshot(db: DB, id: int, operator: int, version: int, content: Json): DB {
    if HasVersion(db, id, version) then db
    else InsertVersion(db, Version(Some(id), operator, version, content, Some("迁移拆分后单套快照")))
  }

  function SplitRow(db: DB, id: int, row: Profile): DB
    requires IsContainer(row.content)
  {
    var current := NewCurrent(VersionNumbers(db, row.owner), row.owner, row.version);
    var carrier := ActiveRow(row.owner, row.content, current);
    var split := SplitAll(Rewrite(db, id, carrier), id, row.owner, carrier.name, row.content.profiles.value);
    if row.owner.None? then split
    else Snapshot(Backfill(split, id, row.owner.value, true), id, row.owner.value, current, carrier.content)
  }

  function MigrateRow(db: DB, id: int, row: Profile): DB {
    if IsContainer(row.content) then SplitRow(db, id, row)
    else if row.owner.Some? then Backfill(db, id, row.owner.value, false)
    else db
  }

  /** The rows are fetched once, before the loop. */
  function MigrateAll(db: DB, ids: seq<int>, rows: map<int, Profile>): DB
    requires forall id <- ids :: id in rows
  {
    if ids == [] then db
    else
      var last := |ids| - 1;
      MigrateRow(MigrateAll(db, ids[..last], rows), ids[last], rows[ids[last]])
  }

  function Ascending(s: set<int>): seq<int>
    decreases |s|
  {
    if s == {} then [] else [Least(s)] + Ascending(s - {Least(s)})
  }

  lemma {:induction false} AscendingMembers(s: set<int>)
    ensures Distinct(Ascending(s)) && forall x :: x in Ascending(s) <==> x in s
    decreases |s|
  {
    if s != {} { AscendingMembers(s - {Least(s)}); }
  }

  function Migrate(db: DB): DB {
    AscendingMembers(db.profiles.Keys);
    MigrateAll(db, Ascending(db.profiles.Keys), db.profiles)
  }
}
