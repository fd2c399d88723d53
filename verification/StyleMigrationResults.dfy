/** The promises of the migration, as statements about the tables before and after. */
module StyleMigrationResults {
  import opened Collections
  import opened StyleMigration
  import opened StyleMigrationSafety
  import opened StyleMigrationMeaning

  lemma {:induction false} ContentOfEntry(entries: seq<Entry>, i: nat)
    requires i < |entries| && forall j, k | 0 <= j < k < |entries| :: entries[j].name != entries[k].name
    ensures Names(entries, entries[i].name) && ContentOf(entries, entries[i].name) == entries[i].content
  {
    if i > 0 {
      assert entries[1..][i - 1] == entries[i];
      ContentOfEntry(entries[1..], i - 1);
      assert entries[i] in entries;
    } else {
      assert entries[0] in entries;
    }
  }

  lemma {:induction false} ContentIsEntry(entries: seq<Entry>, name: string) returns (i: nat)
    requires Names(entries, name)
    ensures i < |entries| && entries[i].name == name && entries[i].content == ContentOf(entries, name)
  {
    if entries[0].name == name {
      i := 0;
    } else {
      assert entries == [entries[0]] + entries[1..];
      i := ContentIsEntry(entries[1..], name);
      i := i + 1;
    }
  }

  /** The sets that row `id` stands for: those of its container, or the row itself. */
  function SetsOf(row: Profile): seq<Entry> {
    if IsContainer(row.content) then row.content.profiles.value else [Entry(row.name, row.content)]
  }

  predicate RowOf(db: DB, p: int, owner: Option<int>, e: Entry) {
    p in db.profiles && db.profiles[p].owner == owner && db.profiles[p].name == e.name && db.profiles[p].content == e.content
  }

  /** No other row of the same owner has the same name. */
  ghost predicate OnlyRowNamed(db: DB, p: int)
    requires p in db.profiles
  {
    forall q | q in db.profiles && db.profiles[q].owner == db.profiles[p].owner && db.profiles[q].name == db.profiles[p].name :: q == p
  }

  lemma OwnerRows(start: DB, id: int, p: int)
    requires FreshStart(start) && id in start.profiles
    ensures p in Migrate(start).profiles && Migrate(start).profiles[p].owner == start.profiles[id].owner && p != id
            ==> NewRow(Slice(start, start.profiles[id].owner), Slice(Migrate(start), start.profiles[id].owner), p)
  {
  }

  /** Every set has a row with its name and content, and it has only one. */
  lemma EachSetHasOneRow(start: DB, id: int, i: nat)
    requires FreshStart(start) && id in start.profiles && i < |SetsOf(start.profiles[id])|
    ensures var row := start.profiles[id];
            exists p :: RowOf(Migrate(start), p, row.owner, SetsOf(row)[i]) && OnlyRowNamed(Migrate(start), p)
  {
    MigrationOutcome(start);
    var row, end := start.profiles[id], Migrate(start);
    var b, a := Slice(start, row.owner), Slice(end, row.owner);
    assert Finished(start, end, id);
    var e := SetsOf(row)[i];
    var p := id;
    if IsContainer(row.content) {
      ContentOfEntry(row.content.profiles.value, i);
      if e.name != CarrierOf(b, row).name {
        assert HasRow(b, a, SetRow(row.owner, e));
        p :| NewRow(b, a, p) && a.profiles[p] == SetRow(row.owner, e);
      }
    }
    assert p in a.profiles && RowOf(end, p, row.owner, e);
  }

  /** The row in place holds the active set of its container. */
  lemma CarrierIsASet(start: DB, id: int)
    requires FreshStart(start) && id in start.profiles
    ensures exists i :: 0 <= i < |SetsOf(start.profiles[id])| && RowOf(Migrate(start), id, start.profiles[id].owner, SetsOf(start.profiles[id])[i])
    ensures Migrate(start).profiles[id].active
  {
    MigrationOutcome(start);
    var row, end := start.profiles[id], Migrate(start);
    var b, a := Slice(start, row.owner), Slice(end, row.owner);
    assert Finished(start, end, id) && id in a.profiles && end.profiles[id] == a.profiles[id];
    var i: nat := 0;
    if IsContainer(row.content) {
      ActiveIsNamed(row.content);
      i := ContentIsEntry(row.content.profiles.value, ActiveName(row.content));
      assert a.profiles[id] == CarrierOf(b, row);
    }
    assert RowOf(end, id, row.owner, SetsOf(row)[i]);
  }

  lemma NewRowIsASet(b: DB, a: DB, id: int, row: Profile, p: int)
    requires Outcome(b, a, id, row) && NewRow(b, a, p)
    ensures IsContainer(row.content) && FromEntry(a, p, row.owner, ActiveName(row.content), row.content.profiles.value)
  {
    if !IsContainer(row.content) { assert false; }
  }

  lemma SetRowIsASet(end: DB, row: Profile, p: int)
    requires IsContainer(row.content) && p in end.profiles && FromEntry(end, p, row.owner, ActiveName(row.content), row.content.profiles.value)
    ensures exists i :: 0 <= i < |SetsOf(row)| && RowOf(end, p, row.owner, SetsOf(row)[i])
    ensures !end.profiles[p].active
  {
    var entries := row.content.profiles.value;
    var i :| 0 <= i < |entries| && entries[i].name != ActiveName(row.content) && end.profiles[p] == SetRow(row.owner, entries[i]);
    assert SetsOf(row) == entries;
    assert RowOf(end, p, row.owner, entries[i]);
  }

  lemma OtherRowIsASet(start: DB, id: int, p: int)
    requires FreshStart(start) && id in start.profiles && p != id
    requires p in Migrate(start).profiles && Migrate(start).profiles[p].owner == start.profiles[id].owner
    ensures exists i :: 0 <= i < |SetsOf(start.profiles[id])| && RowOf(Migrate(start), p, start.profiles[id].owner, SetsOf(start.profiles[id])[i])
    ensures !Migrate(start).profiles[p].active
  {
    MigrationOutcome(start);
    var row, end := start.profiles[id], Migrate(start);
    OwnerRows(start, id, p);
    NewRowIsASet(Slice(start, row.owner), Slice(end, row.owner), id, row, p);
    SetRowIsASet(end, row, p);
  }

  /** Every row of an owner is one of the owner's sets, and exactly the row in place is active. */
  lemma EachRowIsASet(start: DB, id: int, p: int)
    requires FreshStart(start) && id in start.profiles
    requires p in Migrate(start).profiles && Migrate(start).profiles[p].owner == start.profiles[id].owner
    ensures exists i :: 0 <= i < |SetsOf(start.profiles[id])| && RowOf(Migrate(start), p, start.profiles[id].owner, SetsOf(start.profiles[id])[i])
    ensures Migrate(start).profiles[p].active <==> p == id
  {
    if p == id { CarrierIsASet(start, id); } else { OtherRowIsASet(start, id, p); }
  }

  /** No history row is lost or renumbered; an owned one ends up in the set that took over its owner's row. */
  lemma HistoryIsKept(start: DB, k: int)
    requires FreshStart(start) && k in start.versions
    ensures var v, end := start.versions[k], Migrate(start);
            && k in end.versions && end.versions[k].owner == v.owner && end.versions[k].version == v.version && end.versions[k].content == v.content
            && forall id | id in start.profiles && start.profiles[id].owner == Some(v.owner) :: end.versions[k].set_ == Some(id)
  {
    MigrationOutcome(start);
    var v, end := start.versions[k], Migrate(start);
    if HasOwner(start, v.owner) {
      var id :| id in start.profiles && start.profiles[id].owner == Some(v.owner);
      HistoryOfOwner(start, id, k);
    } else {
      OrphanKept(start, k, v.owner);
    }
  }

  lemma HistoryOfOwner(start: DB, id: int, k: int)
    requires FreshStart(start) && k in start.versions && id in start.profiles && start.profiles[id].owner == Some(start.versions[k].owner)
    ensures k in Migrate(start).versions && Migrate(start).versions[k] == Moved(start.versions[k], id, IsContainer(start.profiles[id].content))
  {
    MigrationOutcome(start);
    var row := start.profiles[id];
    var b, a := Slice(start, row.owner), Slice(Migrate(start), row.owner);
    assert Finished(start, Migrate(start), id) && k in b.versions;
    assert k in a.versions;
  }

  // ---- what the row in place becomes, in terms of its document ----

  /** The set that the document chose becomes the active one; without a valid choice it is the first. */
  lemma ChosenSetIsActive(start: DB, id: int)
    requires FreshStart(start) && id in start.profiles
    requires var doc := start.profiles[id].content;
             doc.Object? && doc.schema == "profiles-v1" && doc.profiles.Sets? && doc.profiles.value != []
    ensures id in Migrate(start).profiles && Migrate(start).profiles[id].active
    ensures var doc, r := start.profiles[id].content, Migrate(start).profiles[id];
            var sets := doc.profiles.value;
            && (forall i | 0 <= i < |sets| && doc.active == Some(sets[i].name) :: r.name == sets[i].name && r.content == sets[i].content)
            && ((forall i | 0 <= i < |sets| :: doc.active != Some(sets[i].name)) ==> r.name == sets[0].name && r.content == sets[0].content)
  {
    MigrationOutcome(start);
    var row, end := start.profiles[id], Migrate(start);
    var b, a := Slice(start, row.owner), Slice(end, row.owner);
    assert Finished(start, end, id) && id in a.profiles && end.profiles[id] == a.profiles[id];
    var carrier := CarrierOf(b, row);
    assert a.profiles[id] == carrier;
    ActiveSetMeaning(row.content);
    var sets := row.content.profiles.value;
    forall i | 0 <= i < |sets| && carrier.name == sets[i].name ensures carrier.content == sets[i].content { ContentOfEntry(sets, i); }
  }

  lemma ActiveSetMeaning(doc: Json)
    requires IsContainer(doc)
    ensures var sets := doc.profiles.value;
            && (forall i | 0 <= i < |sets| && doc.active == Some(sets[i].name) :: ActiveName(doc) == sets[i].name)
            && ((forall i | 0 <= i < |sets| :: doc.active != Some(sets[i].name)) ==> ActiveName(doc) == sets[0].name)
  {
    var sets := doc.profiles.value;
    forall i | 0 <= i < |sets| && doc.active == Some(sets[i].name) ensures ActiveName(doc) == sets[i].name { assert sets[i] in sets; }
  }

  /** Any other document leaves its row as it was. */
  lemma PlainRowStays(start: DB, id: int)
    requires FreshStart(start) && id in start.profiles
    requires var doc := start.profiles[id].content;
             doc.Other? || doc.schema != "profiles-v1" || doc.profiles.NoSets? || doc.profiles.value == []
    ensures id in Migrate(start).profiles && Migrate(start).profiles[id] == start.profiles[id]
    ensures forall p | p in Migrate(start).profiles && Migrate(start).profiles[p].owner == start.profiles[id].owner :: p == id
  {
    MigrationOutcome(start);
    var row, end := start.profiles[id], Migrate(start);
    var b, a := Slice(start, row.owner), Slice(end, row.owner);
    assert Finished(start, end, id) && id in a.profiles;
    forall p | p in end.profiles && end.profiles[p].owner == row.owner ensures p == id {
      if p != id { OwnerRows(start, id, p); }
    }
  }

  /** A set's kind is the one it states itself, or else the default; a set that was split off starts at version 1. */
  lemma KindIsStated(start: DB, id: int, p: int)
    requires FreshStart(start) && id in start.profiles && IsContainer(start.profiles[id].content)
    requires p in Migrate(start).profiles && Migrate(start).profiles[p].owner == start.profiles[id].owner
    ensures var r := Migrate(start).profiles[p];
            && r.kind == (if r.content.Object? && r.content.kind.Some? then r.content.kind.value else "carousel")
            && (p != id ==> r.version == 1)
  {
    MigrationOutcome(start);
    var row, end := start.profiles[id], Migrate(start);
    var b, a := Slice(start, row.owner), Slice(end, row.owner);
    assert Finished(start, end, id) && p in a.profiles && end.profiles[p] == a.profiles[p];
    if p == id {
      assert a.profiles[id] == CarrierOf(b, row);
    } else {
      OwnerRows(start, id, p);
      NewRowIsASet(b, a, id, row, p);
    }
  }

  /** Old history says that it is old exactly if its owner's row was a container. */
  lemma HistoryIsMarked(start: DB, id: int, k: int)
    requires FreshStart(start) && k in start.versions && id in start.profiles && start.profiles[id].owner == Some(start.versions[k].owner)
    ensures k in Migrate(start).versions
    ensures var note := start.versions[k].note;
            Migrate(start).versions[k].note
            == if IsContainer(start.profiles[id].content) then Some("迁移前整份历史;" + if note.Some? then note.value else "") else note
  {
    HistoryOfOwner(start, id, k);
  }

  // ---- the version number of the carrier ----

  /** One more than the highest number of the history, or than the current number if that is zero or there is none. */
  lemma NewNumberMeaning(numbers: set<int>, operator: int, current: int, m: int)
    ensures numbers == {} ==> NewCurrent(numbers, Some(operator), current) == current + 1
    ensures m in numbers && (forall n | n in numbers :: n <= m) ==>
              NewCurrent(numbers, Some(operator), current) == (if m == 0 then current else m) + 1
    ensures NewCurrent(numbers, None, current) == 1
  {
    if m in numbers { assert Greatest(numbers) in numbers && m <= Greatest(numbers); }
  }

  ghost predicate AboveAll(x: int, numbers: set<int>) { forall n | n in numbers :: n < x }

  /** The new number exceeds the whole history exactly when the zero test does not fall back on a negative current number. */
  lemma NewNumberExceedsHistory(numbers: set<int>, operator: int, current: int)
    ensures AboveAll(NewCurrent(numbers, Some(operator), current), numbers)
            <==> numbers == {} || Greatest(numbers) != 0 || current >= 0
  {
    if numbers != {} {
      var m := Greatest(numbers);
      assert m in numbers;
    }
  }

  /** An operator's container gets a stored snapshot of its active set under the carrier's new number. */
  lemma CarrierIsSnapshotted(start: DB, id: int)
    requires FreshStart(start) && id in start.profiles && start.profiles[id].owner.Some? && IsContainer(start.profiles[id].content)
    ensures var row, end := start.profiles[id], Migrate(start);
            var numbers := VersionNumbers(start, row.owner);
            && id in end.profiles && end.profiles[id].version == NewCurrent(numbers, row.owner, row.version)
            && HasVersion(end, id, end.profiles[id].version)
            && (AboveAll(end.profiles[id].version, numbers) ==>
                  exists k :: k in end.versions && k !in start.versions && end.versions[k].set_ == Some(id)
                    && end.versions[k].version == end.profiles[id].version && end.versions[k].content == end.profiles[id].content)
  {
    MigrationOutcome(start);
    var row, end := start.profiles[id], Migrate(start);
    var b, a := Slice(start, row.owner), Slice(end, row.owner);
    assert Finished(start, end, id) && id in a.profiles;
    SlicedNumbers(start, row.owner);
    var carrier := CarrierOf(b, row);
    assert end.profiles[id] == carrier;
    var k :| k in a.versions && a.versions[k].set_ == Some(id) && a.versions[k].version == carrier.version;
    assert k in end.versions && HasVersion(end, id, carrier.version);
    if AboveAll(carrier.version, VersionNumbers(start, row.owner)) {
      assert CarrierHasSnapshot(b, a, id, carrier);
      var j :| IsCarrierSnapshot(b, a, id, carrier, j);
      if j in start.versions { HistoryIsKept(start, j); }
      assert j in a.versions && j !in start.versions;
    }
  }

  const ODD_SET := Object("", None, None, NoSets, "x")
  const ODD_ROW := Profile(Some(7), DEFAULT_NAME, DEFAULT_KIND, true, -1,
                           Object("profiles-v1", None, None, Sets([Entry("a", ODD_SET)]), ""))
  const ODD := DB(map[1 := ODD_ROW], map[5 := Version(None, 7, 0, Other("old"), None)])

  lemma SingleRow(db: DB, id: int)
    requires db.profiles.Keys == {id}
    ensures Migrate(db) == MigrateRow(db, id, db.profiles[id])
  {
    var keys := db.profiles.Keys;
    assert id in keys;
    assert Least(keys) == id;
    forall k: int ensures k !in keys - {Least(keys)} {}
    assert keys - {Least(keys)} == {};
    var ids := Ascending(keys);
    assert ids == [id] + Ascending({}) == [id];
    var none := ids[..|ids| - 1];
    assert none == [] && ids[|ids| - 1] == id;
    assert MigrateAll(db, none, db.profiles) == db;
    assert Migrate(db) == MigrateAll(db, ids, db.profiles);
  }

  /** With current number -1 and a history of only version 0, the new number is 0 again and no snapshot is stored. */
  lemma ZeroHistoryLosesTheSnapshot()
    ensures FreshStart(ODD) && 1 in Migrate(ODD).profiles && Migrate(ODD).profiles[1].version == 0
    ensures Migrate(ODD).profiles[1].content == ODD_SET
    ensures Migrate(ODD).versions.Keys == {5} && Migrate(ODD).versions[5].content == Other("old")
  {
    var entry := Entry("a", ODD_SET);
    SingleRow(ODD, 1);
    assert 5 in ODD.versions && ODD.versions[5].version == 0;
    forall x: int ensures x in VersionNumbers(ODD, Some(7)) <==> x in {0} {}
    assert VersionNumbers(ODD, Some(7)) == {0};
    assert NewCurrent({0}, Some(7), -1) == 0;
    var carrier := ActiveRow(Some(7), ODD_ROW.content, 0);
    assert carrier == Profile(Some(7), "a", DEFAULT_KIND, true, 0, ODD_SET);
    var d1 := Rewrite(ODD, 1, carrier);
    assert [entry][..0] == [];
    assert SplitAll(d1, 1, Some(7), "a", [entry]) == d1;
    var d3 := Backfill(d1, 1, 7, true);
    assert 5 in d3.versions && HasVersion(d3, 1, 0);
  }

  // ---- running it again ----

  ghost predicate NoContainers(db: DB) {
    forall p | p in db.profiles :: !IsContainer(db.profiles[p].content)
  }

  /** No set of a container is itself a container. */
  ghost predicate NoNesting(start: DB) {
    forall id, i | id in start.profiles && 0 <= i < |SetsOf(start.profiles[id])| && IsContainer(start.profiles[id].content) ::
      !IsContainer(SetsOf(start.profiles[id])[i].content)
  }

  /** No operator with a profile row has a history row without a set. */
  ghost predicate NothingToBackfill(db: DB) {
    forall k | k in db.versions && HasOwner(db, db.versions[k].owner) :: db.versions[k].set_.Some?
  }

  lemma SettledRow(db: DB, id: int)
    requires NoContainers(db) && NothingToBackfill(db) && id in db.profiles
    ensures MigrateRow(db, id, db.profiles[id]) == db
  {
    var row := db.profiles[id];
    if row.owner.Some? {
      var a := Backfill(db, id, row.owner.value, false);
      forall k | k in db.versions ensures a.versions[k] == db.versions[k] {
        if db.versions[k].owner == row.owner.value { assert HasOwner(db, db.versions[k].owner); }
      }
      SameMap(a.versions, db.versions);
    }
  }

  lemma {:induction false} SettledTables(db: DB, ids: seq<int>)
    requires NoContainers(db) && NothingToBackfill(db) && forall id <- ids :: id in db.profiles
    ensures MigrateAll(db, ids, db.profiles) == db
  {
    if ids != [] {
      assert ids[|ids| - 1] in ids;
      SettledTables(db, ids[..|ids| - 1]);
      SettledRow(db, ids[|ids| - 1]);
    }
  }

  /** Every operator with rows after the migration had one before. */
  lemma OwnersStay(start: DB, p: int) returns (id: int)
    requires FreshStart(start) && p in Migrate(start).profiles
    ensures id in start.profiles && start.profiles[id].owner == Migrate(start).profiles[p].owner
  {
    MigrationOutcome(start);
    var o := Migrate(start).profiles[p].owner;
    if forall i | i in start.profiles :: start.profiles[i].owner != o {
      assert p in Slice(Migrate(start), o).profiles;
      assert p in Slice(start, o).profiles;
      id := p;
    } else {
      id :| id in start.profiles && start.profiles[id].owner == o;
    }
  }

  lemma NothingLeftToBackfill(start: DB)
    requires FreshStart(start)
    ensures NothingToBackfill(Migrate(start))
  {
    var end := Migrate(start);
    forall k | k in end.versions && HasOwner(end, end.versions[k].owner) ensures end.versions[k].set_.Some? {
      var p :| p in end.profiles && end.profiles[p].owner == Some(end.versions[k].owner);
      var id := OwnersStay(start, p);
      OwnedHistoryHasSet(start, id, k);
    }
  }

  lemma NoContainersLeft(start: DB)
    requires FreshStart(start) && NoNesting(start)
    ensures NoContainers(Migrate(start))
  {
    var end := Migrate(start);
    forall p | p in end.profiles ensures !IsContainer(end.profiles[p].content) {
      var id := OwnersStay(start, p);
      EachRowIsASet(start, id, p);
      var i :| 0 <= i < |SetsOf(start.profiles[id])| && RowOf(end, p, start.profiles[id].owner, SetsOf(start.profiles[id])[i]);
    }
  }

  // A row that still holds a container is rewritten by the next run.

  lemma {:induction false} InsertsKeepRows(d: DB, id: int, owner: Option<int>, active: string, entries: seq<Entry>, p: int)
    requires p in d.profiles
    ensures var a := SplitAll(d, id, owner, active, entries); p in a.profiles && a.profiles[p] == d.profiles[p]
  {
    if entries != [] { InsertsKeepRows(d, id, owner, active, entries[..|entries| - 1], p); }
  }

  lemma OtherRowsAreNotRewritten(d: DB, id: int, row: Profile, p: int)
    requires p in d.profiles && p != id
    ensures var a := MigrateRow(d, id, row); p in a.profiles && a.profiles[p] == d.profiles[p]
  {
    if IsContainer(row.content) {
      var d1, d2, d3 := StagesOf(d, id, row);
      InsertsKeepRows(d1, id, row.owner, CarrierOf(d, row).name, row.content.profiles.value, p);
    }
  }

  lemma OwnRowIsRewritten(d: DB, id: int, row: Profile)
    requires id in d.profiles && IsContainer(row.content)
    ensures var a := MigrateRow(d, id, row); id in a.profiles && a.profiles[id].content == CarrierOf(d, row).content
  {
    var d1, d2, d3 := StagesOf(d, id, row);
    InsertsKeepRows(d1, id, row.owner, CarrierOf(d, row).name, row.content.profiles.value, id);
  }

  lemma {:induction false} RunRewrites(db: DB, ids: seq<int>, p: int)
    requires Distinct(ids) && p in db.profiles && IsContainer(db.profiles[p].content) && forall id <- ids :: id in db.profiles
    ensures var a := MigrateAll(db, ids, db.profiles);
            p in a.profiles && if p in ids then a.profiles[p].content != db.profiles[p].content else a.profiles[p] == db.profiles[p]
  {
    if ids != [] {
      var done, id := ids[..|ids| - 1], ids[|ids| - 1];
      RunRewrites(db, done, p);
      assert id in ids && ids == done + [id] && id !in done;
      var d, row := MigrateAll(db, done, db.profiles), db.profiles[id];
      if id == p {
        OwnRowIsRewritten(d, id, row);
        ActiveIsNamed(row.content);
        var i := ContentIsEntry(row.content.profiles.value, ActiveName(row.content));
        PartFits(row.content.profiles.value, i);
      } else {
        OtherRowsAreNotRewritten(d, id, row, p);
      }
    }
  }

  function Size(doc: Json): nat {
    1 + if doc.Object? && doc.profiles.Sets? then TotalSize(doc.profiles.value) else 0
  }

  function TotalSize(entries: seq<Entry>): nat {
    if entries == [] then 0 else Size(entries[0].content) + TotalSize(entries[1..])
  }

  lemma {:induction false} PartFits(entries: seq<Entry>, i: nat)
    requires i < |entries|
    ensures Size(entries[i].content) <= TotalSize(entries)
  {
    if i > 0 { PartFits(entries[1..], i - 1); }
  }

  /** A second run changes nothing exactly when no set of a container is itself a container. */
  lemma SecondRunChangesNothing(start: DB)
    requires FreshStart(start)
    ensures Migrate(Migrate(start)) == Migrate(start) <==> NoNesting(start)
  {
    var end := Migrate(start);
    var ids := Ascending(end.profiles.Keys);
    AscendingMembers(end.profiles.Keys);
    if NoNesting(start) {
      NothingLeftToBackfill(start);
      NoContainersLeft(start);
      SettledTables(end, ids);
    } else {
      var id, i :| id in start.profiles && 0 <= i < |SetsOf(start.profiles[id])| && IsContainer(start.profiles[id].content)
                   && IsContainer(SetsOf(start.profiles[id])[i].content);
      EachSetHasOneRow(start, id, i);
      var p :| RowOf(end, p, start.profiles[id].owner, SetsOf(start.profiles[id])[i]);
      assert p in ids;
      RunRewrites(end, ids, p);
    }
  }
}
