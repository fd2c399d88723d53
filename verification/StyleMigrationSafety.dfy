/** The new constraints hold after every statement of the migration, and every history row finds its set. */
module StyleMigrationSafety {
  import opened Collections
  import opened StyleMigration

  // ---- what the old constraints leave behind ----

  /** One row per owner, still under the default name, and no version row belongs to a set yet. */
  ghost predicate FreshStart(db: DB) {
    && (forall i, j | i in db.profiles && j in db.profiles && i != j :: db.profiles[i].owner != db.profiles[j].owner)
    && (forall k | k in db.profiles ::
          db.profiles[k].name == DEFAULT_NAME && db.profiles[k].kind == DEFAULT_KIND && db.profiles[k].active && WellFormed(db.profiles[k].content))
    && (forall k | k in db.versions :: db.versions[k].set_.None?)
    && (forall i, j | i in db.versions && j in db.versions && i != j ::
          !(db.versions[i].owner == db.versions[j].owner && db.versions[i].version == db.versions[j].version))
  }

  /** The keys of an object are distinct. */
  ghost predicate WellFormed(doc: Json) {
    IsContainer(doc) ==> forall i, j | 0 <= i < j < |doc.profiles.value| :: doc.profiles.value[i].name != doc.profiles.value[j].name
  }

  /** The owner of row `id` still has only that row, and its history has no set. */
  ghost predicate Untouched(db: DB, id: int, row: Profile) {
    && id in db.profiles && db.profiles[id] == row && WellFormed(row.content)
    && (forall k | k in db.profiles :: db.profiles[k].owner == row.owner ==> k == id)
    && (forall k | k in db.versions :: Some(db.versions[k].owner) == row.owner ==> db.versions[k].set_.None?)
    && (forall i, j | i in db.versions && j in db.versions && i != j ::
          Some(db.versions[i].owner) == row.owner && db.versions[i].owner == db.versions[j].owner
          ==> db.versions[i].version != db.versions[j].version)
  }

  // ---- single statements ----

  lemma InsertProfileKeeps(db: DB, row: Profile)
    requires Consistent(db) && forall k | k in db.profiles :: !(db.profiles[k].owner == row.owner && db.profiles[k].name == row.name)
    ensures Consistent(InsertProfile(db, row))
  {
  }

  lemma InsertVersionKeeps(db: DB, row: Version)
    requires Consistent(db) && row.set_.Some? && !HasVersion(db, row.set_.value, row.version)
    requires row.set_.value in db.profiles && db.profiles[row.set_.value].owner == Some(row.owner)
    ensures Consistent(InsertVersion(db, row))
  {
  }

  lemma RewriteKeeps(db: DB, id: int, row: Profile)
    requires Consistent(db) && id in db.profiles
    requires forall k | k in db.profiles && k != id :: !(db.profiles[k].owner == db.profiles[id].owner && db.profiles[k].name == row.name)
    ensures Consistent(Rewrite(db, id, row))
  {
  }

  /** The rows that a backfill moves into set `id` carry distinct numbers, and no row is in that set already. */
  ghost predicate CanBackfill(db: DB, id: int, operator: int) {
    && id in db.profiles && db.profiles[id].owner == Some(operator)
    && (forall k | k in db.versions :: db.versions[k].set_ != Some(id))
    && (forall i, j | i in db.versions && j in db.versions && i != j ::
          db.versions[i].owner == operator && db.versions[j].owner == operator && db.versions[i].set_.None? && db.versions[j].set_.None?
          ==> db.versions[i].version != db.versions[j].version)
  }

  lemma BackfillKeeps(db: DB, id: int, operator: int, mark: bool)
    requires Consistent(db) && CanBackfill(db, id, operator)
    ensures Consistent(Backfill(db, id, operator, mark))
  {
    var d := Backfill(db, id, operator, mark);
    forall i, j | i in d.versions && j in d.versions && i != j && d.versions[i].set_.Some? && d.versions[i].set_ == d.versions[j].set_
      ensures d.versions[i].version != d.versions[j].version
    {
    }
  }

  // ---- splitting a container: `d` is `d1` plus what the entries `done` added ----

  predicate NewRow(d1: DB, d: DB, p: int) { p in d.profiles && p !in d1.profiles }
  predicate NewVersion(d1: DB, d: DB, k: int) { k in d.versions && k !in d1.versions }

  ghost predicate Extends(d1: DB, d: DB) {
    && (forall k | k in d1.profiles :: k in d.profiles && d.profiles[k] == d1.profiles[k])
    && (forall k | k in d1.versions :: k in d.versions && d.versions[k] == d1.versions[k])
  }

  /** The new row `p` is the set of an entry that is not the active one. */
  ghost predicate FromEntry(d: DB, p: int, owner: Option<int>, active: string, done: seq<Entry>)
    requires p in d.profiles
  {
    exists i | 0 <= i < |done| :: done[i].name != active && d.profiles[p] == SetRow(owner, done[i])
  }

  ghost predicate RowsAreEntries(d1: DB, d: DB, owner: Option<int>, active: string, done: seq<Entry>) {
    forall p | NewRow(d1, d, p) :: FromEntry(d, p, owner, active, done)
  }

  ghost predicate HasRow(d1: DB, d: DB, row: Profile) {
    exists p :: NewRow(d1, d, p) && d.profiles[p] == row
  }

  ghost predicate EntriesAreRows(d1: DB, d: DB, owner: Option<int>, active: string, done: seq<Entry>) {
    forall i | 0 <= i < |done| && done[i].name != active :: HasRow(d1, d, SetRow(owner, done[i]))
  }

  /** Version row `k` is the first snapshot of the new row `p`. */
  predicate SnapshotOf(d1: DB, d: DB, p: int, k: int) {
    && NewVersion(d1, d, k) && NewRow(d1, d, p) && d.profiles[p].owner == Some(d.versions[k].owner)
    && d.versions[k].set_ == Some(p) && d.versions[k].version == 1 && d.versions[k].content == d.profiles[p].content
    && d.versions[k].note == Some("迁移拆分")
  }

  ghost predicate VersionsAreSnapshots(d1: DB, d: DB) {
    forall k | NewVersion(d1, d, k) :: d.versions[k].set_.Some? && SnapshotOf(d1, d, d.versions[k].set_.value, k)
  }

  ghost predicate HasSnapshot(d1: DB, d: DB, p: int) {
    exists k :: SnapshotOf(d1, d, p, k)
  }

  ghost predicate RowsHaveSnapshots(d1: DB, d: DB) {
    forall p | NewRow(d1, d, p) :: HasSnapshot(d1, d, p)
  }

  /** The name of an entry that is still to come is not taken. */
  lemma NameIsFree(d1: DB, d: DB, id: int, owner: Option<int>, active: string, done: seq<Entry>, e: Entry)
    requires Extends(d1, d) && RowsAreEntries(d1, d, owner, active, done)
    requires forall k | k in d1.profiles :: d1.profiles[k].owner == owner ==> k == id
    requires forall i | 0 <= i < |done| :: done[i].name != e.name
    ensures !NameTaken(d, owner, e.name, id)
  {
    forall k | k in d.profiles && k != id && d.profiles[k].owner == owner ensures d.profiles[k].name != e.name {
      assert NewRow(d1, d, k);
    }
  }

  lemma AddSetRows(d1: DB, d: DB, owner: Option<int>, active: string, done: seq<Entry>, e: Entry)
    requires Extends(d1, d) && RowsAreEntries(d1, d, owner, active, done) && e.name != active
    ensures Extends(d1, AddSet(d, owner, e)) && RowsAreEntries(d1, AddSet(d, owner, e), owner, active, done + [e])
  {
    var r := AddSet(d, owner, e);
    forall p | NewRow(d1, r, p) ensures FromEntry(r, p, owner, active, done + [e]) {
      if p in d.profiles {
        assert NewRow(d1, d, p);
        var i :| 0 <= i < |done| && done[i].name != active && d.profiles[p] == SetRow(owner, done[i]);
        assert (done + [e])[i] == done[i];
      } else {
        assert (done + [e])[|done|] == e;
      }
    }
  }

  lemma AddSetEntries(d1: DB, d: DB, owner: Option<int>, active: string, done: seq<Entry>, e: Entry)
    requires Extends(d1, d) && EntriesAreRows(d1, d, owner, active, done)
    ensures EntriesAreRows(d1, AddSet(d, owner, e), owner, active, done + [e])
  {
    var r, all := AddSet(d, owner, e), done + [e];
    forall i | 0 <= i < |all| && all[i].name != active ensures HasRow(d1, r, SetRow(owner, all[i])) {
      var p;
      if i < |done| {
        p :| NewRow(d1, d, p) && d.profiles[p] == SetRow(owner, done[i]);
      } else {
        p := Fresh(d.profiles.Keys);
      }
      assert NewRow(d1, r, p) && r.profiles[p] == SetRow(owner, all[i]);
    }
  }

  lemma AddSetVersions(d1: DB, d: DB, owner: Option<int>, e: Entry)
    requires Extends(d1, d) && VersionsAreSnapshots(d1, d)
    ensures VersionsAreSnapshots(d1, AddSet(d, owner, e))
  {
    var r := AddSet(d, owner, e);
    forall k | NewVersion(d1, r, k) ensures r.versions[k].set_.Some? && SnapshotOf(d1, r, r.versions[k].set_.value, k) {
      if k in d.versions {
        assert NewVersion(d1, d, k) && SnapshotOf(d1, d, d.versions[k].set_.value, k);
      }
    }
  }

  lemma AddSetSnapshots(d1: DB, d: DB, owner: Option<int>, e: Entry)
    requires Extends(d1, d) && RowsHaveSnapshots(d1, d) && owner.Some?
    ensures RowsHaveSnapshots(d1, AddSet(d, owner, e))
  {
    var r := AddSet(d, owner, e);
    forall p | NewRow(d1, r, p) ensures HasSnapshot(d1, r, p) {
      if p in d.profiles {
        assert NewRow(d1, d, p);
        var k :| SnapshotOf(d1, d, p, k);
        assert SnapshotOf(d1, r, p, k);
      } else {
        assert SnapshotOf(d1, r, p, Fresh(d.versions.Keys));
      }
    }
  }

  /** Both inserts keep the constraints, and so does the state between them. */
  lemma AddSetKeeps(d: DB, id: int, owner: Option<int>, e: Entry)
    requires Consistent(d) && !NameTaken(d, owner, e.name, id) && id in d.profiles && d.profiles[id].name != e.name
    ensures Consistent(InsertProfile(d, SetRow(owner, e))) && Consistent(AddSet(d, owner, e))
  {
    var p, r := Fresh(d.profiles.Keys), InsertProfile(d, SetRow(owner, e));
    InsertProfileKeeps(d, SetRow(owner, e));
    if owner.Some? {
      InsertVersionKeeps(r, Version(Some(p), owner.value, 1, e.content, Some("迁移拆分")));
    }
  }

  /** Everything known after the first entries of the container have been split off. */
  ghost predicate Split(d1: DB, d: DB, owner: Option<int>, active: string, done: seq<Entry>) {
    && Consistent(d) && Extends(d1, d)
    && RowsAreEntries(d1, d, owner, active, done) && EntriesAreRows(d1, d, owner, active, done)
    && VersionsAreSnapshots(d1, d) && (owner.Some? ==> RowsHaveSnapshots(d1, d))
  }

  /** The carrier row holds the active name, and the owner has no other row. */
  ghost predicate Carries(d1: DB, id: int, owner: Option<int>, active: string) {
    && id in d1.profiles && d1.profiles[id].name == active
    && forall k | k in d1.profiles :: d1.profiles[k].owner == owner ==> k == id
  }

  /** Entry names never repeat, so `e` is new. */
  ghost predicate Unseen(done: seq<Entry>, e: Entry) {
    forall i | 0 <= i < |done| :: done[i].name != e.name
  }

  lemma SkippedEntry(d1: DB, d: DB, owner: Option<int>, active: string, done: seq<Entry>, e: Entry)
    requires RowsAreEntries(d1, d, owner, active, done) && EntriesAreRows(d1, d, owner, active, done) && e.name == active
    ensures RowsAreEntries(d1, d, owner, active, done + [e]) && EntriesAreRows(d1, d, owner, active, done + [e])
  {
    forall p | NewRow(d1, d, p) ensures FromEntry(d, p, owner, active, done + [e]) {
      var i :| 0 <= i < |done| && done[i].name != active && d.profiles[p] == SetRow(owner, done[i]);
      assert (done + [e])[i] == done[i];
    }
  }

  lemma SplitStep(d1: DB, d: DB, id: int, owner: Option<int>, active: string, done: seq<Entry>, e: Entry)
    requires Split(d1, d, owner, active, done) && Carries(d1, id, owner, active) && Unseen(done, e)
    ensures !NameTaken(d, owner, e.name, id)
    ensures Split(d1, SplitOne(d, id, owner, active, e), owner, active, done + [e])
    ensures e.name != active ==> Consistent(InsertProfile(d, SetRow(owner, e))) && SplitOne(d, id, owner, active, e) == AddSet(d, owner, e)
  {
    NameIsFree(d1, d, id, owner, active, done, e);
    if e.name == active {
      SkippedEntry(d1, d, owner, active, done, e);
    } else {
      AddSetKeeps(d, id, owner, e);
      AddSetRows(d1, d, owner, active, done, e);
      AddSetEntries(d1, d, owner, active, done, e);
      AddSetVersions(d1, d, owner, e);
      if owner.Some? { AddSetSnapshots(d1, d, owner, e); }
    }
  }

  predicate HasSet(d: DB, owner: Option<int>, name: string) {
    exists k | k in d.profiles :: d.profiles[k].owner == owner && d.profiles[k].name == name
  }

  /** Whatever other sets the owner already has: splitting off entries keeps the constraints and leaves a set of every name. */
  lemma {:induction false} SplitBesideOthers(d1: DB, id: int, owner: Option<int>, entries: seq<Entry>)
    requires Consistent(d1) && id in d1.profiles && d1.profiles[id].owner == owner
    ensures var d := SplitAll(d1, id, owner, d1.profiles[id].name, entries);
            && Consistent(d) && (forall k | k in d1.profiles :: k in d.profiles && d.profiles[k] == d1.profiles[k])
            && (forall i | 0 <= i < |entries| :: HasSet(d, owner, entries[i].name))
  {
    if entries != [] {
      var last := |entries| - 1;
      var d, e := SplitAll(d1, id, owner, d1.profiles[id].name, entries[..last]), entries[last];
      SplitBesideOthers(d1, id, owner, entries[..last]);
      assert forall i | 0 <= i < last :: entries[..last][i] == entries[i];
      if e.name != d1.profiles[id].name && !NameTaken(d, owner, e.name, id) {
        AddSetKeeps(d, id, owner, e);
        AddSetGrows(d, owner, e);
      }
    }
  }

  lemma AddSetGrows(d: DB, owner: Option<int>, e: Entry)
    ensures var r := AddSet(d, owner, e);
            && (forall k | k in d.profiles :: k in r.profiles && r.profiles[k] == d.profiles[k]) && HasSet(r, owner, e.name)
            && forall name :: HasSet(d, owner, name) ==> HasSet(r, owner, name)
  {
    var r, p := AddSet(d, owner, e), Fresh(d.profiles.Keys);
    assert r.profiles == d.profiles[p := SetRow(owner, e)];
    assert r.profiles[p].name == e.name;
    forall name | HasSet(d, owner, name) ensures HasSet(r, owner, name) {
      var k :| k in d.profiles && d.profiles[k].owner == owner && d.profiles[k].name == name;
      assert r.profiles[k] == d.profiles[k];
    }
  }

  lemma {:induction false} SplitHolds(d1: DB, id: int, owner: Option<int>, active: string, entries: seq<Entry>)
    requires Consistent(d1) && Carries(d1, id, owner, active)
    requires forall i, j | 0 <= i < j < |entries| :: entries[i].name != entries[j].name
    ensures Split(d1, SplitAll(d1, id, owner, active, entries), owner, active, entries)
  {
    if entries != [] {
      var done, e := entries[..|entries| - 1], entries[|entries| - 1];
      SplitHolds(d1, id, owner, active, done);
      SplitStep(d1, SplitAll(d1, id, owner, active, done), id, owner, active, done, e);
      assert entries == done + [e];
    }
  }

  // ---- one fetched row ----

  lemma RewriteCarries(db: DB, id: int, row: Profile, carrier: Profile)
    requires Consistent(db) && Untouched(db, id, row) && carrier.owner == row.owner
    ensures var d1 := Rewrite(db, id, carrier);
            && Consistent(d1) && Carries(d1, id, row.owner, carrier.name)
            && d1.profiles == db.profiles[id := carrier] && d1.versions == db.versions
  {
    RewriteKeeps(db, id, carrier);
  }

  /** No history row sits in the carrier's set yet, and those without a set have distinct numbers. */
  lemma HistoryCanMove(db: DB, d1: DB, d: DB, id: int, row: Profile)
    requires Consistent(db) && Untouched(db, id, row) && row.owner.Some?
    requires d1.versions == db.versions && id in d1.profiles && d1.profiles[id].owner == row.owner
    requires Extends(d1, d) && VersionsAreSnapshots(d1, d)
    ensures CanBackfill(d, id, row.owner.value)
  {
    forall k | k in d.versions ensures d.versions[k].set_ != Some(id) {
      if NewVersion(d1, d, k) {
        assert SnapshotOf(d1, d, d.versions[k].set_.value, k);
      }
    }
    forall k | k in d.versions && d.versions[k].set_.None? ensures k in db.versions && d.versions[k] == db.versions[k] {
      if NewVersion(d1, d, k) { assert false; }
    }
  }

  lemma SnapshotKeeps(d: DB, id: int, operator: int, version: int, content: Json)
    requires Consistent(d) && id in d.profiles && d.profiles[id].owner == Some(operator)
    ensures Consistent(Snapshot(d, id, operator, version, content))
  {
    if !HasVersion(d, id, version) {
      InsertVersionKeeps(d, Version(Some(id), operator, version, content, Some("迁移拆分后单套快照")));
    }
  }
}
