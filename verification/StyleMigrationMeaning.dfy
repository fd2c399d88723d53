/** What the migration makes of each owner's row and history, and that a second run changes nothing. */
module StyleMigrationMeaning {
  import opened Collections
  import opened StyleMigration
  import opened StyleMigrationSafety

  /** The rows of one owner. */
  function Slice(db: DB, owner: Option<int>): DB {
    DB(map k | k in db.profiles && db.profiles[k].owner == owner :: db.profiles[k],
       map k | k in db.versions && Some(db.versions[k].owner) == owner :: db.versions[k])
  }

  function Moved(v: Version, id: int, mark: bool): Version {
    v.(set_ := Some(id), note := if mark then Marked(v.note) else v.note)
  }

  /** Every history row keeps its number and content and now belongs to set `id`. */
  ghost predicate HistoryMoved(b: DB, a: DB, owner: Option<int>, id: int, mark: bool) {
    forall k | k in b.versions ::
      k in a.versions
      && a.versions[k] == if Some(b.versions[k].owner) == owner then Moved(b.versions[k], id, mark) else b.versions[k]
  }

  predicate IsCarrierSnapshot(b: DB, a: DB, id: int, carrier: Profile, k: int) {
    && NewVersion(b, a, k) && a.versions[k].set_ == Some(id) && Some(a.versions[k].owner) == carrier.owner
    && a.versions[k].version == carrier.version && a.versions[k].content == carrier.content
    && a.versions[k].note == Some("迁移拆分后单套快照")
  }

  ghost predicate NewVersionsExplained(b: DB, a: DB, id: int, carrier: Profile) {
    forall k | NewVersion(b, a, k) :: a.versions[k].set_.Some?
      && (SnapshotOf(b, a, a.versions[k].set_.value, k) || IsCarrierSnapshot(b, a, id, carrier, k))
  }

  ghost predicate CarrierHasSnapshot(b: DB, a: DB, id: int, carrier: Profile) {
    exists k :: IsCarrierSnapshot(b, a, id, carrier, k)
  }

  function CurrentOf(b: DB, row: Profile): int { NewCurrent(VersionNumbers(b, row.owner), row.owner, row.version) }

  function CarrierOf(b: DB, row: Profile): Profile
    requires IsContainer(row.content)
  {
    ActiveRow(row.owner, row.content, CurrentOf(b, row))
  }

  /** A container became one row per set, the active one in place; the history hangs on the active one. */
  ghost predicate SplitOutcome(b: DB, a: DB, id: int, row: Profile)
    requires IsContainer(row.content)
  {
    var carrier, entries := CarrierOf(b, row), row.content.profiles.value;
    && id in a.profiles && a.profiles[id] == carrier
    && RowsAreEntries(b, a, row.owner, carrier.name, entries) && EntriesAreRows(b, a, row.owner, carrier.name, entries)
    && HistoryMoved(b, a, row.owner, id, true) && NewVersionsExplained(b, a, id, carrier)
    && (row.owner.Some? ==>
          && RowsHaveSnapshots(b, a) && HasVersion(a, id, carrier.version)
          && (carrier.version !in VersionNumbers(b, row.owner) ==> CarrierHasSnapshot(b, a, id, carrier)))
  }

  /** A plain row stays as it is and takes over its owner's history. */
  ghost predicate FlatOutcome(b: DB, a: DB, id: int, row: Profile) {
    && id in a.profiles && a.profiles[id] == row
    && (forall p :: !NewRow(b, a, p)) && (forall k :: !NewVersion(b, a, k))
    && HistoryMoved(b, a, row.owner, id, false)
  }

  ghost predicate Outcome(b: DB, a: DB, id: int, row: Profile) {
    if IsContainer(row.content) then SplitOutcome(b, a, id, row) else FlatOutcome(b, a, id, row)
  }

  /** Only rows of `owner` change. */
  ghost predicate OthersKept(b: DB, a: DB, owner: Option<int>) { OtherProfilesKept(b, a, owner) && OtherVersionsKept(b, a, owner) }

  ghost predicate OtherProfilesKept(b: DB, a: DB, owner: Option<int>) {
    && (forall k | k in b.profiles && b.profiles[k].owner != owner :: k in a.profiles && a.profiles[k] == b.profiles[k])
    && (forall k | k in a.profiles && a.profiles[k].owner != owner :: k in b.profiles)
    && (forall k | k in b.profiles && b.profiles[k].owner == owner :: k in a.profiles && a.profiles[k].owner == owner)
  }

  ghost predicate OtherVersionsKept(b: DB, a: DB, owner: Option<int>) {
    && (forall k | k in b.versions && Some(b.versions[k].owner) != owner :: k in a.versions && a.versions[k] == b.versions[k])
    && (forall k | k in a.versions && Some(a.versions[k].owner) != owner :: k in b.versions)
    && (forall k | k in b.versions && Some(b.versions[k].owner) == owner :: k in a.versions && Some(a.versions[k].owner) == owner)
  }

  // ---- one row ----

  lemma FlatRow(db: DB, id: int, row: Profile)
    requires Consistent(db) && Untouched(db, id, row) && !IsContainer(row.content)
    ensures var a := MigrateRow(db, id, row); Consistent(a) && FlatOutcome(db, a, id, row) && OthersKept(db, a, row.owner)
  {
    if row.owner.Some? {
      HistoryCanMove(db, db, db, id, row);
      BackfillKeeps(db, id, row.owner.value, false);
    }
  }

  /** The three states of a container row: rewritten, split, and finished. */
  ghost predicate Stages(db: DB, id: int, row: Profile, d1: DB, d2: DB, d3: DB, a: DB) {
    IsContainer(row.content)
    && var carrier := CarrierOf(db, row);
    && d1 == Rewrite(db, id, carrier)
    && d2 == SplitAll(d1, id, row.owner, carrier.name, row.content.profiles.value)
    && d3 == (if row.owner.Some? then Backfill(d2, id, row.owner.value, true) else d2)
    && a == (if row.owner.Some? then Snapshot(d3, id, row.owner.value, carrier.version, carrier.content) else d3)
  }

  lemma StagesOf(db: DB, id: int, row: Profile) returns (d1: DB, d2: DB, d3: DB)
    requires IsContainer(row.content)
    ensures Stages(db, id, row, d1, d2, d3, MigrateRow(db, id, row))
  {
    var carrier := CarrierOf(db, row);
    d1 := Rewrite(db, id, carrier);
    d2 := SplitAll(d1, id, row.owner, carrier.name, row.content.profiles.value);
    d3 := if row.owner.Some? then Backfill(d2, id, row.owner.value, true) else d2;
  }

  lemma StagesAreConsistent(db: DB, id: int, row: Profile, d1: DB, d2: DB, d3: DB, a: DB)
    requires Consistent(db) && Untouched(db, id, row) && Stages(db, id, row, d1, d2, d3, a)
    ensures d1.profiles == db.profiles[id := CarrierOf(db, row)] && d1.versions == db.versions
    ensures Split(d1, d2, row.owner, CarrierOf(db, row).name, row.content.profiles.value)
    ensures Consistent(d1) && Consistent(d2) && Consistent(d3) && Consistent(a)
  {
    var carrier := CarrierOf(db, row);
    RewriteCarries(db, id, row, carrier);
    SplitHolds(d1, id, row.owner, carrier.name, row.content.profiles.value);
    if row.owner.Some? {
      HistoryCanMove(db, d1, d2, id, row);
      BackfillKeeps(d2, id, row.owner.value, true);
      SnapshotKeeps(d3, id, row.owner.value, carrier.version, carrier.content);
    }
  }

  lemma SplitProfiles(db: DB, id: int, row: Profile, d1: DB, d2: DB, d3: DB, a: DB)
    requires Consistent(db) && Untouched(db, id, row) && Stages(db, id, row, d1, d2, d3, a)
    ensures var carrier, entries := CarrierOf(db, row), row.content.profiles.value;
            && id in a.profiles && a.profiles[id] == carrier
            && RowsAreEntries(db, a, row.owner, carrier.name, entries) && EntriesAreRows(db, a, row.owner, carrier.name, entries)
  {
    StagesAreConsistent(db, id, row, d1, d2, d3, a);
    var carrier, entries := CarrierOf(db, row), row.content.profiles.value;
    assert a.profiles == d2.profiles && d1.profiles.Keys == db.profiles.Keys;
    forall p | NewRow(db, a, p) ensures FromEntry(a, p, row.owner, carrier.name, entries) {
      assert NewRow(d1, d2, p);
    }
    forall i | 0 <= i < |entries| && entries[i].name != carrier.name ensures HasRow(db, a, SetRow(row.owner, entries[i])) {
      assert HasRow(d1, d2, SetRow(row.owner, entries[i]));
      var p :| NewRow(d1, d2, p) && d2.profiles[p] == SetRow(row.owner, entries[i]);
      assert NewRow(db, a, p);
    }
  }

  lemma SplitHistory(db: DB, id: int, row: Profile, d1: DB, d2: DB, d3: DB, a: DB)
    requires Consistent(db) && Untouched(db, id, row) && Stages(db, id, row, d1, d2, d3, a)
    ensures HistoryMoved(db, a, row.owner, id, true)
    ensures NewVersionsExplained(db, a, id, CarrierOf(db, row))
  {
    StagesAreConsistent(db, id, row, d1, d2, d3, a);
    var carrier := CarrierOf(db, row);
    forall k | NewVersion(db, a, k)
      ensures a.versions[k].set_.Some?
              && (SnapshotOf(db, a, a.versions[k].set_.value, k) || IsCarrierSnapshot(db, a, id, carrier, k))
    {
      if NewVersion(d1, d2, k) {
        assert SnapshotOf(d1, d2, d2.versions[k].set_.value, k);
        SnapshotStays(db, d1, d2, a, k);
      }
    }
  }

  /** The first version of a split-off set is not touched by what comes after it. */
  lemma SnapshotStays(db: DB, d1: DB, d2: DB, a: DB, k: int)
    requires d1.versions == db.versions && d1.profiles.Keys == db.profiles.Keys && a.profiles == d2.profiles
    requires NewVersion(d1, d2, k) && d2.versions[k].set_.Some? && SnapshotOf(d1, d2, d2.versions[k].set_.value, k)
    requires k in a.versions && a.versions[k] == d2.versions[k]
    ensures a.versions[k].set_.Some? && SnapshotOf(db, a, a.versions[k].set_.value, k)
  {
  }

  lemma SplitSnapshots(db: DB, id: int, row: Profile, d1: DB, d2: DB, d3: DB, a: DB)
    requires Consistent(db) && Untouched(db, id, row) && Stages(db, id, row, d1, d2, d3, a) && row.owner.Some?
    ensures RowsHaveSnapshots(db, a)
  {
    StagesAreConsistent(db, id, row, d1, d2, d3, a);
    forall p | NewRow(db, a, p) ensures HasSnapshot(db, a, p) {
      assert NewRow(d1, d2, p) && HasSnapshot(d1, d2, p);
      var k :| SnapshotOf(d1, d2, p, k);
      assert a.versions[k] == d2.versions[k];
      assert SnapshotOf(db, a, p, k);
    }
  }

  lemma CarrierSnapshot(db: DB, id: int, row: Profile, d1: DB, d2: DB, d3: DB, a: DB)
    requires Consistent(db) && Untouched(db, id, row) && Stages(db, id, row, d1, d2, d3, a) && row.owner.Some?
    ensures HasVersion(a, id, CarrierOf(db, row).version)
    ensures CarrierOf(db, row).version !in VersionNumbers(db, row.owner) ==> CarrierHasSnapshot(db, a, id, CarrierOf(db, row))
  {
    StagesAreConsistent(db, id, row, d1, d2, d3, a);
    var carrier := CarrierOf(db, row);
    if HasVersion(d3, id, carrier.version) {
      var k :| k in d3.versions && d3.versions[k].set_ == Some(id) && d3.versions[k].version == carrier.version;
      HistoryCanMove(db, d1, d2, id, row);
      assert k in d2.versions && d2.versions[k].set_.None? && !NewVersion(d1, d2, k);
      assert db.versions[k].version == carrier.version && Some(db.versions[k].owner) == row.owner;
    } else {
      var k := Fresh(d3.versions.Keys);
      assert a.versions[k].set_ == Some(id);
      assert IsCarrierSnapshot(db, a, id, carrier, k);
    }
  }

  lemma SplitKeepsOtherProfiles(db: DB, id: int, row: Profile, d1: DB, d2: DB, d3: DB, a: DB)
    requires Consistent(db) && Untouched(db, id, row) && Stages(db, id, row, d1, d2, d3, a)
    ensures OtherProfilesKept(db, a, row.owner)
  {
    StagesAreConsistent(db, id, row, d1, d2, d3, a);
    SplitProfiles(db, id, row, d1, d2, d3, a);
    assert a.profiles == d2.profiles;
    forall k | k in a.profiles && k !in db.profiles ensures a.profiles[k].owner == row.owner {
      assert NewRow(db, a, k);
    }
    assert forall k | k in db.profiles && k != id :: k in d2.profiles && d2.profiles[k] == d1.profiles[k];
  }

  lemma SplitKeepsOtherVersions(db: DB, id: int, row: Profile, d1: DB, d2: DB, d3: DB, a: DB)
    requires Consistent(db) && Untouched(db, id, row) && Stages(db, id, row, d1, d2, d3, a)
    ensures OtherVersionsKept(db, a, row.owner)
  {
    StagesAreConsistent(db, id, row, d1, d2, d3, a);
    SplitProfiles(db, id, row, d1, d2, d3, a);
    SplitHistory(db, id, row, d1, d2, d3, a);
    forall k | k in a.versions && k !in db.versions ensures Some(a.versions[k].owner) == row.owner {
      assert NewVersion(db, a, k);
      NewVersionIsOwned(db, a, id, row, k);
    }
  }

  /** A new version row belongs to a row of the split, and so to its owner. */
  lemma NewVersionIsOwned(db: DB, a: DB, id: int, row: Profile, k: int)
    requires IsContainer(row.content) && Consistent(a) && NewVersion(db, a, k) && NewVersionsExplained(db, a, id, CarrierOf(db, row))
    requires id in a.profiles && a.profiles[id].owner == row.owner
    requires RowsAreEntries(db, a, row.owner, CarrierOf(db, row).name, row.content.profiles.value)
    ensures Some(a.versions[k].owner) == row.owner
  {
    var p := a.versions[k].set_.value;
    assert a.profiles[p].owner == Some(a.versions[k].owner);
  }

  lemma SplitKeepsOthers(db: DB, id: int, row: Profile, d1: DB, d2: DB, d3: DB, a: DB)
    requires Consistent(db) && Untouched(db, id, row) && Stages(db, id, row, d1, d2, d3, a)
    ensures OthersKept(db, a, row.owner)
  {
    SplitKeepsOtherProfiles(db, id, row, d1, d2, d3, a);
    SplitKeepsOtherVersions(db, id, row, d1, d2, d3, a);
  }

  lemma ContainerRow(db: DB, id: int, row: Profile)
    requires Consistent(db) && Untouched(db, id, row) && IsContainer(row.content)
    ensures var a := MigrateRow(db, id, row); Consistent(a) && SplitOutcome(db, a, id, row) && OthersKept(db, a, row.owner)
  {
    var a := MigrateRow(db, id, row);
    var d1, d2, d3 := StagesOf(db, id, row);
    StagesAreConsistent(db, id, row, d1, d2, d3, a);
    SplitProfiles(db, id, row, d1, d2, d3, a);
    SplitHistory(db, id, row, d1, d2, d3, a);
    SplitKeepsOthers(db, id, row, d1, d2, d3, a);
    if row.owner.Some? {
      SplitSnapshots(db, id, row, d1, d2, d3, a);
      CarrierSnapshot(db, id, row, d1, d2, d3, a);
    }
  }

  lemma RowOutcome(db: DB, id: int, row: Profile)
    requires Consistent(db) && Untouched(db, id, row)
    ensures var a := MigrateRow(db, id, row); Consistent(a) && Outcome(db, a, id, row) && OthersKept(db, a, row.owner)
  {
    if IsContainer(row.content) { ContainerRow(db, id, row); } else { FlatRow(db, id, row); }
  }

  // ---- from the whole table to one owner's rows ----

  lemma OthersSlices(b: DB, a: DB, owner: Option<int>, other: Option<int>)
    requires OthersKept(b, a, owner) && other != owner
    ensures Slice(a, other) == Slice(b, other)
  {
    var x, y := Slice(a, other), Slice(b, other);
    forall k: int ensures k in x.profiles <==> k in y.profiles ensures k in x.profiles ==> x.profiles[k] == y.profiles[k] {}
    forall k: int ensures k in x.versions <==> k in y.versions ensures k in x.versions ==> x.versions[k] == y.versions[k] {}
    SameMap(x.profiles, y.profiles);
    SameMap(x.versions, y.versions);
  }

  lemma SameMap<K, V>(x: map<K, V>, y: map<K, V>)
    requires forall k :: k in x <==> k in y
    requires forall k | k in x :: x[k] == y[k]
    ensures x == y
  {
    assert x.Keys == y.Keys;
  }

  lemma SlicedRow(b: DB, a: DB, owner: Option<int>, p: int)
    requires OthersKept(b, a, owner)
    ensures NewRow(Slice(b, owner), Slice(a, owner), p) <==> NewRow(b, a, p)
  {
  }

  lemma SlicedVersion(b: DB, a: DB, owner: Option<int>, k: int)
    requires OthersKept(b, a, owner)
    ensures NewVersion(Slice(b, owner), Slice(a, owner), k) <==> NewVersion(b, a, k)
  {
  }

  lemma SlicedNumbers(b: DB, owner: Option<int>)
    ensures VersionNumbers(Slice(b, owner), owner) == VersionNumbers(b, owner)
  {
    var s := Slice(b, owner);
    forall k: int ensures k in s.versions <==> k in b.versions && Some(b.versions[k].owner) == owner {}
    forall x: int ensures x in VersionNumbers(s, owner) <==> x in VersionNumbers(b, owner) {}
  }

  lemma SlicedProfiles(b: DB, a: DB, owner: Option<int>, active: string, entries: seq<Entry>)
    requires OthersKept(b, a, owner) && RowsAreEntries(b, a, owner, active, entries) && EntriesAreRows(b, a, owner, active, entries)
    ensures RowsAreEntries(Slice(b, owner), Slice(a, owner), owner, active, entries)
    ensures EntriesAreRows(Slice(b, owner), Slice(a, owner), owner, active, entries)
  {
    var sb, sa := Slice(b, owner), Slice(a, owner);
    forall p | NewRow(sb, sa, p) ensures FromEntry(sa, p, owner, active, entries) {
      SlicedRow(b, a, owner, p);
      assert FromEntry(a, p, owner, active, entries);
    }
    forall i | 0 <= i < |entries| && entries[i].name != active ensures HasRow(sb, sa, SetRow(owner, entries[i])) {
      assert HasRow(b, a, SetRow(owner, entries[i]));
      var p :| NewRow(b, a, p) && a.profiles[p] == SetRow(owner, entries[i]);
      SlicedRow(b, a, owner, p);
    }
  }

  lemma SlicedSnapshot(b: DB, a: DB, owner: Option<int>, p: int, k: int)
    requires OthersKept(b, a, owner) && SnapshotOf(b, a, p, k)
    ensures SnapshotOf(Slice(b, owner), Slice(a, owner), p, k)
  {
    SlicedRow(b, a, owner, p);
    SlicedVersion(b, a, owner, k);
  }

  lemma SlicedVersions(b: DB, a: DB, id: int, carrier: Profile)
    requires OthersKept(b, a, carrier.owner) && NewVersionsExplained(b, a, id, carrier)
    ensures NewVersionsExplained(Slice(b, carrier.owner), Slice(a, carrier.owner), id, carrier)
  {
    var sb, sa := Slice(b, carrier.owner), Slice(a, carrier.owner);
    forall k | NewVersion(sb, sa, k)
      ensures sa.versions[k].set_.Some?
              && (SnapshotOf(sb, sa, sa.versions[k].set_.value, k) || IsCarrierSnapshot(sb, sa, id, carrier, k))
    {
      SlicedVersion(b, a, carrier.owner, k);
      if SnapshotOf(b, a, a.versions[k].set_.value, k) { SlicedSnapshot(b, a, carrier.owner, a.versions[k].set_.value, k); }
    }
  }

  lemma SlicedSnapshots(b: DB, a: DB, id: int, carrier: Profile)
    requires OthersKept(b, a, carrier.owner) && RowsHaveSnapshots(b, a) && HasVersion(a, id, carrier.version)
    requires PointsHome(a) && id in a.profiles && a.profiles[id].owner == carrier.owner
    ensures var sb, sa := Slice(b, carrier.owner), Slice(a, carrier.owner);
            && RowsHaveSnapshots(sb, sa) && HasVersion(sa, id, carrier.version)
            && (CarrierHasSnapshot(b, a, id, carrier) ==> CarrierHasSnapshot(sb, sa, id, carrier))
  {
    var sb, sa := Slice(b, carrier.owner), Slice(a, carrier.owner);
    forall p | NewRow(sb, sa, p) ensures HasSnapshot(sb, sa, p) {
      SlicedRow(b, a, carrier.owner, p);
      assert HasSnapshot(b, a, p);
      var k :| SnapshotOf(b, a, p, k);
      SlicedSnapshot(b, a, carrier.owner, p, k);
    }
    var k :| k in a.versions && a.versions[k].set_ == Some(id) && a.versions[k].version == carrier.version;
    assert k in sa.versions;
    if CarrierHasSnapshot(b, a, id, carrier) {
      var j :| IsCarrierSnapshot(b, a, id, carrier, j);
      SlicedVersion(b, a, carrier.owner, j);
      assert IsCarrierSnapshot(sb, sa, id, carrier, j);
    }
  }

  /** The outcome of one row, told by its owner's rows alone. */
  lemma SlicedOutcome(b: DB, a: DB, id: int, row: Profile)
    requires Consistent(a) && OthersKept(b, a, row.owner) && Outcome(b, a, id, row)
    ensures Outcome(Slice(b, row.owner), Slice(a, row.owner), id, row)
  {
    var sb, sa := Slice(b, row.owner), Slice(a, row.owner);
    SlicedNumbers(b, row.owner);
    if IsContainer(row.content) {
      var carrier := CarrierOf(b, row);
      SlicedProfiles(b, a, row.owner, carrier.name, row.content.profiles.value);
      SlicedVersions(b, a, id, carrier);
      if row.owner.Some? { SlicedSnapshots(b, a, id, carrier); }
    } else {
      forall p ensures !NewRow(sb, sa, p) { SlicedRow(b, a, row.owner, p); }
      forall k ensures !NewVersion(sb, sa, k) { SlicedVersion(b, a, row.owner, k); }
    }
  }

  // ---- the loop ----

  ghost predicate Finished(start: DB, d: DB, id: int)
    requires id in start.profiles
  {
    var row := start.profiles[id];
    Outcome(Slice(start, row.owner), Slice(d, row.owner), id, row)
  }

  /** After the rows `ids`: those are finished, and the rows of every other owner are as at the start. */
  ghost predicate Halfway(start: DB, d: DB, ids: seq<int>) {
    && Consistent(d)
    && (forall i | 0 <= i < |ids| :: ids[i] in start.profiles && Finished(start, d, ids[i]))
    && (forall o: Option<int> ::
          (forall i | 0 <= i < |ids| :: ids[i] in start.profiles && start.profiles[ids[i]].owner != o)
          ==> Slice(d, o) == Slice(start, o))
  }

  lemma UntouchedSlice(start: DB, d: DB, id: int)
    requires FreshStart(start) && id in start.profiles && Slice(d, start.profiles[id].owner) == Slice(start, start.profiles[id].owner)
    ensures Untouched(d, id, start.profiles[id])
  {
    var o := start.profiles[id].owner;
    var sd, ss := Slice(d, o), Slice(start, o);
    forall k | k in d.profiles && d.profiles[k].owner == o ensures k == id { assert k in sd.profiles; }
    assert id in ss.profiles;
    forall k | k in d.versions && Some(d.versions[k].owner) == o ensures k in start.versions && d.versions[k] == start.versions[k] {
      assert k in sd.versions;
    }
  }

  lemma HalfwayStep(start: DB, d: DB, ids: seq<int>, id: int)
    requires FreshStart(start) && Halfway(start, d, ids) && id in start.profiles && id !in ids
    ensures Untouched(d, id, start.profiles[id])
    ensures Halfway(start, MigrateRow(d, id, start.profiles[id]), ids + [id])
  {
    var row, a, all := start.profiles[id], MigrateRow(d, id, start.profiles[id]), ids + [id];
    UntouchedSlice(start, d, id);
    RowOutcome(d, id, row);
    SlicedOutcome(d, a, id, row);
    forall i | 0 <= i < |all| ensures all[i] in start.profiles && Finished(start, a, all[i]) {
      if i < |ids| { OthersSlices(d, a, row.owner, start.profiles[ids[i]].owner); }
    }
    forall o: Option<int> | forall i | 0 <= i < |all| :: all[i] in start.profiles && start.profiles[all[i]].owner != o
      ensures Slice(a, o) == Slice(start, o)
    {
      assert all[|ids|] == id;
      forall i | 0 <= i < |ids| ensures ids[i] in start.profiles && start.profiles[ids[i]].owner != o { assert all[i] == ids[i]; }
      OthersSlices(d, a, row.owner, o);
    }
  }

  lemma {:induction false} LoopHalfway(start: DB, ids: seq<int>)
    requires FreshStart(start) && Distinct(ids) && forall id <- ids :: id in start.profiles
    ensures Halfway(start, MigrateAll(start, ids, start.profiles), ids)
  {
    if ids != [] {
      var done, id := ids[..|ids| - 1], ids[|ids| - 1];
      LoopHalfway(start, done);
      assert id !in done;
      HalfwayStep(start, MigrateAll(start, done, start.profiles), done, id);
      assert ids == done + [id];
    }
  }

  /**
   From a fresh start the migration ends with the constraints intact, every owner's rows are what `Outcome`
   says, and the history of operators without a profile row is untouched.
   */
  lemma MigrationOutcome(start: DB)
    requires FreshStart(start)
    ensures Consistent(Migrate(start))
    ensures forall id | id in start.profiles :: Finished(start, Migrate(start), id)
    ensures forall o: Option<int> | (forall id | id in start.profiles :: start.profiles[id].owner != o) :: Slice(Migrate(start), o) == Slice(start, o)
  {
    var ids := Ascending(start.profiles.Keys);
    AscendingMembers(start.profiles.Keys);
    LoopHalfway(start, ids);
    forall id | id in start.profiles ensures Finished(start, Migrate(start), id) {
      assert id in ids;
    }
  }

  // ---- what the outcome means ----

  ghost predicate HasOwner(db: DB, operator: int) {
    exists id :: id in db.profiles && db.profiles[id].owner == Some(operator)
  }

  lemma OwnedHistoryHasSet(start: DB, id: int, k: int)
    requires FreshStart(start) && id in start.profiles && k in Migrate(start).versions
    requires Some(Migrate(start).versions[k].owner) == start.profiles[id].owner
    ensures Migrate(start).versions[k].set_.Some?
  {
    MigrationOutcome(start);
    var row := start.profiles[id];
    var b, a := Slice(start, row.owner), Slice(Migrate(start), row.owner);
    assert Finished(start, Migrate(start), id) && k in a.versions;
    assert k in b.versions || NewVersion(b, a, k);
  }

  /** The last step of the upgrade, which forbids null sets, succeeds exactly when no history is orphaned. */
  lemma NotNullStepSucceeds(start: DB)
    requires FreshStart(start)
    ensures (forall k | k in Migrate(start).versions :: Migrate(start).versions[k].set_.Some?)
            <==> (forall k | k in start.versions :: HasOwner(start, start.versions[k].owner))
  {
    MigrationOutcome(start);
    var end := Migrate(start);
    forall k | k in end.versions && HasOwner(start, end.versions[k].owner) ensures end.versions[k].set_.Some? {
      var id :| id in start.profiles && start.profiles[id].owner == Some(end.versions[k].owner);
      OwnedHistoryHasSet(start, id, k);
    }
    forall k | k in end.versions && !HasOwner(start, end.versions[k].owner) ensures k in start.versions && end.versions[k] == start.versions[k] {
      OrphanKept(start, k, end.versions[k].owner);
    }
    forall k | k in start.versions && !HasOwner(start, start.versions[k].owner) ensures k in end.versions && end.versions[k] == start.versions[k] {
      OrphanKept(start, k, start.versions[k].owner);
    }
  }

  lemma OrphanKept(start: DB, k: int, operator: int)
    requires FreshStart(start) && !HasOwner(start, operator)
    requires (k in start.versions && start.versions[k].owner == operator)
             || (k in Migrate(start).versions && Migrate(start).versions[k].owner == operator)
    ensures k in start.versions && k in Migrate(start).versions && Migrate(start).versions[k] == start.versions[k]
  {
    MigrationOutcome(start);
    var b, a := Slice(start, Some(operator)), Slice(Migrate(start), Some(operator));
    assert a == b;
    assert k in b.versions || k in a.versions;
  }
}
