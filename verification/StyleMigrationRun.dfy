/** The migration as the loop over fetched rows that it is, with the tables recorded after every statement. */
module StyleMigrationRun {
  import opened Collections
  import opened StyleMigration
  import opened StyleMigrationSafety
  import opened StyleMigrationMeaning

  ghost predicate OneStatement(b: DB, a: DB) { exists st :: a == Apply(b, st) }

  class Migration {
    var profiles: map<int, Profile>
    var versions: map<int, Version>
    /** The tables at the start and after each statement so far. */
    ghost var log: seq<DB>

    function Tables(): DB reads this { DB(profiles, versions) }

    /** The log leads to the present tables by single statements, and the constraints held all the way. */
    ghost predicate AlwaysConsistent() reads this {
      && log != [] && log[|log| - 1] == Tables()
      && (forall i | 0 <= i < |log| :: Consistent(log[i]))
      && (forall i | 0 <= i < |log| - 1 :: OneStatement(log[i], log[i + 1]))
    }

    constructor (profiles: map<int, Profile>, versions: map<int, Version>)
      ensures Tables() == DB(profiles, versions) && log == [Tables()]
    {
      this.profiles, this.versions, log := profiles, versions, [DB(profiles, versions)];
    }

    method UpdateHistory(id: int, operator: int, mark: bool)
      modifies this
      ensures Tables() == Backfill(old(Tables()), id, operator, mark) && log == old(log) + [Tables()]
      ensures OneStatement(old(Tables()), Tables())
    {
      versions := map k | k in versions ::
        if versions[k].owner == operator && versions[k].set_.None?
        then versions[k].(set_ := Some(id), note := if mark then Marked(versions[k].note) else versions[k].note)
        else versions[k];
      assert Tables() == Apply(old(Tables()), Move(id, operator, mark));
      log := log + [Tables()];
    }

    method UpdateProfile(id: int, row: Profile)
      modifies this
      ensures Tables() == Rewrite(old(Tables()), id, row) && log == old(log) + [Tables()]
      ensures OneStatement(old(Tables()), Tables())
    {
      if id in profiles { profiles := profiles[id := row.(owner := profiles[id].owner)]; }
      assert Tables() == Apply(old(Tables()), Set(id, row));
      log := log + [Tables()];
    }

    method AddProfile(row: Profile) returns (id: int)
      modifies this
      ensures Tables() == InsertProfile(old(Tables()), row) && log == old(log) + [Tables()] && id == Fresh(old(profiles).Keys)
      ensures OneStatement(old(Tables()), Tables())
    {
      id := Fresh(profiles.Keys);
      profiles := profiles[id := row];
      assert Tables() == Apply(old(Tables()), PutProfile(row));
      log := log + [Tables()];
    }

    method AddVersion(row: Version)
      modifies this
      ensures Tables() == InsertVersion(old(Tables()), row) && log == old(log) + [Tables()]
      ensures OneStatement(old(Tables()), Tables())
    {
      versions := versions[Fresh(versions.Keys) := row];
      assert Tables() == Apply(old(Tables()), PutVersion(row));
      log := log + [Tables()];
    }

    /** One set of a container: skipped when it is the active one or its name is taken, otherwise a row and a first version. */
    method SplitOff(ghost d1: DB, id: int, owner: Option<int>, active: string, ghost done: seq<Entry>, e: Entry)
      requires Split(d1, Tables(), owner, active, done) && Carries(d1, id, owner, active) && Unseen(done, e)
      requires AlwaysConsistent()
      modifies this
      ensures Tables() == SplitOne(old(Tables()), id, owner, active, e) && AlwaysConsistent() && log[0] == old(log[0])
    {
      SplitStep(d1, Tables(), id, owner, active, done, e);
      if e.name == active || NameTaken(Tables(), owner, e.name, id) { return; }
      var p := AddProfile(SetRow(owner, e));
      if owner.Some? {
        AddVersion(Version(Some(p), owner.value, 1, e.content, Some("迁移拆分")));
      }
    }

    method SplitOffAll(id: int, owner: Option<int>, active: string, entries: seq<Entry>)
      requires Consistent(Tables()) && Carries(Tables(), id, owner, active) && AlwaysConsistent()
      requires forall i, j | 0 <= i < j < |entries| :: entries[i].name != entries[j].name
      modifies this
      ensures Tables() == SplitAll(old(Tables()), id, owner, active, entries) && AlwaysConsistent() && log[0] == old(log[0])
    {
      ghost var d1 := Tables();
      for i := 0 to |entries|
        invariant Tables() == SplitAll(d1, id, owner, active, entries[..i]) && AlwaysConsistent() && log[0] == old(log[0])
      {
        assert entries[..i + 1][..i] == entries[..i] && entries[..i + 1][i] == entries[i];
        SplitHolds(d1, id, owner, active, entries[..i]);
        EarlierNamesDiffer(entries, i);
        SplitOff(d1, id, owner, active, entries[..i], entries[i]);
      }
      assert entries[..|entries|] == entries;
    }

    /** The old history, and a snapshot under the new number unless that number is already there. */
    method HangHistory(id: int, operator: int, version: int, content: Json)
      requires AlwaysConsistent()
      requires var d := Backfill(Tables(), id, operator, true); Consistent(d) && Consistent(Snapshot(d, id, operator, version, content))
      modifies this
      ensures Tables() == Snapshot(Backfill(old(Tables()), id, operator, true), id, operator, version, content)
      ensures AlwaysConsistent() && log[0] == old(log[0])
    {
      UpdateHistory(id, operator, true);
      if !HasVersion(Tables(), id, version) {
        AddVersion(Version(Some(id), operator, version, content, Some("迁移拆分后单套快照")));
      }
    }

    method SplitContainer(id: int, row: Profile)
      requires Consistent(Tables()) && Untouched(Tables(), id, row) && IsContainer(row.content) && AlwaysConsistent()
      modifies this
      ensures Tables() == MigrateRow(old(Tables()), id, row) && AlwaysConsistent() && log[0] == old(log[0])
    {
      ghost var start := Tables();
      ghost var d1, d2, d3 := StagesOf(start, id, row);
      StagesAreConsistent(start, id, row, d1, d2, d3, MigrateRow(start, id, row));
      var current := NewCurrent(VersionNumbers(Tables(), row.owner), row.owner, row.version);
      var carrier := ActiveRow(row.owner, row.content, current);
      RewriteCarries(start, id, row, carrier);
      UpdateProfile(id, carrier);
      SplitOffAll(id, row.owner, carrier.name, row.content.profiles.value);
      if row.owner.Some? { HangHistory(id, row.owner.value, current, carrier.content); }
    }

    method MigrateFetched(id: int, row: Profile)
      requires Consistent(Tables()) && Untouched(Tables(), id, row) && AlwaysConsistent()
      modifies this
      ensures Tables() == MigrateRow(old(Tables()), id, row) && AlwaysConsistent() && log[0] == old(log[0])
    {
      if IsContainer(row.content) {
        SplitContainer(id, row);
      } else if row.owner.Some? {
        RowOutcome(Tables(), id, row);
        UpdateHistory(id, row.owner.value, false);
      }
    }

    /** The constraints hold after every single statement, and the tables end as the migration says. */
    method MigrateData()
      requires FreshStart(Tables()) && log == [Tables()]
      modifies this
      ensures Tables() == Migrate(old(Tables()))
      ensures AlwaysConsistent() && log[0] == old(Tables())
    {
      ghost var start := Tables();
      var rows, ids := profiles, Ascending(profiles.Keys);
      AscendingMembers(profiles.Keys);
      LoopHalfway(start, []);
      for i := 0 to |ids|
        invariant AlwaysConsistent() && log[0] == start
        invariant Tables() == MigrateAll(start, ids[..i], start.profiles)
      {
        assert ids[i] in ids;
        LoopStep(start, ids, i);
        MigrateFetched(ids[i], rows[ids[i]]);
      }
      assert ids[..|ids|] == ids;
    }
  }

  /** Before each turn of the loop the fetched row is still untouched. */
  lemma LoopStep(start: DB, ids: seq<int>, i: nat)
    requires FreshStart(start) && Distinct(ids) && i < |ids| && forall id <- ids :: id in start.profiles
    ensures ids[i] in start.profiles && forall id <- ids[..i] + ids[..i + 1] :: id in start.profiles
    ensures var d := MigrateAll(start, ids[..i], start.profiles);
            && Consistent(d) && Untouched(d, ids[i], start.profiles[ids[i]])
            && MigrateAll(start, ids[..i + 1], start.profiles) == MigrateRow(d, ids[i], start.profiles[ids[i]])
  {
    assert ids[i] in ids && ids[i] !in ids[..i];
    LoopHalfway(start, ids[..i]);
    HalfwayStep(start, MigrateAll(start, ids[..i], start.profiles), ids[..i], ids[i]);
    assert ids[..i + 1][..i] == ids[..i] && ids[..i + 1][i] == ids[i];
  }

  lemma EarlierNamesDiffer(entries: seq<Entry>, k: nat)
    requires k < |entries| && forall i, j | 0 <= i < j < |entries| :: entries[i].name != entries[j].name
    ensures Unseen(entries[..k], entries[k])
  {
  }
}
