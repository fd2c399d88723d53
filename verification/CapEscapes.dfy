/**
 The hourly cap cannot be had for less: from any idle state whose tables show fewer sessions of an account
 than it began in the last hour, the supervisor can go on to break the cap. Three ways into such a state,
 for every configuration: a crash, a late cancel, and a failed publish.
 */
module CapEscapes {
  import opened Collections
  import opened PublishLedger
  import opened Protocol
  import opened ProtocolSafety
  import opened SessionWindow
  import FairDispatch

  // ---- runs put together ----

  ghost predicate Leads(c: Config, s: State, t: State) { exists acts :: RunFrom(c, s, acts) == t }

  lemma LeadsBy(c: Config, s: State, act: Action)
    ensures Leads(c, s, Next(c, s, act))
  {
    assert RunFrom(c, s, [act]) == Next(c, s, act);
  }

  lemma LeadsThrough(c: Config, s: State, t: State, u: State)
    requires Leads(c, s, t) && Leads(c, t, u)
    ensures Leads(c, s, u)
  {
    var acts :| RunFrom(c, s, acts) == t;
    var more :| RunFrom(c, t, more) == u;
    RunFromConcat(c, s, acts, more);
  }

  lemma StaysReached(c: Config, s: State, t: State)
    requires Reached(c, s) && Leads(c, s, t)
    ensures Reached(c, t)
  {
    var acts :| Run(c, acts) == s;
    var more :| RunFrom(c, s, more) == t;
    RunContinues(c, acts, more);
  }

  // ---- one pass with one job ----

  predicate CapsOn(c: Config) { c.caps.system > 0 && c.caps.operator > 0 && c.batch > 0 && c.maxProcs > 0 }

  /** No child and no pass. */
  ghost predicate Idles(s: State) { s.procs == map[] && s.pass.None? && Distinct(s.rotation) }

  function Counted(s: State, a: int): nat { RecentSessions(s.pub, s.br, a, s.now) }

  /** A queue with one job, triggered on the layer with the wider cap. */
  function OneItem(c: Config, job: JobRef): Item { Item(0, job, if c.caps.operator >= c.caps.system then 1 else 0) }

  function OneJob(c: Config, a: int, job: JobRef): map<int, seq<Item>> { map[a := [OneItem(c, job)]] }

  function OnePass(c: Config, s: State, a: int, job: JobRef, order: seq<int>, dispatched: seq<int>): Pass {
    Pass(OneJob(c, a, job), map[a := Counted(s, a)], |s.sessions|, order, dispatched)
  }

  lemma OnlyOneInOrder(rotation: seq<int>, only: set<int>, a: int)
    requires Distinct(rotation) && only == {a}
    ensures FairOrder(rotation, only) == [a] && Distinct(AddMissing(rotation, only))
  {
    var all, keep := AddMissing(rotation, only), (x: int) => x in only;
    FairDispatch.AddMissingExtends(rotation, only);
    FilterDistinct(all, keep);
    FilterMember(all, keep, a);
    var order := Filter(all, keep);
    forall i | 0 <= i < |order| ensures order[i] == a {
      assert order[i] in order;
      FilterMember(all, keep, order[i]);
    }
    assert order[0] == order[|order| - 1];
  }

  function Begun(c: Config, s: State, a: int, job: JobRef): State {
    s.(rotation := AddMissing(s.rotation, {a}), pass := Some(OnePass(c, s, a, job, [a], [])))
  }

  lemma PassBegins(c: Config, s: State, a: int, job: JobRef)
    requires Idles(s) && JobAccount(s, job) == Some(a)
    ensures Leads(c, s, Begun(c, s, a, job)) && Distinct(Begun(c, s, a, job).rotation)
  {
    var work := OneJob(c, a, job);
    assert work.Keys == {a};
    assert WorkMatchesRows(s, work);
    OnlyOneInOrder(s.rotation, work.Keys, a);
    assert (map b | b in work :: RecentSessions(s.pub, s.br, b, s.now)) == map[a := Counted(s, a)];
    LeadsBy(c, s, BeginPass(work));
  }

  lemma BatchIsTheJob(c: Config, p: Pass, a: int, job: JobRef)
    requires CapsOn(c) && p.work == OneJob(c, a, job) && a in p.counts && p.counts[a] < Cap(c)
    ensures Batch(p, c, a) == [OneItem(c, job)] && ChildOrder(Batch(p, c, a), [job])
  {
    var items := [OneItem(c, job)];
    assert items[1..] == [] && c.caps.Allows(items[0], p.counts[a]);
    assert c.caps.Kept(items, p.counts[a]) == items;
    assert seq(|items|, i requires 0 <= i < |items| => items[i].job) == [job];
  }

  function Spawned(s: State, a: int, job: JobRef, p: Pass): State {
    s.(procs := map[a := Child(s.pids, true, [job], Idle)], pids := s.pids + 1,
       pass := Some(Pass(p.work, p.counts, p.mark, [], [a])))
  }

  lemma PassSpawns(c: Config, s: State, a: int, job: JobRef, p: Pass)
    requires CapsOn(c) && s.procs == map[] && s.pass == Some(p) && p.mark == |s.sessions| && p.order == [a] && p.dispatched == []
    requires p.work == OneJob(c, a, job) && a in p.counts && p.counts[a] < Cap(c)
    ensures Leads(c, s, Spawned(s, a, job, p))
  {
    BatchIsTheJob(c, p, a, job);
    assert Handle(s, c).Go?;
    assert Raced(s, a, p.mark) == {};
    assert s.procs[a := Child(s.pids, true, [job], Idle)] == map[a := Child(s.pids, true, [job], Idle)];
    assert [a][1..] == [] && [] + [a] == [a];
    LeadsBy(c, s, HandleAccount(true, [job]));
  }

  lemma PassEnds(c: Config, s: State, a: int) returns (t: State)
    requires s.pass.Some? && s.pass.value.order == [] && s.pass.value.dispatched == [a] && Distinct(s.rotation)
    ensures Leads(c, s, t) && Distinct(t.rotation) && t == s.(pass := None, rotation := t.rotation)
  {
    t := s.(pass := None, rotation := MoveToTail(s.rotation, [a]));
    FairDispatch.MoveToTailDistinct(s.rotation, [a]);
    LeadsBy(c, s, EndPass);
  }

  /** An idle supervisor whose count is below the cap gives the account a child for its job. */
  lemma Dispatches(c: Config, s: State, a: int, job: JobRef) returns (t: State)
    requires CapsOn(c) && Idles(s) && JobAccount(s, job) == Some(a) && Counted(s, a) < Cap(c)
    ensures Leads(c, s, t) && Distinct(t.rotation)
    ensures t == s.(procs := map[a := Child(s.pids, true, [job], Idle)], pids := s.pids + 1, rotation := t.rotation)
  {
    var s1 := Begun(c, s, a, job);
    var p := s1.pass.value;
    PassBegins(c, s, a, job);
    PassSpawns(c, s1, a, job, p);
    t := PassEnds(c, Spawned(s1, a, job, p), a);
    LeadsThrough(c, s, s1, Spawned(s1, a, job, p));
    LeadsThrough(c, s, Spawned(s1, a, job, p), t);
  }

  // ---- one browser session ----

  function RunningRow(a: int, rerunnable: bool, pid: nat, now: int): BrowserRow {
    BrowserRow(a, rerunnable, Running, now, Some(pid), Some(now))
  }

  function Queues(s: State, a: int, key: string, rerunnable: bool): State {
    s.(br := s.br[key := BrowserRow(a, rerunnable, Queued, s.now, None, None)])
  }

  lemma Submits(c: Config, s: State, a: int, key: string, rerunnable: bool)
    requires key !in s.br
    ensures Leads(c, s, Queues(s, a, key, rerunnable)) && Counted(Queues(s, a, key, rerunnable), a) == Counted(s, a)
  {
    var t := Queues(s, a, key, rerunnable);
    assert BrowserSessions(t.br, a, s.now - WINDOW) == BrowserSessions(s.br, a, s.now - WINDOW);
    LeadsBy(c, s, SubmitBrowser(key, a, rerunnable));
  }

  function Runs(s: State, a: int, pid: nat, key: string): State
    requires key in s.br
  {
    s.(procs := map[a := Child(pid, true, [], Browsing(key))],
       br := s.br[key := RunningRow(s.br[key].account, s.br[key].rerunnable, pid, s.now)],
       sessions := s.sessions + [Session(a, Browser(key), s.now)])
  }

  lemma Claims(c: Config, s: State, a: int, key: string, pid: nat)
    requires key in s.br && s.br[key].status == Queued && s.procs == map[a := Child(pid, true, [Browser(key)], Idle)]
    ensures Leads(c, s, Runs(s, a, pid, key))
  {
    var child := Child(pid, true, [], Browsing(key));
    assert [Browser(key)][1..] == [];
    assert s.procs[a := child] == map[a := child];
    LeadsBy(c, s, Step(a, ClaimBrowser));
  }

  /** The account starts a session for a new browser job. */
  lemma Starts(c: Config, s: State, a: int, key: string, rerunnable: bool) returns (t: State)
    requires CapsOn(c) && Idles(s) && key !in s.br && Counted(s, a) < Cap(c)
    ensures Leads(c, s, t) && Distinct(t.rotation)
    ensures t == s.(procs := map[a := Child(s.pids, true, [], Browsing(key))], pids := s.pids + 1, rotation := t.rotation,
                    br := s.br[key := RunningRow(a, rerunnable, s.pids, s.now)],
                    sessions := s.sessions + [Session(a, Browser(key), s.now)])
  {
    Submits(c, s, a, key, rerunnable);
    var s1 := Queues(s, a, key, rerunnable);
    var s2 := Dispatches(c, s1, a, Browser(key));
    Claims(c, s2, a, key, s.pids);
    t := Runs(s2, a, s.pids, key);
    var row := RunningRow(a, rerunnable, s.pids, s.now);
    assert s1.br[key := row] == s.br[key := row];
    LeadsThrough(c, s, s1, s2);
    LeadsThrough(c, s, s2, t);
  }

  lemma Dies(c: Config, s: State, a: int, child: Child)
    requires s.procs == map[a := child] && child.alive
    ensures Leads(c, s, s.(procs := map[a := child.(alive := false)]))
  {
    assert s.procs[a := child.(alive := false)] == map[a := child.(alive := false)];
    LeadsBy(c, s, Step(a, Kill));
  }

  lemma Reaped(c: Config, s: State, a: int, child: Child)
    requires s.procs == map[a := child] && !child.alive
    ensures Leads(c, s, s.(procs := map[]))
  {
    assert s.procs - {a} == map[];
    LeadsBy(c, s, Step(a, Reap));
  }

  lemma DiesAndIsReaped(c: Config, s: State, a: int, child: Child)
    requires s.procs == map[a := child] && child.alive
    ensures Leads(c, s, s.(procs := map[]))
  {
    var dead := s.(procs := map[a := child.(alive := false)]);
    Dies(c, s, a, child);
    Reaped(c, dead, a, child.(alive := false));
    LeadsThrough(c, s, dead, s.(procs := map[]));
  }

  // ---- the supervisor fills up what it believes to be left ----

  lemma Finishes(c: Config, s: State, a: int, key: string, pid: nat)
    requires s.procs == map[a := Child(pid, true, [], Browsing(key))]
    requires key in s.br && s.br[key].status == Running && s.br[key].claimedBy == Some(pid)
    ensures Leads(c, s, s.(procs := map[a := Child(pid, true, [], Idle)],
                           br := s.br[key := s.br[key].(status := Done, updatedAt := s.now)]))
  {
    assert s.procs[a := Child(pid, true, [], Idle)] == map[a := Child(pid, true, [], Idle)];
    LeadsBy(c, s, Step(a, FinishBrowser(Done, true)));
  }

  lemma CountsNew(s: State, t: State, a: int, key: string, row: BrowserRow)
    requires key !in s.br && t.pub == s.pub && t.now == s.now && t.br == s.br[key := row]
    requires row.account == a && row.status == Done && row.updatedAt == s.now
    ensures Counted(t, a) == Counted(s, a) + 1
  {
    assert BrowserSessions(t.br, a, s.now - WINDOW) == BrowserSessions(s.br, a, s.now - WINDOW) + {key};
  }

  /** One more session, finished at once, of which the supervisor knows. */
  lemma OneMore(c: Config, s: State, a: int, from: int) returns (t: State)
    requires CapsOn(c) && Idles(s) && Counted(s, a) < Cap(c) && from <= s.now <= from + WINDOW
    ensures Leads(c, s, t) && Idles(t) && t.now == s.now
    ensures Counted(t, a) == Counted(s, a) + 1 && |StartedIn(t, a, from)| == |StartedIn(s, a, from)| + 1
  {
    var key := FreshKey(s.br.Keys);
    var s1 := Starts(c, s, a, key, false);
    Finishes(c, s1, a, key, s.pids);
    var s2 := s1.(procs := map[a := Child(s.pids, true, [], Idle)],
                  br := s1.br[key := s1.br[key].(status := Done, updatedAt := s.now)]);
    DiesAndIsReaped(c, s2, a, Child(s.pids, true, [], Idle));
    t := s2.(procs := map[]);
    LeadsThrough(c, s, s1, s2);
    LeadsThrough(c, s, s2, t);
    var row := s1.br[key].(status := Done, updatedAt := s.now);
    assert t.br == s.br[key := row];
    CountsNew(s, t, a, key, row);
    StartedOneMore(s, t, a, key, from);
  }

  lemma StartedOneMore(s: State, t: State, a: int, key: string, from: int)
    requires t.sessions == s.sessions + [Session(a, Browser(key), s.now)] && from <= s.now <= from + WINDOW
    ensures |StartedIn(t, a, from)| == |StartedIn(s, a, from)| + 1
  {
    var n: nat := |s.sessions|;
    assert StartedIn(t, a, from) == StartedIn(s, a, from) + {n};
  }

  lemma FreshKey(keys: set<string>) returns (key: string)
    ensures key !in keys
  {
    var n := LongerThanAll(keys);
    key := seq(n, i => 'x');
  }

  lemma {:induction false} LongerThanAll(keys: set<string>) returns (n: nat)
    ensures forall k | k in keys :: |k| < n
    decreases |keys|
  {
    n := 0;
    if keys != {} {
      var k := Pick(keys);
      n := LongerThanAll(keys - {k});
      forall x | x in keys ensures |x| < n || x == k { assert x == k || x in keys - {k}; }
      if n <= |k| { n := |k| + 1; }
    }
  }

  lemma {:induction false} FillsUp(c: Config, s: State, a: int, from: int) returns (t: State)
    requires CapsOn(c) && Idles(s) && Counted(s, a) <= Cap(c) && from <= s.now <= from + WINDOW
    ensures Leads(c, s, t) && |StartedIn(t, a, from)| == |StartedIn(s, a, from)| + Cap(c) - Counted(s, a)
    decreases Cap(c) - Counted(s, a)
  {
    if Counted(s, a) == Cap(c) {
      t := s;
      assert RunFrom(c, s, []) == s;
    } else {
      var u := OneMore(c, s, a, from);
      t := FillsUp(c, u, a, from);
      LeadsThrough(c, s, u, t);
    }
  }

  // ---- main results ----

  /** More sessions of `a` began in the last hour than the tables show. */
  ghost predicate Undercounts(s: State, a: int) { Counted(s, a) < |StartedIn(s, a, s.now - WINDOW)| }

  ghost predicate Breaks(c: Config, s: State, a: int, from: int) { Reached(c, s) && |StartedIn(s, a, from)| > Cap(c) }

  /** From any reachable idle state that undercounts, the same hour can come to hold more sessions than the wider cap. */
  lemma UndercountBreaksTheCap(c: Config, s: State, a: int)
    requires CapsOn(c) && Reached(c, s) && s.procs == map[] && s.pass.None? && Undercounts(s, a)
    ensures exists t :: Leads(c, s, t) && Breaks(c, t, a, s.now - WINDOW)
  {
    var acts :| Run(c, acts) == s;
    FairDispatch.RunRotates(c, acts);
    var t := s;
    if Counted(s, a) <= Cap(c) {
      t := FillsUp(c, s, a, s.now - WINDOW);
    } else {
      assert RunFrom(c, s, []) == s;
    }
    StaysReached(c, s, t);
    assert Leads(c, s, t) && Breaks(c, t, a, s.now - WINDOW);
  }

  // ---- a crash ----

  const HOUR_QUARTER := STALE_AFTER + SECOND

  function Later(s: State): State { s.(now := s.now + HOUR_QUARTER) }

  function Requeued(s: State, key: string, row: BrowserRow): State {
    s.(br := map[key := row.(status := Queued, claimedBy := None, heartbeat := None, updatedAt := s.now)],
       uncounted := s.uncounted + SessionsOf(s.sessions, Browser(key)), underway := s.underway - {ResetKey(key)})
  }

  /** A rerunnable job whose heart stopped goes back to the queue, a quarter of an hour after its last sign of life. */
  lemma HeartIsMissed(c: Config, s: State, key: string, row: BrowserRow)
    requires s.br == map[key := row] && row.status == Running && row.rerunnable && row.heartbeat == Some(s.now)
    ensures Leads(c, s, Requeued(Later(s), key, row))
  {
    LeadsBy(c, s, Tick(HOUR_QUARTER));
    var read := Later(s).(underway := s.underway + {ResetKey(key)});
    LeadsBy(c, Later(s), ReadStale(key));
    LeadsThrough(c, s, Later(s), read);
    IsReset(c, read, key, row);
    assert s.underway + {ResetKey(key)} - {ResetKey(key)} == s.underway - {ResetKey(key)};
    LeadsThrough(c, s, read, Requeued(Later(s), key, row));
  }

  lemma IsReset(c: Config, s: State, key: string, row: BrowserRow)
    requires s.br == map[key := row] && row.status == Running && row.rerunnable && ResetKey(key) in s.underway
    ensures Leads(c, s, Requeued(s, key, row))
  {
    var again := row.(status := Queued, claimedBy := None, heartbeat := None, updatedAt := s.now);
    assert s.br[key := again] == map[key := again];
    LeadsBy(c, s, RecoverBrowser(key));
  }

  lemma InitIsReached(c: Config)
    ensures Reached(c, INIT)
  {
    assert Run(c, []) == INIT;
  }

  /** No row shows a session. */
  predicate Blank(s: State) {
    && (forall id | id in s.pub :: !CountsAsPublishSession(s.pub[id], s.now - WINDOW))
    && (forall key | key in s.br :: !CountsAsBrowserSession(s.br[key], s.now - WINDOW))
  }

  lemma CountsNothing(s: State, a: int)
    requires Blank(s)
    ensures Counted(s, a) == 0
  {
    if PublishSessions(s.pub, a, s.now - WINDOW) != {} { var id := Pick(PublishSessions(s.pub, a, s.now - WINDOW)); }
    if BrowserSessions(s.br, a, s.now - WINDOW) != {} { var key := Pick(BrowserSessions(s.br, a, s.now - WINDOW)); }
  }

  /** A session began, and no row shows one. */
  lemma NothingShown(s: State, a: int)
    requires Blank(s)
    requires |s.sessions| > 0 && s.sessions[0].account == a && s.now - WINDOW <= s.sessions[0].start <= s.now
    ensures Undercounts(s, a)
  {
    CountsNothing(s, a);
    assert 0 in StartedIn(s, a, s.now - WINDOW);
  }

  /** Whatever the caps: after a crash in a browser job of an idempotent kind an hour can hold more sessions. */
  lemma CrashEscapesTheCap(c: Config, a: int)
    requires CapsOn(c)
    ensures exists t, from :: Breaks(c, t, a, from)
  {
    var key := "k";
    InitIsReached(c);
    CountsNothing(INIT, a);
    var s1 := Starts(c, INIT, a, key, true);
    DiesAndIsReaped(c, s1, a, Child(0, true, [], Browsing(key)));
    var s2, row := s1.(procs := map[]), RunningRow(a, true, 0, 0);
    assert s2.br == map[key := row];
    HeartIsMissed(c, s2, key, row);
    var s3 := Requeued(Later(s2), key, row);
    LeadsThrough(c, INIT, s1, s2);
    LeadsThrough(c, INIT, s2, s3);
    StaysReached(c, INIT, s3);
    NothingShown(s3, a);
    UndercountBreaksTheCap(c, s3, a);
  }

  // ---- a late cancel, and a failed publish ----

  /** A post can go out: the day has room, and an interval can be drawn. */
  predicate CanPost(c: Config) { CapsOn(c) && c.dailyCap > 0 && c.minInterval <= c.maxInterval }

  const POST := 1

  /** The account's child works on its only post, and nothing else happens. */
  predicate Posts(s: State, a: int, row: PublishRow, phase: Phase) {
    s.pub == map[POST := row] && s.br == map[] && row.account == a && s.procs == map[a := Child(0, true, [], phase)] && s.now == 0
  }

  function Waiting(a: int): PublishRow { PublishRow(a, Pending, None, 0, None) }

  function Claimed(a: int): PublishRow { PublishRow(a, Publishing, Some(0), 0, None) }

  /** A request to cancel the post has read it as pending when the child takes it up. */
  lemma PostIsLoaded(c: Config, a: int) returns (t: State)
    requires CanPost(c)
    ensures Reached(c, t) && Posts(t, a, Waiting(a), Loaded(POST, 0)) && CancelRow(POST) in t.underway && t.sessions == [] && t.pass.None?
  {
    InitIsReached(c);
    var s1 := INIT.(pub := map[POST := Waiting(a)]);
    assert INIT.pub[POST := Waiting(a)] == s1.pub;
    LeadsBy(c, INIT, SubmitPublish(POST, a));
    var s2 := s1.(underway := {CancelRow(POST)});
    assert {} + {CancelRow(POST)} == s2.underway;
    LeadsBy(c, s1, ReadCancel(POST));
    LeadsThrough(c, INIT, s1, s2);
    CountsNothing(s2, a);
    var s3 := Dispatches(c, s2, a, Publish(POST));
    LeadsThrough(c, INIT, s2, s3);
    t := Loads(c, s3, a);
    LeadsThrough(c, INIT, s3, t);
    StaysReached(c, INIT, t);
  }

  lemma Loads(c: Config, s: State, a: int) returns (t: State)
    requires s.pub == map[POST := Waiting(a)] && s.procs == map[a := Child(0, true, [Publish(POST)], Idle)]
    ensures Leads(c, s, t) && t == s.(procs := map[a := Child(0, true, [], Loaded(POST, 0))])
  {
    var child := Child(0, true, [], Loaded(POST, 0));
    t := s.(procs := map[a := child]);
    assert [Publish(POST)][1..] == [];
    assert s.procs[a := child] == t.procs;
    LeadsBy(c, s, Step(a, Load));
  }

  lemma PassesGate(c: Config, s: State, a: int) returns (t: State)
    requires CanPost(c) && Posts(s, a, Waiting(a), Loaded(POST, 0))
    ensures Leads(c, s, t) && t == s.(procs := map[a := Child(0, true, [], Gated(POST, 0, 0))])
  {
    var child := Child(0, true, [], Gated(POST, 0, 0));
    t := s.(procs := map[a := child]);
    assert s.procs[a := child] == t.procs;
    assert PublishedSince(s.pub, a, DayStart(0)) == {};
    assert GateOpen(s.pub, a, POST, s.now, c.minInterval, c.dailyCap);
    LeadsBy(c, s, Step(a, Gate(c.minInterval, c.minInterval)));
  }

  lemma IsClaimed(c: Config, s: State, a: int) returns (t: State)
    requires Posts(s, a, Waiting(a), Gated(POST, 0, 0)) && s.sessions == []
    ensures Leads(c, s, t) && Posts(t, a, Claimed(a), Executing(POST, 0)) && t.sessions == [Session(a, Publish(POST), 0)]
    ensures t.underway == s.underway && t.pass == s.pass
  {
    t := Next(c, s, Step(a, ChildStep.ClaimPublish));
    var child := Child(0, true, [], Executing(POST, 0));
    assert s.procs[a := child] == map[a := child];
    assert s.pub[POST := Claimed(a)] == map[POST := Claimed(a)];
    LeadsBy(c, s, Step(a, ChildStep.ClaimPublish));
  }

  lemma PostIsExecuting(c: Config, a: int) returns (t: State)
    requires CanPost(c)
    ensures Reached(c, t) && Posts(t, a, Claimed(a), Executing(POST, 0)) && CancelRow(POST) in t.underway
    ensures t.sessions == [Session(a, Publish(POST), 0)] && t.pass.None?
  {
    var s := PostIsLoaded(c, a);
    var u := PassesGate(c, s, a);
    t := IsClaimed(c, u, a);
    LeadsThrough(c, s, u, t);
    StaysReached(c, s, t);
  }

  /** The cancel request writes while the post is going out. */
  lemma CancelComesLate(c: Config, a: int) returns (t: State)
    requires CanPost(c)
    ensures Reached(c, t) && Posts(t, a, Claimed(a).(status := Canceled), Executing(POST, 0))
    ensures t.sessions == [Session(a, Publish(POST), 0)] && t.pass.None?
  {
    var s := PostIsExecuting(c, a);
    var row := Claimed(a).(status := Canceled);
    t := Next(c, s, WriteCancel(POST));
    assert s.pub[POST := row] == map[POST := row];
    LeadsBy(c, s, WriteCancel(POST));
    StaysReached(c, s, t);
  }

  lemma GoneUncounted(c: Config, s: State, a: int, row: PublishRow, phase: Phase)
    requires CapsOn(c) && Reached(c, s) && Posts(s, a, row, phase) && s.pass.None? && s.sessions == [Session(a, Publish(POST), 0)]
    requires !CountsAsPublishSession(row, -WINDOW)
    ensures exists t, from :: Breaks(c, t, a, from)
  {
    DiesAndIsReaped(c, s, a, Child(0, true, [], phase));
    var t := s.(procs := map[]);
    StaysReached(c, s, t);
    NothingShown(t, a);
    UndercountBreaksTheCap(c, t, a);
  }

  /**
   Whatever the caps and the interval: a cancel request that read the post before its claim can write while it
   is going out. The row of the executing child is then not `publishing`, and the session is not counted.
   */
  lemma LateCancelEscapes(c: Config, a: int)
    requires CanPost(c)
    ensures exists s :: Reached(c, s) && Executes(s, a, POST) && Has(s.pub, POST, Canceled)
    ensures exists t, from :: Breaks(c, t, a, from)
  {
    var s := CancelComesLate(c, a);
    assert Reached(c, s) && Executes(s, a, POST) && Has(s.pub, POST, Canceled);
    GoneUncounted(c, s, a, Claimed(a).(status := Canceled), Executing(POST, 0));
  }

  lemma Fails(c: Config, s: State, a: int) returns (t: State)
    requires Posts(s, a, Claimed(a), Executing(POST, 0))
    ensures Leads(c, s, t) && Posts(t, a, Claimed(a).(status := Failed, startedAt := None), Closing(POST))
    ensures t.sessions == s.sessions && t.pass == s.pass
  {
    var result := Returned(false, true, false);
    var u := s.(procs := map[a := Child(0, true, [], Deciding(POST, 0, ToFailed, false))]);
    assert s.procs[a := u.procs[a]] == u.procs;
    LeadsBy(c, s, Step(a, Execute(result)));
    t := FailureIsWritten(c, u, a);
    LeadsThrough(c, s, u, t);
  }

  lemma FailureIsWritten(c: Config, s: State, a: int) returns (t: State)
    requires Posts(s, a, Claimed(a), Deciding(POST, 0, ToFailed, false))
    ensures Leads(c, s, t) && Posts(t, a, Claimed(a).(status := Failed, startedAt := None), Closing(POST))
    ensures t.sessions == s.sessions && t.pass == s.pass
  {
    t := Next(c, s, Step(a, Settle(Written, 0)));
    var child := Child(0, true, [], Closing(POST));
    assert s.procs[a := child] == map[a := child];
    var row := Claimed(a).(status := Failed, startedAt := None);
    assert s.pub[POST := row] == map[POST := row];
    LeadsBy(c, s, Step(a, Settle(Written, 0)));
  }

  /** Whatever the caps and the interval: the session of a failed publish is not counted. */
  lemma FailedPublishEscapes(c: Config, a: int)
    requires CanPost(c)
    ensures exists t, from :: Breaks(c, t, a, from)
  {
    var s := PostIsExecuting(c, a);
    var u := Fails(c, s, a);
    StaysReached(c, s, u);
    GoneUncounted(c, u, a, Claimed(a).(status := Failed, startedAt := None), Closing(POST));
  }
}
