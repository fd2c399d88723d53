/**
 The hourly session cap over whole runs. The supervisor counts table rows, not sessions: a session whose
 row was reset or canceled, or that began between a pass's count and its spawn, escapes the count.
 Everything else stays within the wider of the two caps in every trailing hour.
 */
module SessionWindow {
  import opened Collections
  import opened PublishLedger
  import opened Protocol
  import opened ProtocolSafety

  function Cap(c: Config): int { Max(c.caps.system, c.caps.operator) }

  /** Sessions of account `a` that began in the closed window of one hour from `from`. */
  function StartedIn(s: State, a: int, from: int): set<nat> {
    set i: nat | i < |s.sessions| && s.sessions[i].account == a && from <= s.sessions[i].start <= from + WINDOW
  }

  function Forgotten(s: State, a: int, from: int): set<nat> { StartedIn(s, a, from) * s.uncounted }

  function CountedIn(s: State, a: int, from: int): set<nat> { StartedIn(s, a, from) - s.uncounted }

  /** Counted sessions of `a` among the first `mark`, begun in the last hour. */
  function Recent(s: State, a: int, mark: nat): set<nat> {
    set i: nat | i < |s.sessions| && i < mark && i !in s.uncounted
                 && s.sessions[i].account == a && s.sessions[i].start >= s.now - WINDOW
  }

  /** How many sessions the child of `a` may still start. */
  function Owed(s: State, a: int): nat {
    if !Live(s, a) then 0
    else |s.procs[a].todo| + if s.procs[a].phase.Loaded? || s.procs[a].phase.Gated? then 1 else 0
  }

  /** A counted session still shows in the row of its job. */
  predicate Traced(s: State, i: nat) {
    i < |s.sessions| && i !in s.uncounted ==>
      var x := s.sessions[i];
      x.start <= s.now
      && match x.job
         case Publish(id) =>
           id in s.pub && s.pub[id].account == x.account && s.pub[id].startedAt == Some(x.start)
           && (s.pub[id].status == Publishing || s.pub[id].status == Published)
         case Browser(key) =>
           key in s.br && s.br[key].account == x.account
           && (s.br[key].status == Running
               || ((s.br[key].status == Done || s.br[key].status == Error) && s.br[key].updatedAt >= x.start))
  }

  predicate Separate(s: State, i: nat, k: nat) {
    i < k < |s.sessions| && i !in s.uncounted && k !in s.uncounted ==> s.sessions[i].job != s.sessions[k].job
  }

  predicate Budgeted(c: Config, s: State, a: int) { |Recent(s, a, |s.sessions|)| + Owed(s, a) <= Cap(c) }

  predicate CountsHold(s: State, a: int) {
    s.pass.Some? && a in s.pass.value.counts ==> |Recent(s, a, s.pass.value.mark)| <= s.pass.value.counts[a]
  }

  ghost predicate Windowed(c: Config, s: State) {
    && (forall i: nat :: Traced(s, i))
    && (forall i: nat, k: nat :: Separate(s, i, k))
    && (forall a :: Budgeted(c, s, a))
    && (forall a :: CountsHold(s, a))
    && (forall a, from :: |CountedIn(s, a, from)| <= Cap(c))
    && (s.pass.Some? ==> s.pass.value.mark <= |s.sessions|)
  }

  // ---- the count of a pass covers every counted session ----

  lemma CountedJobsDiffer(s: State, a: int, i: nat, k: nat)
    requires forall i: nat, k: nat :: Separate(s, i, k)
    requires i in Recent(s, a, |s.sessions|) && k in Recent(s, a, |s.sessions|) && s.sessions[i].job == s.sessions[k].job
    ensures i == k
  {
    assert Separate(s, i, k) && Separate(s, k, i);
  }

  lemma PostsAreCounted(s: State, a: int, posts: set<nat>)
    requires forall i: nat :: Traced(s, i)
    requires forall i: nat, k: nat :: Separate(s, i, k)
    requires posts == set i | i in Recent(s, a, |s.sessions|) && s.sessions[i].job.Publish?
    ensures |posts| <= |PublishSessions(s.pub, a, s.now - WINDOW)|
  {
    var sessions := s.sessions;
    var rowOf := (i: nat) => if i < |sessions| && sessions[i].job.Publish? then sessions[i].job.id else 0;
    forall i | i in posts ensures rowOf(i) in PublishSessions(s.pub, a, s.now - WINDOW) { assert Traced(s, i); }
    forall i, k | i in posts && k in posts && rowOf(i) == rowOf(k) ensures i == k { CountedJobsDiffer(s, a, i, k); }
    CardInjection(posts, PublishSessions(s.pub, a, s.now - WINDOW), rowOf);
  }

  lemma BrowserJobsAreCounted(s: State, a: int, jobs: set<nat>)
    requires forall i: nat :: Traced(s, i)
    requires forall i: nat, k: nat :: Separate(s, i, k)
    requires jobs == set i | i in Recent(s, a, |s.sessions|) && s.sessions[i].job.Browser?
    ensures |jobs| <= |BrowserSessions(s.br, a, s.now - WINDOW)|
  {
    var sessions := s.sessions;
    var rowOf := (i: nat) => if i < |sessions| && sessions[i].job.Browser? then sessions[i].job.key else "";
    forall i | i in jobs ensures rowOf(i) in BrowserSessions(s.br, a, s.now - WINDOW) { assert Traced(s, i); }
    forall i, k | i in jobs && k in jobs && rowOf(i) == rowOf(k) ensures i == k { CountedJobsDiffer(s, a, i, k); }
    CardInjection(jobs, BrowserSessions(s.br, a, s.now - WINDOW), rowOf);
  }

  lemma TwoKinds(sessions: seq<Session>, all: set<nat>)
    requires forall i | i in all :: i < |sessions|
    ensures |all| == |set i | i in all && sessions[i].job.Publish?| + |set i | i in all && sessions[i].job.Browser?|
  {
    var posts := set i | i in all && sessions[i].job.Publish?;
    var jobs := set i | i in all && sessions[i].job.Browser?;
    assert all == posts + jobs && posts !! jobs;
  }

  /** Every counted session of the last hour has its own row among those that the supervisor counts. */
  lemma CountCoversSessions(s: State, a: int)
    requires forall i: nat :: Traced(s, i)
    requires forall i: nat, k: nat :: Separate(s, i, k)
    ensures |Recent(s, a, |s.sessions|)| <= RecentSessions(s.pub, s.br, a, s.now)
  {
    var all := Recent(s, a, |s.sessions|);
    PostsAreCounted(s, a, set i | i in all && s.sessions[i].job.Publish?);
    BrowserJobsAreCounted(s, a, set i | i in all && s.sessions[i].job.Browser?);
    TwoKinds(s.sessions, all);
  }

  // ---- sets only shrink unless a session starts ----

  /** `t` has the same sessions as `s`, forgets no less, and is no earlier. */
  ghost predicate NoStart(s: State, t: State) {
    t.sessions == s.sessions && s.uncounted <= t.uncounted && s.now <= t.now
  }

  lemma NoStartShrinks(s: State, t: State, a: int, mark: nat, from: int)
    requires NoStart(s, t)
    ensures |Recent(t, a, mark)| <= |Recent(s, a, mark)|
    ensures |CountedIn(t, a, from)| <= |CountedIn(s, a, from)|
  {
    CardSubset(Recent(t, a, mark), Recent(s, a, mark));
    CardSubset(CountedIn(t, a, from), CountedIn(s, a, from));
  }

  lemma SuperviseStartsNone(c: Config, s: State, act: Action)
    requires !act.Step? && Enabled(c, s, act)
    ensures NoStart(s, Supervise(c, s, act))
  {
  }

  // ---- traces ----

  lemma CancelKeepsTrace(s: State, id: int, i: nat)
    requires id in s.pub && Traced(s, i)
    ensures Traced(DoWriteCancel(s, id), i)
  {
  }

  lemma RecoveryKeepsTrace(c: Config, s: State, i: nat)
    requires Traced(s, i)
    ensures Traced(DoRecoverPublish(s, c), i)
  {
  }

  lemma ResetKeepsTrace(s: State, key: string, i: nat)
    requires key in s.br && Traced(s, i)
    ensures Traced(DoRecoverBrowser(s, key), i)
  {
  }

  lemma SuperviseKeepsTrace(c: Config, s: State, act: Action, i: nat)
    requires !act.Step? && Enabled(c, s, act) && Traced(s, i)
    ensures Traced(Supervise(c, s, act), i)
  {
    match act
    case Tick(_) =>
    case SubmitPublish(_, _) =>
    case SubmitBrowser(_, _, _) =>
    case ReadCancel(_) =>
    case WriteCancel(id) => CancelKeepsTrace(s, id, i);
    case RecoverPublish => RecoveryKeepsTrace(c, s, i);
    case ReadStale(_) =>
    case RecoverBrowser(key) => ResetKeepsTrace(s, key, i);
    case BeginPass(_) =>
    case HandleAccount(_, _) =>
    case EndPass =>
  }

  lemma PerformKeepsTrace(c: Config, s: State, a: int, pid: nat, st: Statement, i: nat)
    requires Traced(s, i) && StatementOk(c, s, a, st) && (st.FinishKey? ==> st.status == Done || st.status == Error)
    ensures Traced(Perform(s, a, pid, st), i)
  {
    match st
    case Nothing =>
    case DeferRow(_, _) =>
    case ClaimRow(_) =>
    case VerdictRow(_, _, _) =>
    case RequeueRow(_, _) =>
    case ClaimKey(_) =>
    case BeatKey(_) =>
    case FinishKey(_, _) =>
  }

  lemma PerformKeepsSeparate(s: State, a: int, pid: nat, st: Statement, i: nat, k: nat)
    requires Separate(s, i, k) && Traced(s, i)
    ensures Separate(Perform(s, a, pid, st), i, k)
  {
    match st
    case Nothing =>
    case DeferRow(_, _) =>
    case ClaimRow(_) =>
    case VerdictRow(_, _, _) =>
    case RequeueRow(_, _) =>
    case ClaimKey(_) =>
    case BeatKey(_) =>
    case FinishKey(_, _) =>
  }

  // ---- a session starts ----

  /** `t` is `s` after account `a` claimed a job. */
  ghost predicate OneStart(s: State, t: State, a: int) {
    t.now == s.now && t.uncounted == s.uncounted && t.pass == s.pass
    && |t.sessions| == |s.sessions| + 1 && t.sessions[..|s.sessions|] == s.sessions
    && t.sessions[|s.sessions|].account == a && t.sessions[|s.sessions|].start == s.now
  }

  lemma PerformStartsOne(s: State, a: int, pid: nat, st: Statement)
    ensures var t := Perform(s, a, pid, st); NoStart(s, t) || OneStart(s, t, a)
    ensures (st == Nothing || st.DeferRow? || st.VerdictRow? || st.RequeueRow? || st.BeatKey? || st.FinishKey?)
            ==> NoStart(s, Perform(s, a, pid, st))
  {
  }

  lemma OneStartGrows(s: State, t: State, a: int, b: int)
    requires OneStart(s, t, a)
    ensures |Recent(t, b, |t.sessions|)| <= |Recent(s, b, |s.sessions|)| + if a == b then 1 else 0
    ensures forall mark: nat | mark <= |s.sessions| :: Recent(t, b, mark) == Recent(s, b, mark)
  {
    var n: nat := |s.sessions|;
    assert forall i: nat | i < n :: t.sessions[i] == t.sessions[..n][i];
    var more := Recent(s, b, n) + if a == b then {n} else {};
    assert Recent(t, b, |t.sessions|) <= more;
    CardSubset(Recent(t, b, |t.sessions|), more);
    forall mark: nat | mark <= n ensures Recent(t, b, mark) == Recent(s, b, mark) {}
  }

  /** A window that gains the new session lies within the last hour, where the budget already bounds it. */
  lemma OneStartInWindow(c: Config, s: State, t: State, a: int, b: int, from: int)
    requires OneStart(s, t, a)
    requires |CountedIn(s, b, from)| <= Cap(c) && |Recent(t, b, |t.sessions|)| <= Cap(c)
    ensures |CountedIn(t, b, from)| <= Cap(c)
  {
    var n: nat := |s.sessions|;
    assert forall i: nat | i < n :: t.sessions[i] == t.sessions[..n][i];
    if n in CountedIn(t, b, from) {
      assert CountedIn(t, b, from) <= Recent(t, b, |t.sessions|);
      CardSubset(CountedIn(t, b, from), Recent(t, b, |t.sessions|));
    } else {
      assert CountedIn(t, b, from) <= CountedIn(s, b, from);
      CardSubset(CountedIn(t, b, from), CountedIn(s, b, from));
    }
  }

  /** A child pays for each session it starts: what it owes drops by one. */
  lemma StepPays(c: Config, s: State, a: int, step: ChildStep)
    requires StepEnabled(c, s, a, step)
    ensures Owed(DoStep(c, s, a, step), a) + (|DoStep(c, s, a, step).sessions| - |s.sessions|) <= Owed(s, a)
  {
  }

  lemma StepKeepsOwedOfOthers(c: Config, s: State, a: int, step: ChildStep, b: int)
    requires StepEnabled(c, s, a, step) && a != b
    ensures Owed(DoStep(c, s, a, step), b) == Owed(s, b)
  {
    StepKeepsOtherChildren(c, s, a, step, b);
  }

  // ---- preservation ----

  lemma StepStarts(c: Config, s: State, a: int, step: ChildStep)
    requires StepEnabled(c, s, a, step)
    ensures NoStart(s, DoStep(c, s, a, step)) || OneStart(s, DoStep(c, s, a, step), a)
    ensures DoStep(c, s, a, step).pass == s.pass
  {
    StepTakesNoTime(c, s, a, step);
    if !step.Reap? {
      PerformStartsOne(s.(procs := s.procs[a := Control(c, s, a, step)]), a, s.procs[a].pid, Issued(c, s, a, step));
    }
  }

  lemma StepKeepsTraces(c: Config, s: State, a: int, step: ChildStep, i: nat, k: nat)
    requires Safe(c, s) && StepEnabled(c, s, a, step) && Traced(s, i) && Separate(s, i, k)
    ensures Traced(DoStep(c, s, a, step), i) && Separate(DoStep(c, s, a, step), i, k)
  {
    if !step.Reap? {
      var t := s.(procs := s.procs[a := Control(c, s, a, step)]);
      var pid, st := s.procs[a].pid, Issued(c, s, a, step);
      assert ChildOk(c, s, a);
      IssuedIsOk(c, s, a, step);
      assert StatementOk(c, t, a, st);
      assert Traced(t, i) && Separate(t, i, k);
      PerformKeepsTrace(c, t, a, pid, st, i);
      PerformKeepsSeparate(t, a, pid, st, i, k);
    }
  }

  lemma StepKeepsBudget(c: Config, s: State, a: int, step: ChildStep, b: int)
    requires StepEnabled(c, s, a, step) && Budgeted(c, s, b)
    ensures Budgeted(c, DoStep(c, s, a, step), b)
  {
    var t := DoStep(c, s, a, step);
    StepStarts(c, s, a, step);
    StepPays(c, s, a, step);
    if a != b { StepKeepsOwedOfOthers(c, s, a, step, b); }
    if NoStart(s, t) { NoStartShrinks(s, t, b, |s.sessions|, 0); } else { OneStartGrows(s, t, a, b); }
  }

  lemma StepKeepsWindowed(c: Config, s: State, a: int, step: ChildStep)
    requires Safe(c, s) && Windowed(c, s) && StepEnabled(c, s, a, step)
    ensures Windowed(c, DoStep(c, s, a, step))
  {
    var t := DoStep(c, s, a, step);
    StepStarts(c, s, a, step);
    forall i: nat ensures Traced(t, i) {
      assert Traced(s, i);
      StepKeepsTraces(c, s, a, step, i, i);
    }
    forall i: nat, k: nat ensures Separate(t, i, k) {
      assert Traced(s, i) && Separate(s, i, k);
      StepKeepsTraces(c, s, a, step, i, k);
    }
    forall b ensures Budgeted(c, t, b) {
      assert Budgeted(c, s, b);
      StepKeepsBudget(c, s, a, step, b);
    }
    forall b ensures CountsHold(t, b) {
      assert CountsHold(s, b);
      if s.pass.Some? {
        if NoStart(s, t) { NoStartShrinks(s, t, b, s.pass.value.mark, 0); } else { OneStartGrows(s, t, a, b); }
      }
    }
    forall b, from ensures |CountedIn(t, b, from)| <= Cap(c) {
      assert |CountedIn(s, b, from)| <= Cap(c);
      assert Budgeted(c, t, b);
      if NoStart(s, t) { NoStartShrinks(s, t, b, 0, from); } else { OneStartInWindow(c, s, t, a, b, from); }
    }
  }

  lemma FreshPassCounts(s: State, work: map<int, seq<Item>>, a: int)
    requires forall i: nat :: Traced(s, i)
    requires forall i: nat, k: nat :: Separate(s, i, k)
    ensures CountsHold(DoBeginPass(s, work), a)
  {
    CountCoversSessions(s, a);
    var t := DoBeginPass(s, work);
    assert Recent(t, a, |s.sessions|) == Recent(s, a, |s.sessions|);
  }

  lemma SpawnOwes(c: Config, s: State, act: Action, a: int)
    requires Spawns(c, s, act, a)
    ensures var t := Supervise(c, s, act);
            Owed(t, a) == |act.todo| && Recent(t, a, |t.sessions|) <= Recent(s, a, s.pass.value.mark)
  {
  }

  /** A fresh child owes its whole batch, and the batch was cut to what the pass's count left over. */
  lemma SpawnStaysInBudget(c: Config, s: State, act: Action, a: int)
    requires c.caps.system > 0 && c.caps.operator > 0
    requires Spawns(c, s, act, a) && CountsHold(s, a)
    ensures Budgeted(c, Supervise(c, s, act), a)
  {
    var t, p := Supervise(c, s, act), s.pass.value;
    var queue := p.work[a];
    c.caps.KeptWithinCap(if |queue| <= c.batch then queue else queue[..c.batch], p.counts[a]);
    SpawnOwes(c, s, act, a);
    CardSubset(Recent(t, a, |t.sessions|), Recent(s, a, p.mark));
  }

  lemma SuperviseKeepsBudget(c: Config, s: State, act: Action, a: int)
    requires c.caps.system > 0 && c.caps.operator > 0
    requires !act.Step? && Enabled(c, s, act) && Budgeted(c, s, a) && CountsHold(s, a)
    ensures Budgeted(c, Supervise(c, s, act), a)
  {
    var t := Supervise(c, s, act);
    if Spawns(c, s, act, a) {
      SpawnStaysInBudget(c, s, act, a);
    } else {
      ChildrenChangeOnlyThemselves(c, s, act, a);
      assert t == Next(c, s, act);
      SuperviseStartsNone(c, s, act);
      NoStartShrinks(s, t, a, |s.sessions|, 0);
    }
  }

  lemma SuperviseKeepsWindowed(c: Config, s: State, act: Action)
    requires c.caps.system > 0 && c.caps.operator > 0
    requires !act.Step? && Enabled(c, s, act) && Windowed(c, s)
    ensures Windowed(c, Supervise(c, s, act))
  {
    var t := Supervise(c, s, act);
    SuperviseStartsNone(c, s, act);
    forall i: nat ensures Traced(t, i) {
      assert Traced(s, i);
      SuperviseKeepsTrace(c, s, act, i);
    }
    forall i: nat, k: nat ensures Separate(t, i, k) { assert Separate(s, i, k); }
    forall a ensures Budgeted(c, t, a) {
      assert Budgeted(c, s, a) && CountsHold(s, a);
      SuperviseKeepsBudget(c, s, act, a);
    }
    forall a, from ensures |CountedIn(t, a, from)| <= Cap(c) {
      assert |CountedIn(s, a, from)| <= Cap(c);
      NoStartShrinks(s, t, a, 0, from);
    }
    if act.BeginPass? {
      forall a ensures CountsHold(t, a) { FreshPassCounts(s, act.work, a); }
    } else if t.pass.Some? {
      PassStays(c, s, act);
      forall a ensures CountsHold(t, a) {
        assert CountsHold(s, a);
        NoStartShrinks(s, t, a, t.pass.value.mark, 0);
      }
    }
  }

  lemma {:induction false} RunIsWindowed(c: Config, acts: seq<Action>)
    requires c.caps.system > 0 && c.caps.operator > 0
    ensures Windowed(c, Run(c, acts))
  {
    if acts == [] {
      forall a ensures Budgeted(c, INIT, a) { assert Recent(INIT, a, 0) == {}; }
      forall a, from ensures |CountedIn(INIT, a, from)| <= Cap(c) { assert CountedIn(INIT, a, from) == {}; }
    } else {
      var s, act := Run(c, acts[..|acts| - 1]), acts[|acts| - 1];
      RunIsWindowed(c, acts[..|acts| - 1]);
      RunIsSafe(c, acts[..|acts| - 1]);
      if Enabled(c, s, act) {
        if act.Step? { StepKeepsWindowed(c, s, act.child, act.step); } else { SuperviseKeepsWindowed(c, s, act); }
      }
    }
  }

  // ---- main results ----

  /**
   In every reachable state, every window of one hour holds at most as many sessions of an account as the
   wider cap allows, plus the sessions in that window that escaped the count.
   */
  lemma HourlySessionsAreBounded(c: Config, s: State, a: int, from: int)
    requires Reached(c, s) && c.caps.system > 0 && c.caps.operator > 0
    ensures |StartedIn(s, a, from)| <= Cap(c) + |Forgotten(s, a, from)|
  {
    var acts :| Run(c, acts) == s;
    RunIsWindowed(c, acts);
    assert StartedIn(s, a, from) == CountedIn(s, a, from) + Forgotten(s, a, from);
    assert |CountedIn(s, a, from)| <= Cap(c);
  }

  /**
   An action that lets no session escape: it takes no row back, or out of sight, that shows a session, and
   gives a child only to an account that started no session since the pass counted.
   */
  ghost predicate Remembers(c: Config, s: State, act: Action) {
    match act
    case WriteCancel(id) => id in s.pub ==> !InHand(s.pub[id])
    case RecoverPublish => forall id | id in s.pub :: !Stale(s.pub[id], s.now - c.publishTimeout, LiveAccounts(s))
    case RecoverBrowser(key) => key in s.br && s.br[key].rerunnable ==> s.br[key].status == Queued
    case HandleAccount(spawns, _) => spawns && HasNext(s) && Handle(s, c).Go? ==> Raced(s, NextAccount(s), s.pass.value.mark) == {}
    case Step(a, Settle(outcome, _)) =>
      Live(s, a) && s.procs[a].phase.Deciding? && Has(s.pub, s.procs[a].phase.id, Publishing) ==>
        outcome == NotWritten || s.procs[a].phase.verdict.ToPublished?
    case Step(a, Close(written, _)) =>
      Live(s, a) && s.procs[a].phase.Closing? ==> !written || !Has(s.pub, s.procs[a].phase.id, Publishing)
    case _ => true
  }

  lemma StepRemembers(c: Config, s: State, a: int, step: ChildStep)
    requires StepEnabled(c, s, a, step) && Remembers(c, s, Step(a, step))
    ensures DoStep(c, s, a, step).uncounted == s.uncounted
  {
  }

  lemma SuperviseRemembers(c: Config, s: State, act: Action)
    requires !act.Step? && Enabled(c, s, act) && Remembers(c, s, act)
    ensures Supervise(c, s, act).uncounted == s.uncounted
  {
    match act
    case WriteCancel(_) =>
    case RecoverPublish =>
    case RecoverBrowser(_) =>
    case BeginPass(_) =>
    case HandleAccount(_, _) =>
    case EndPass =>
    case _ =>
  }

  ghost predicate AlwaysRemembers(c: Config, acts: seq<Action>) {
    forall k | 0 <= k < |acts| :: Remembers(c, Run(c, acts[..k]), acts[k])
  }

  lemma {:induction false} NothingEscapes(c: Config, acts: seq<Action>)
    requires AlwaysRemembers(c, acts)
    ensures Run(c, acts).uncounted == {}
  {
    if acts != [] {
      var before := acts[..|acts| - 1];
      forall k | 0 <= k < |before| ensures Remembers(c, Run(c, before[..k]), before[k]) {
        assert before[..k] == acts[..k];
      }
      NothingEscapes(c, before);
      var s, act := Run(c, before), acts[|acts| - 1];
      if Enabled(c, s, act) {
        if act.Step? { StepRemembers(c, s, act.child, act.step); } else { SuperviseRemembers(c, s, act); }
      }
    }
  }

  /** `s` is the state after a run in which no session escapes the count. */
  ghost predicate ReachedRemembering(c: Config, s: State) { exists acts :: AlwaysRemembers(c, acts) && Run(c, acts) == s }

  /** Without escapes the wider cap holds in every hour. */
  lemma HourlyCapHolds(c: Config, s: State, a: int, from: int)
    requires ReachedRemembering(c, s) && c.caps.system > 0 && c.caps.operator > 0
    ensures |StartedIn(s, a, from)| <= Cap(c)
  {
    var acts :| AlwaysRemembers(c, acts) && Run(c, acts) == s;
    NothingEscapes(c, acts);
    HourlySessionsAreBounded(c, s, a, from);
    assert Forgotten(s, a, from) == {};
  }
}
