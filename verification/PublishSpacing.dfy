/**
 Over whole runs, the posts of one account keep the minimum interval and the daily cap, although retries
 and crash recovery clear `started_at`, the gate and the claim are separate statements, and a late cancel
 takes a started row out of the gate's sight.
 */
module PublishSpacing {
  import opened Collections
  import opened PublishLedger
  import opened Protocol
  import opened ProtocolSafety

  function DayOf(t: int): int { t / DAY }

  function PublishedOn(p: PublishTable, a: int, day: int): set<int> {
    set id | id in p && p[id].account == a && p[id].status == Published
             && p[id].startedAt.Some? && DayOf(p[id].startedAt.value) == day
  }

  predicate Apart(c: Config, p: PublishTable, a: int, i: int, j: int) {
    i != j && Started(p, a, i) && Started(p, a, j)
    ==> p[i].startedAt.value - p[j].startedAt.value >= c.minInterval
        || p[j].startedAt.value - p[i].startedAt.value >= c.minInterval
  }

  /** What a passed gate still guarantees when the claim comes. */
  predicate GateHolds(c: Config, p: PublishTable, a: int, id: int, gatedAt: int) {
    && (forall i | i in p ::
          i != id && Started(p, a, i) ==>
          p[i].startedAt.value <= gatedAt && gatedAt - p[i].startedAt.value >= c.minInterval)
    && |PublishedSince(p, a, DayStart(gatedAt))| < c.dailyCap
  }

  /** There is room under the cap on the day the claimed row started. */
  predicate RoomFor(c: Config, p: PublishTable, a: int, id: int) {
    id in p && p[id].startedAt.Some? ==> |PublishedOn(p, a, DayOf(p[id].startedAt.value))| < c.dailyCap
  }

  predicate PhasePaced(c: Config, p: PublishTable, a: int, phase: Phase) {
    match phase
    case Gated(id, _, at) => GateHolds(c, p, a, id, at)
    case Executing(id, _) => RoomFor(c, p, a, id)
    case Deciding(id, _, _, fallback) => !fallback ==> RoomFor(c, p, a, id)
    case _ => true
  }

  predicate ChildPaced(c: Config, s: State, a: int) { Live(s, a) ==> PhasePaced(c, s.pub, a, s.procs[a].phase) }

  ghost predicate Paced(c: Config, s: State) {
    && (forall a, i, j :: Apart(c, s.pub, a, i, j))
    && (forall a, day :: |PublishedOn(s.pub, a, day)| <= Max(0, c.dailyCap))
    && (forall a :: ChildPaced(c, s, a))
  }

  // ---- what the statements do to started and published rows ----

  /** `q` starts no row that `p` did not, and moves no start. */
  ghost predicate StartsNothing(p: PublishTable, q: PublishTable) {
    forall a, i | Started(q, a, i) :: Started(p, a, i) && p[i].startedAt == q[i].startedAt
  }

  ghost predicate PublishesNothing(p: PublishTable, q: PublishTable) {
    forall i | i in q && q[i].status == Published :: i in p && p[i] == q[i]
  }

  /** The rows of account `a` are the same, apart from new pending ones and canceled ones. */
  ghost predicate CancelsAtMost(p: PublishTable, q: PublishTable, a: int) {
    && (forall i | i in p && p[i].account == a :: i in q && (q[i] == p[i] || q[i] == p[i].(status := Canceled)))
    && (forall i | i in q && q[i].account == a :: i in p || (q[i].status == PublishStatus.Pending && q[i].startedAt.None?))
    && (forall i | i in q && q[i].account == a && i in p :: p[i].account == a)
  }

  lemma SuperviseStartsNothing(c: Config, s: State, act: Action)
    requires !act.Step? && Enabled(c, s, act)
    ensures StartsNothing(s.pub, Supervise(c, s, act).pub) && PublishesNothing(s.pub, Supervise(c, s, act).pub)
  {
    SupervisePub(c, s, act);
  }

  lemma PerformStarts(c: Config, s: State, a: int, pid: nat, st: Statement)
    requires forall id | id in s.pub :: RowOk(c, s.now, s.pub[id])
    ensures !st.ClaimRow? ==> StartsNothing(s.pub, Perform(s, a, pid, st).pub)
    ensures !(st.VerdictRow? && st.verdict.ToPublished?) ==> PublishesNothing(s.pub, Perform(s, a, pid, st).pub)
  {
  }

  lemma NewRowsArePending(c: Config, s: State, act: Action, id: int)
    requires id in Next(c, s, act).pub && id !in s.pub
    ensures Next(c, s, act).pub[id].status == PublishStatus.Pending && Next(c, s, act).pub[id].startedAt.None?
  {
    if Enabled(c, s, act) {
      if act.Step? { StepAddsNoRow(c, s, act.child, act.step, id); } else { SupervisorAddsPending(c, s, act, id); }
    }
  }

  lemma StepAddsNoRow(c: Config, s: State, a: int, step: ChildStep, id: int)
    requires StepEnabled(c, s, a, step) && id in DoStep(c, s, a, step).pub
    ensures id in s.pub
  {
  }

  lemma SupervisorAddsPending(c: Config, s: State, act: Action, id: int)
    requires !act.Step? && Enabled(c, s, act) && id in Supervise(c, s, act).pub && id !in s.pub
    ensures Supervise(c, s, act).pub[id].status == PublishStatus.Pending && Supervise(c, s, act).pub[id].startedAt.None?
  {
    SupervisePub(c, s, act);
  }

  /** While an account has a live child, others do no more to the account's rows than cancel them. */
  lemma OthersCancelAtMost(c: Config, s: State, act: Action, a: int)
    requires Safe(c, s) && Live(s, a) && !(act.Step? && act.child == a)
    ensures CancelsAtMost(s.pub, Next(c, s, act).pub, a)
  {
    var q := Next(c, s, act).pub;
    forall i | i in s.pub && s.pub[i].account == a ensures i in q && (q[i] == s.pub[i] || q[i] == s.pub[i].(status := Canceled)) {
      RowChangesOnlyByOwner(c, s, act, i);
    }
    forall i | i in q && i !in s.pub ensures q[i].status == PublishStatus.Pending && q[i].startedAt.None? {
      NewRowsArePending(c, s, act, i);
    }
    forall i | i in q && i in s.pub ensures s.pub[i].account == q[i].account {
      AccountStays(c, s, act, Publish(i));
      assert JobAccount(s, Publish(i)) == Some(s.pub[i].account);
    }
  }

  lemma PublishedOnFewer(p: PublishTable, q: PublishTable, a: int, day: int)
    requires PublishesNothing(p, q)
    ensures |PublishedOn(q, a, day)| <= |PublishedOn(p, a, day)|
  {
    forall id: int | id in PublishedOn(q, a, day) ensures id in PublishedOn(p, a, day) {}
    CardSubset(PublishedOn(q, a, day), PublishedOn(p, a, day));
  }

  lemma CancelsKeepGate(c: Config, p: PublishTable, q: PublishTable, a: int, id: int, at: int)
    requires CancelsAtMost(p, q, a) && GateHolds(c, p, a, id, at)
    ensures GateHolds(c, q, a, id, at)
  {
    forall i | i in q && i != id && Started(q, a, i)
      ensures q[i].startedAt.value <= at && at - q[i].startedAt.value >= c.minInterval
    {
      assert Started(p, a, i);
    }
    forall i: int | i in PublishedSince(q, a, DayStart(at)) ensures i in PublishedSince(p, a, DayStart(at)) {}
    CardSubset(PublishedSince(q, a, DayStart(at)), PublishedSince(p, a, DayStart(at)));
  }

  lemma CancelsKeepRoom(c: Config, p: PublishTable, q: PublishTable, a: int, id: int)
    requires CancelsAtMost(p, q, a) && id in p && p[id].account == a && RoomFor(c, p, a, id)
    ensures RoomFor(c, q, a, id)
  {
    if p[id].startedAt.Some? {
      var day := DayOf(p[id].startedAt.value);
      forall i: int | i in PublishedOn(q, a, day) ensures i in PublishedOn(p, a, day) {}
      CardSubset(PublishedOn(q, a, day), PublishedOn(p, a, day));
    }
  }

  // ---- gate, claim, finish ----

  lemma OpenGateHolds(c: Config, s: State, a: int, id: int, interval: int)
    requires forall i | i in s.pub :: RowOk(c, s.now, s.pub[i])
    requires c.minInterval <= interval && GateOpen(s.pub, a, id, s.now, interval, c.dailyCap)
    ensures GateHolds(c, s.pub, a, id, s.now)
  {
    forall i | i in s.pub && i != id && Started(s.pub, a, i)
      ensures s.pub[i].startedAt.value <= s.now && s.now - s.pub[i].startedAt.value >= c.minInterval
    {
      assert RowOk(c, s.now, s.pub[i]);
    }
  }

  /** At the claim the new start keeps its distance, and its day has room: either the gate's day or an empty one. */
  lemma ClaimLeavesRoom(c: Config, p: PublishTable, a: int, id: int, gatedAt: int, now: int)
    requires 0 <= gatedAt <= now
    requires id in p && p[id].account == a && p[id].status == PublishStatus.Pending && p[id].startedAt.None?
    requires GateHolds(c, p, a, id, gatedAt)
    ensures RoomFor(c, Claim(p, id, now), a, id)
  {
    var q := Claim(p, id, now);
    PublishedOnFewer(p, q, a, DayOf(now));
    var on := PublishedOn(p, a, DayOf(now));
    if DayOf(now) == DayOf(gatedAt) {
      forall i: int | i in on ensures i in PublishedSince(p, a, DayStart(gatedAt)) {}
      CardSubset(on, PublishedSince(p, a, DayStart(gatedAt)));
    } else {
      forall i: int ensures i !in on {}
      assert on == {};
    }
  }

  lemma ClaimKeepsApart(c: Config, p: PublishTable, a: int, id: int, gatedAt: int, now: int)
    requires gatedAt <= now && Has(p, id, PublishStatus.Pending) && p[id].account == a && GateHolds(c, p, a, id, gatedAt)
    requires forall b, i, j :: Apart(c, p, b, i, j)
    ensures forall b, i, j :: Apart(c, Claim(p, id, now), b, i, j)
  {
    forall b, i, j ensures Apart(c, Claim(p, id, now), b, i, j) {
      assert Apart(c, p, b, i, j);
      assert (i != id && Started(Claim(p, id, now), b, i) ==> Started(p, b, i))
             && (j != id && Started(Claim(p, id, now), b, j) ==> Started(p, b, j));
    }
  }

  lemma FinishKeepsCap(c: Config, p: PublishTable, a: int, id: int, b: int, day: int)
    requires id in p && p[id].account == a && RoomFor(c, p, a, id)
    requires |PublishedOn(p, b, day)| <= Max(0, c.dailyCap)
    ensures |PublishedOn(Finish(p, id), b, day)| <= Max(0, c.dailyCap)
  {
    var q := Finish(p, id);
    if Has(p, id, Publishing) && p[id].startedAt.Some? && b == a && day == DayOf(p[id].startedAt.value) {
      assert PublishedOn(q, b, day) == PublishedOn(p, b, day) + {id};
    } else {
      assert PublishedOn(q, b, day) == PublishedOn(p, b, day);
    }
  }

  // ---- preservation ----

  lemma StartsNothingKeepsApart(c: Config, p: PublishTable, q: PublishTable)
    requires StartsNothing(p, q) && forall a, i, j :: Apart(c, p, a, i, j)
    ensures forall a, i, j :: Apart(c, q, a, i, j)
  {
    forall a, i, j ensures Apart(c, q, a, i, j) { assert Apart(c, p, a, i, j); }
  }

  lemma KeepsOtherPace(c: Config, s: State, act: Action, b: int)
    requires Safe(c, s) && ChildPaced(c, s, b) && !(act.Step? && act.child == b)
    ensures ChildPaced(c, Next(c, s, act), b)
  {
    ChildrenChangeOnlyThemselves(c, s, act, b);
    if Live(s, b) {
      assert ChildOk(c, s, b);
      OthersCancelAtMost(c, s, act, b);
      var q := Next(c, s, act).pub;
      match s.procs[b].phase
      case Gated(id, _, at) => CancelsKeepGate(c, s.pub, q, b, id, at);
      case Executing(id, _) => CancelsKeepRoom(c, s.pub, q, b, id);
      case Deciding(id, _, _, fallback) => if !fallback { CancelsKeepRoom(c, s.pub, q, b, id); }
      case _ =>
    }
  }

  lemma OwnGate(c: Config, s: State, a: int, interval: int, delay: int)
    requires Safe(c, s) && StepEnabled(c, s, a, Gate(interval, delay))
    ensures PhasePaced(c, s.pub, a, Control(c, s, a, Gate(interval, delay)).phase)
    ensures Control(c, s, a, Gate(interval, delay)).phase.Gated? ==> Issued(c, s, a, Gate(interval, delay)) == Nothing
  {
    var id := s.procs[a].phase.id;
    if GateOpen(s.pub, a, id, s.now, interval, c.dailyCap) { OpenGateHolds(c, s, a, id, interval); }
  }

  lemma OwnClaim(c: Config, s: State, a: int)
    requires Safe(c, s) && ChildPaced(c, s, a) && StepEnabled(c, s, a, ChildStep.ClaimPublish) && 0 <= s.procs[a].phase.gatedAt
    ensures PhasePaced(c, Claim(s.pub, s.procs[a].phase.id, s.now), a, Control(c, s, a, ChildStep.ClaimPublish).phase)
  {
    var ph := s.procs[a].phase;
    assert ChildOk(c, s, a);
    if Has(s.pub, ph.id, PublishStatus.Pending) {
      assert RowOk(c, s.now, s.pub[ph.id]);
      ClaimLeavesRoom(c, s.pub, a, ph.id, ph.gatedAt, s.now);
    }
  }

  /** Of the other steps only `Execute` ends in a phase with a duty, and it touches no row. */
  lemma OwnOther(c: Config, s: State, a: int, step: ChildStep)
    requires StepEnabled(c, s, a, step) && !step.Gate? && !step.ClaimPublish?
    requires Control(c, s, a, step).alive && Live(s, a) && PhasePaced(c, s.pub, a, s.procs[a].phase)
    ensures PhasePaced(c, s.pub, a, Control(c, s, a, step).phase)
    ensures Issued(c, s, a, step) == Nothing || step.Beat? || forall q :: PhasePaced(c, q, a, Control(c, s, a, step).phase)
  {
  }

  lemma StepIssues(c: Config, s: State, a: int, step: ChildStep)
    requires StepEnabled(c, s, a, step) && !step.Reap?
    ensures Issued(c, s, a, step) == Nothing || step.Beat? ==> DoStep(c, s, a, step).pub == s.pub
    ensures step.ClaimPublish? ==> DoStep(c, s, a, step).pub == Claim(s.pub, s.procs[a].phase.id, s.now)
  {
  }

  lemma OwnPhase(c: Config, s: State, a: int, step: ChildStep)
    requires Safe(c, s) && ChildPaced(c, s, a) && StepEnabled(c, s, a, step) && !step.Reap? && Control(c, s, a, step).alive
    requires s.procs[a].phase.Gated? ==> 0 <= s.procs[a].phase.gatedAt
    ensures PhasePaced(c, DoStep(c, s, a, step).pub, a, Control(c, s, a, step).phase)
  {
    StepIssues(c, s, a, step);
    match step
    case Gate(interval, delay) => OwnGate(c, s, a, interval, delay);
    case ClaimPublish => OwnClaim(c, s, a);
    case _ => OwnOther(c, s, a, step);
  }

  lemma KeepsOwnPace(c: Config, s: State, a: int, step: ChildStep)
    requires Safe(c, s) && ChildPaced(c, s, a) && StepEnabled(c, s, a, step)
    requires Live(s, a) && s.procs[a].phase.Gated? ==> 0 <= s.procs[a].phase.gatedAt
    ensures ChildPaced(c, DoStep(c, s, a, step), a)
  {
    if !step.Reap? {
      StepControls(c, s, a, step);
      if Control(c, s, a, step).alive { OwnPhase(c, s, a, step); }
    }
  }

  /** The child that finishes a post has room for it, and the one that claims has passed its gate. */
  lemma IssuedIsPaced(c: Config, s: State, a: int, step: ChildStep)
    requires ChildOk(c, s, a) && ChildPaced(c, s, a) && StepEnabled(c, s, a, step)
    ensures var st := Issued(c, s, a, step);
            && (st.VerdictRow? && st.verdict.ToPublished? ==> Owns(s, a, st.id) && RoomFor(c, s.pub, a, st.id))
            && (st.ClaimRow? ==> Owns(s, a, st.id) && exists at :: at <= s.now && GateHolds(c, s.pub, a, st.id, at))
  {
    if step.ClaimPublish? { assert GateHolds(c, s.pub, a, s.procs[a].phase.id, s.procs[a].phase.gatedAt); }
  }

  lemma PerformKeepsApart(c: Config, s: State, a: int, pid: nat, st: Statement)
    requires forall id | id in s.pub :: RowOk(c, s.now, s.pub[id])
    requires forall b, i, j :: Apart(c, s.pub, b, i, j)
    requires st.ClaimRow? ==> Owns(s, a, st.id) && exists at :: at <= s.now && GateHolds(c, s.pub, a, st.id, at)
    ensures forall b, i, j :: Apart(c, Perform(s, a, pid, st).pub, b, i, j)
  {
    if st.ClaimRow? {
      var at :| at <= s.now && GateHolds(c, s.pub, a, st.id, at);
      if Has(s.pub, st.id, PublishStatus.Pending) { ClaimKeepsApart(c, s.pub, a, st.id, at, s.now); }
    } else {
      PerformStarts(c, s, a, pid, st);
      StartsNothingKeepsApart(c, s.pub, Perform(s, a, pid, st).pub);
    }
  }

  lemma PerformKeepsCap(c: Config, s: State, a: int, pid: nat, st: Statement, b: int, day: int)
    requires forall id | id in s.pub :: RowOk(c, s.now, s.pub[id])
    requires st.VerdictRow? && st.verdict.ToPublished? ==> Owns(s, a, st.id) && RoomFor(c, s.pub, a, st.id)
    requires |PublishedOn(s.pub, b, day)| <= Max(0, c.dailyCap)
    ensures |PublishedOn(Perform(s, a, pid, st).pub, b, day)| <= Max(0, c.dailyCap)
  {
    if st.VerdictRow? && st.verdict.ToPublished? {
      FinishKeepsCap(c, s.pub, a, st.id, b, day);
    } else {
      PerformStarts(c, s, a, pid, st);
      PublishedOnFewer(s.pub, Perform(s, a, pid, st).pub, b, day);
    }
  }

  lemma StepKeepsApart(c: Config, s: State, a: int, step: ChildStep)
    requires Safe(c, s) && Paced(c, s) && StepEnabled(c, s, a, step)
    ensures forall b, i, j :: Apart(c, DoStep(c, s, a, step).pub, b, i, j)
  {
    if !step.Reap? {
      assert ChildOk(c, s, a) && ChildPaced(c, s, a);
      IssuedIsPaced(c, s, a, step);
      PerformKeepsApart(c, s.(procs := s.procs[a := Control(c, s, a, step)]), a, s.procs[a].pid, Issued(c, s, a, step));
    }
  }

  lemma StepKeepsCap(c: Config, s: State, a: int, step: ChildStep, b: int, day: int)
    requires Safe(c, s) && Paced(c, s) && StepEnabled(c, s, a, step)
    ensures |PublishedOn(DoStep(c, s, a, step).pub, b, day)| <= Max(0, c.dailyCap)
  {
    assert |PublishedOn(s.pub, b, day)| <= Max(0, c.dailyCap);
    if !step.Reap? {
      assert ChildOk(c, s, a) && ChildPaced(c, s, a);
      IssuedIsPaced(c, s, a, step);
      PerformKeepsCap(c, s.(procs := s.procs[a := Control(c, s, a, step)]), a, s.procs[a].pid, Issued(c, s, a, step), b, day);
    }
  }

  lemma KeepsPaced(c: Config, s: State, act: Action)
    requires Safe(c, s) && Paced(c, s)
    requires forall a | Live(s, a) && s.procs[a].phase.Gated? :: 0 <= s.procs[a].phase.gatedAt
    ensures Paced(c, Next(c, s, act))
  {
    var t := Next(c, s, act);
    if Enabled(c, s, act) {
      forall a ensures ChildPaced(c, t, a) {
        assert ChildPaced(c, s, a);
        if act.Step? && act.child == a { KeepsOwnPace(c, s, a, act.step); } else { KeepsOtherPace(c, s, act, a); }
      }
      if act.Step? {
        StepKeepsApart(c, s, act.child, act.step);
        forall a, day ensures |PublishedOn(t.pub, a, day)| <= Max(0, c.dailyCap) {
          StepKeepsCap(c, s, act.child, act.step, a, day);
        }
      } else {
        SuperviseStartsNothing(c, s, act);
        StartsNothingKeepsApart(c, s.pub, t.pub);
        forall a, day ensures |PublishedOn(t.pub, a, day)| <= Max(0, c.dailyCap) { PublishedOnFewer(s.pub, t.pub, a, day); }
      }
    }
  }

  ghost predicate ClockOk(s: State) {
    0 <= s.now && forall a | Live(s, a) && s.procs[a].phase.Gated? :: 0 <= s.procs[a].phase.gatedAt
  }

  lemma KeepsClock(c: Config, s: State, act: Action)
    requires Safe(c, s) && ClockOk(s)
    ensures ClockOk(Next(c, s, act))
  {
    var t := Next(c, s, act);
    TimeMovesForward(c, s, act);
    forall a | Live(t, a) && t.procs[a].phase.Gated? ensures 0 <= t.procs[a].phase.gatedAt {
      if act.Step? && act.child == a {
        if Enabled(c, s, act) { StepKeepsClock(c, s, a, act.step); }
      } else {
        ChildrenChangeOnlyThemselves(c, s, act, a);
      }
    }
  }

  lemma StepKeepsClock(c: Config, s: State, a: int, step: ChildStep)
    requires StepEnabled(c, s, a, step) && ClockOk(s)
    requires Live(DoStep(c, s, a, step), a) && DoStep(c, s, a, step).procs[a].phase.Gated?
    ensures 0 <= DoStep(c, s, a, step).procs[a].phase.gatedAt
  {
    if !step.Reap? {
      StepControls(c, s, a, step);
      ControlKeepsClock(c, s, a, step);
    }
  }

  lemma ControlKeepsClock(c: Config, s: State, a: int, step: ChildStep)
    requires StepEnabled(c, s, a, step) && ClockOk(s) && Control(c, s, a, step).phase.Gated? && Control(c, s, a, step).alive
    ensures 0 <= Control(c, s, a, step).phase.gatedAt
  {
  }

  lemma {:induction false} RunIsPaced(c: Config, acts: seq<Action>)
    ensures Paced(c, Run(c, acts)) && ClockOk(Run(c, acts))
  {
    if acts != [] {
      var before := acts[..|acts| - 1];
      RunIsPaced(c, before);
      RunIsSafe(c, before);
      KeepsPaced(c, Run(c, before), acts[|acts| - 1]);
      KeepsClock(c, Run(c, before), acts[|acts| - 1]);
    }
  }

  // ---- main results ----

  lemma ReachedIsPaced(c: Config, s: State)
    requires Reached(c, s)
    ensures Safe(c, s) && Paced(c, s)
  {
    var acts :| Run(c, acts) == s;
    RunIsSafe(c, acts);
    RunIsPaced(c, acts);
  }

  /** In every reachable state, two published posts of one account started at least the minimum interval apart. */
  lemma PublishedPostsAreSpaced(c: Config, s: State, i: int, j: int)
    requires Reached(c, s) && i != j && Has(s.pub, i, Published) && Has(s.pub, j, Published) && s.pub[i].account == s.pub[j].account
    ensures s.pub[i].startedAt.Some? && s.pub[j].startedAt.Some?
    ensures var a, b := s.pub[i].startedAt.value, s.pub[j].startedAt.value; a - b >= c.minInterval || b - a >= c.minInterval
  {
    ReachedIsPaced(c, s);
    assert Apart(c, s.pub, s.pub[i].account, i, j);
  }

  /** In every reachable state, no account has more published posts on one UTC day than the daily cap; without one, none. */
  lemma DailyCapHolds(c: Config, s: State, a: int, day: int)
    requires Reached(c, s)
    ensures |PublishedOn(s.pub, a, day)| <= Max(0, c.dailyCap)
  {
    ReachedIsPaced(c, s);
  }
}
