/**
 What every reachable state of the protocol satisfies: serial children, one executor per publish job,
 `started_at` exactly on started rows, and terminal rows that stay terminal, whatever crashes. Only the
 unguarded write of a cancel request disturbs this, and only when it comes after the claim.
 */
module ProtocolSafety {
  import opened Collections
  import opened PublishLedger
  import opened Protocol

  predicate Owns(s: State, a: int, id: int) {
    id in s.pub && s.pub[id].account == a
  }

  predicate CanceledRow(s: State, id: int) { Has(s.pub, id, Canceled) }

  /** What a live child knows about the row it works on. */
  predicate PhaseOk(c: Config, s: State, a: int, p: Phase) {
    match p
    case Idle => true
    case Loaded(id, r) => Owns(s, a, id) && s.pub[id].retries == r
    case Gated(id, r, at) => Owns(s, a, id) && s.pub[id].retries == r && at <= s.now
    case Executing(id, r) =>
      && Owns(s, a, id) && s.pub[id].retries == r && s.pub[id].startedAt.Some?
      && (s.pub[id].status == Publishing || CanceledRow(s, id))
    case Deciding(id, r, v, fallback) =>
      && Owns(s, a, id)
      && (s.pub[id].status == Publishing || (fallback && s.pub[id].status == Published) || CanceledRow(s, id))
      && (fallback ==> !v.ToPublished?)
      && s.pub[id].retries == r
      && (v.ToPending? ==> r < c.delays)
    case Closing(id) => Owns(s, a, id)
    case Browsing(key) => key in s.br && s.br[key].account == a
  }

  predicate TodoOk(s: State, a: int, todo: seq<JobRef>) {
    forall job <- todo :: JobAccount(s, job) == Some(a)
  }

  predicate ChildOk(c: Config, s: State, a: int) {
    a in s.procs ==> TodoOk(s, a, s.procs[a].todo) && (s.procs[a].alive ==> PhaseOk(c, s, a, s.procs[a].phase))
  }

  predicate RowOk(c: Config, now: int, row: PublishRow) {
    && (InHand(row) ==> row.startedAt.Some?)
    && (row.startedAt.Some? ==> InHand(row) || row.status == Canceled)
    && (row.startedAt.Some? ==> row.startedAt.value <= now)
    && row.retries <= c.delays
  }

  ghost predicate Safe(c: Config, s: State) {
    && (forall a :: ChildOk(c, s, a))
    && (forall id | id in s.pub :: RowOk(c, s.now, s.pub[id]))
    && |s.procs| <= c.maxProcs
    && (s.pass.Some? ==> WorkMatchesRows(s, s.pass.value.work))
  }

  // ---- what one action may touch ----

  /** The row an issued statement names belongs to the child's account, and so does a verdict's precondition. */
  predicate StatementOk(c: Config, s: State, a: int, st: Statement) {
    match st
    case Nothing => true
    case DeferRow(id, _) => Owns(s, a, id)
    case ClaimRow(id) => Owns(s, a, id)
    case VerdictRow(id, v, _) => Owns(s, a, id) && (v.ToPending? && Has(s.pub, id, Publishing) ==> s.pub[id].retries < c.delays)
    case RequeueRow(id, _) => Owns(s, a, id)
    case ClaimKey(key) => key in s.br && s.br[key].account == a
    case BeatKey(key) => key in s.br && s.br[key].account == a
    case FinishKey(key, _) => key in s.br && s.br[key].account == a
  }

  lemma IssuedIsOk(c: Config, s: State, a: int, step: ChildStep)
    requires StepEnabled(c, s, a, step) && ChildOk(c, s, a)
    ensures StatementOk(c, s, a, Issued(c, s, a, step))
  {
    if step.ClaimBrowser? { assert JobAccount(s, s.procs[a].todo[0]) == Some(a); }
  }

  /** A statement keeps every row's account, and changes only rows of its own account. */
  lemma PerformTouches(c: Config, s: State, a: int, pid: nat, st: Statement, id: int)
    requires StatementOk(c, s, a, st)
    ensures var t := Perform(s, a, pid, st);
            && t.procs == s.procs && t.now == s.now && t.pass == s.pass && t.rotation == s.rotation
            && t.pub.Keys == s.pub.Keys
            && (id in s.pub ==> t.pub[id] == s.pub[id] || (s.pub[id].account == a && t.pub[id].account == a))
  {
  }

  lemma PerformTouchesBrowser(c: Config, s: State, a: int, pid: nat, st: Statement, key: string)
    requires StatementOk(c, s, a, st) && key in s.br
    ensures var t := Perform(s, a, pid, st);
            key in t.br && (t.br[key] == s.br[key] || (s.br[key].account == a && t.br[key].account == a))
  {
  }

  lemma PerformKeepsAccount(c: Config, s: State, a: int, pid: nat, st: Statement, job: JobRef)
    requires StatementOk(c, s, a, st) && JobAccount(s, job).Some?
    ensures JobAccount(Perform(s, a, pid, st), job) == JobAccount(s, job)
  {
    match job
    case Publish(id) => PerformTouches(c, s, a, pid, st, id);
    case Browser(key) => PerformTouchesBrowser(c, s, a, pid, st, key);
  }

  lemma StepKeepsAccount(c: Config, s: State, a: int, step: ChildStep, job: JobRef)
    requires StepEnabled(c, s, a, step) && ChildOk(c, s, a) && JobAccount(s, job).Some?
    ensures JobAccount(DoStep(c, s, a, step), job) == JobAccount(s, job)
  {
    if !step.Reap? {
      IssuedIsOk(c, s, a, step);
      PerformKeepsAccount(c, s.(procs := s.procs[a := Control(c, s, a, step)]), a, s.procs[a].pid, Issued(c, s, a, step), job);
    }
  }

  /** What the clients and the supervisor do to the publish table. */
  function PubAfter(c: Config, s: State, act: Action): PublishTable {
    match act
    case SubmitPublish(id, a) => s.pub[id := PublishRow(a, Pending, None, 0, None)]
    case WriteCancel(id) => Cancel(s.pub, id)
    case RecoverPublish => RecoverStale(s.pub, s.now - c.publishTimeout, LiveAccounts(s))
    case _ => s.pub
  }

  lemma SupervisePub(c: Config, s: State, act: Action)
    requires !act.Step? && Enabled(c, s, act)
    ensures Supervise(c, s, act).pub == PubAfter(c, s, act)
  {
    match act
    case Tick(_) =>
    case SubmitPublish(_, _) =>
    case SubmitBrowser(_, _, _) =>
    case ReadCancel(_) =>
    case WriteCancel(_) =>
    case RecoverPublish =>
    case ReadStale(_) =>
    case RecoverBrowser(_) =>
    case BeginPass(_) =>
    case HandleAccount(_, _) =>
    case EndPass =>
  }

  lemma SupervisorKeepsAccount(c: Config, s: State, act: Action, job: JobRef)
    requires !act.Step? && Enabled(c, s, act) && JobAccount(s, job).Some?
    ensures JobAccount(Supervise(c, s, act), job) == JobAccount(s, job)
  {
  }

  /** Rows are never deleted or handed to another account. */
  lemma AccountStays(c: Config, s: State, act: Action, job: JobRef)
    requires Safe(c, s) && JobAccount(s, job).Some?
    ensures JobAccount(Next(c, s, act), job) == JobAccount(s, job)
  {
    if Enabled(c, s, act) {
      if act.Step? {
        assert ChildOk(c, s, act.child);
        StepKeepsAccount(c, s, act.child, act.step, job);
      } else {
        SupervisorKeepsAccount(c, s, act, job);
      }
    }
  }

  lemma StepTakesNoTime(c: Config, s: State, a: int, step: ChildStep)
    requires StepEnabled(c, s, a, step)
    ensures DoStep(c, s, a, step).now == s.now && DoStep(c, s, a, step).pass == s.pass
            && DoStep(c, s, a, step).rotation == s.rotation && DoStep(c, s, a, step).pids == s.pids
  {
  }

  lemma TimeMovesForward(c: Config, s: State, act: Action)
    ensures s.now <= Next(c, s, act).now
  {
    if Enabled(c, s, act) && act.Step? { StepTakesNoTime(c, s, act.child, act.step); }
  }

  /** Time moves on and every job stays with its account. */
  ghost predicate Continues(s: State, t: State) {
    s.now <= t.now && forall job | JobAccount(s, job).Some? :: JobAccount(t, job) == JobAccount(s, job)
  }

  lemma NextContinues(c: Config, s: State, act: Action)
    requires Safe(c, s)
    ensures Continues(s, Next(c, s, act))
  {
    TimeMovesForward(c, s, act);
    forall job | JobAccount(s, job).Some? ensures JobAccount(Next(c, s, act), job) == JobAccount(s, job) {
      AccountStays(c, s, act, job);
    }
  }

  /** The row is the same, or the same but canceled. */
  predicate AtMostCanceled(s: State, t: State, id: int) {
    id in s.pub ==> id in t.pub && (t.pub[id] == s.pub[id] || t.pub[id] == s.pub[id].(status := Canceled))
  }

  predicate WorksOn(p: Phase, id: int) { !p.Idle? && !p.Browsing? && p.id == id }

  lemma PhaseStays(c: Config, s: State, t: State, a: int, p: Phase)
    requires PhaseOk(c, s, a, p) && Continues(s, t)
    requires !p.Idle? && !p.Browsing? ==> AtMostCanceled(s, t, p.id)
    ensures PhaseOk(c, t, a, p)
  {
    if p.Browsing? { assert JobAccount(s, Browser(p.key)) == Some(a); }
  }

  /**
   A row changes only by its own account's child, by stale recovery while that account has no live child, or
   by a cancel request, which leaves all but the status.
   */
  lemma RowChangesOnlyByOwner(c: Config, s: State, act: Action, id: int)
    requires Safe(c, s) && id in s.pub
    ensures id in Next(c, s, act).pub
    ensures Next(c, s, act).pub[id] == s.pub[id]
            || (act.Step? && act.child == s.pub[id].account)
            || (act.RecoverPublish? && !Live(s, s.pub[id].account))
            || (act == WriteCancel(id) && Next(c, s, act).pub[id] == s.pub[id].(status := Canceled))
  {
    if Enabled(c, s, act) {
      if act.Step? {
        assert ChildOk(c, s, act.child);
        StepTouchesOwnRows(c, s, act.child, act.step, id);
      } else {
        SupervisePub(c, s, act);
      }
    }
  }

  /** Stale recovery resets exactly the jobs claimed at least the timeout ago whose account has no live child. */
  lemma RecoveryNeedsTimeout(c: Config, s: State, id: int)
    requires id in s.pub
    ensures var row, r := s.pub[id], Next(c, s, RecoverPublish).pub;
            && id in r
            && r[id] == if row.status == Publishing && row.startedAt.Some? && s.now - row.startedAt.value >= c.publishTimeout
                           && !(row.account in s.procs && s.procs[row.account].alive)
                        then row.(status := Pending, startedAt := None) else row
  {
    SupervisePub(c, s, RecoverPublish);
    RecoveryMeaning(s.pub, s.now - c.publishTimeout, LiveAccounts(s), id);
  }

  lemma StepTouchesOwnRows(c: Config, s: State, a: int, step: ChildStep, id: int)
    requires StepEnabled(c, s, a, step) && ChildOk(c, s, a) && id in s.pub
    ensures id in DoStep(c, s, a, step).pub && (DoStep(c, s, a, step).pub[id] == s.pub[id] || s.pub[id].account == a)
  {
    if !step.Reap? {
      IssuedIsOk(c, s, a, step);
      PerformTouches(c, s.(procs := s.procs[a := Control(c, s, a, step)]), a, s.procs[a].pid, Issued(c, s, a, step), id);
    }
  }

  /** The account that the supervisor is about to give a child, if it is. */
  ghost predicate Spawns(c: Config, s: State, act: Action, b: int) {
    act.HandleAccount? && act.spawns && Enabled(c, s, act) && Handle(s, c).Go? && b == NextAccount(s)
  }

  /** A child changes only by its own actions; the supervisor only adds fresh idle children. */
  lemma ChildrenChangeOnlyThemselves(c: Config, s: State, act: Action, b: int)
    requires !(act.Step? && act.child == b)
    ensures b in Next(c, s, act).procs <==> b in s.procs || Spawns(c, s, act, b)
    ensures b in s.procs ==> Next(c, s, act).procs[b] == s.procs[b]
    ensures Spawns(c, s, act, b) ==> Next(c, s, act).procs[b] == Child(s.pids, true, act.todo, Idle)
  {
    if Enabled(c, s, act) {
      if act.Step? { StepKeepsOtherChildren(c, s, act.child, act.step, b); } else { SupervisorKeepsChildren(c, s, act, b); }
    }
  }

  lemma SupervisorKeepsChildren(c: Config, s: State, act: Action, b: int)
    requires !act.Step? && Enabled(c, s, act)
    ensures var t := Supervise(c, s, act);
            && (b in t.procs <==> b in s.procs || Spawns(c, s, act, b))
            && (b in s.procs ==> t.procs[b] == s.procs[b])
            && (Spawns(c, s, act, b) ==> t.procs[b] == Child(s.pids, true, act.todo, Idle))
  {
    match act
    case HandleAccount(_, _) =>
    case RecoverPublish =>
    case RecoverBrowser(_) =>
    case BeginPass(_) =>
    case EndPass =>
    case _ =>
  }

  lemma StepKeepsOtherChildren(c: Config, s: State, a: int, step: ChildStep, b: int)
    requires StepEnabled(c, s, a, step) && a != b
    ensures b in DoStep(c, s, a, step).procs <==> b in s.procs
    ensures b in s.procs ==> DoStep(c, s, a, step).procs[b] == s.procs[b]
  {
  }

  // ---- preservation ----

  /** A batch that a child was given names only rows of its account. */
  lemma SpawnedTodoOk(c: Config, s: State, a: int, todo: seq<JobRef>)
    requires s.pass.Some? && WorkMatchesRows(s, s.pass.value.work)
    requires a in s.pass.value.work && a in s.pass.value.counts
    requires ChildOrder(Batch(s.pass.value, c, a), todo)
    ensures TodoOk(s, a, todo)
  {
    var kept := Batch(s.pass.value, c, a);
    var jobs := seq(|kept|, i requires 0 <= i < |kept| => kept[i].job);
    forall job <- todo ensures JobAccount(s, job) == Some(a) {
      assert job in multiset(todo);
      assert job in multiset(jobs);
      var i :| 0 <= i < |jobs| && jobs[i] == job;
      var queue := s.pass.value.work[a];
      c.caps.KeptFromBatch(if |queue| <= c.batch then queue else queue[..c.batch], s.pass.value.counts[a], kept[i]);
      assert kept[i] in queue;
    }
  }

  lemma ChildStays(c: Config, s: State, t: State, b: int)
    requires ChildOk(c, s, b) && Continues(s, t) && b in s.procs && b in t.procs && t.procs[b] == s.procs[b]
    requires s.procs[b].alive ==> forall id | WorksOn(s.procs[b].phase, id) :: AtMostCanceled(s, t, id)
    ensures ChildOk(c, t, b)
  {
    var p := s.procs[b].phase;
    if s.procs[b].alive {
      if !p.Idle? && !p.Browsing? { assert WorksOn(p, p.id); }
      PhaseStays(c, s, t, b, p);
    }
  }

  lemma OtherChildStays(c: Config, s: State, act: Action, b: int)
    requires Safe(c, s) && !(act.Step? && act.child == b) && b in s.procs
    ensures ChildOk(c, Next(c, s, act), b)
  {
    assert ChildOk(c, s, b);
    NextContinues(c, s, act);
    ChildrenChangeOnlyThemselves(c, s, act, b);
    forall id | s.procs[b].alive && WorksOn(s.procs[b].phase, id) ensures AtMostCanceled(s, Next(c, s, act), id) {
      RowChangesOnlyByOwner(c, s, act, id);
    }
    ChildStays(c, s, Next(c, s, act), b);
  }

  lemma KeepsOtherChild(c: Config, s: State, act: Action, b: int)
    requires Safe(c, s) && !(act.Step? && act.child == b)
    ensures ChildOk(c, Next(c, s, act), b)
  {
    if b in s.procs {
      OtherChildStays(c, s, act, b);
    } else {
      ChildrenChangeOnlyThemselves(c, s, act, b);
      if Spawns(c, s, act, b) {
        SpawnedTodoOk(c, s, b, act.todo);
        NextContinues(c, s, act);
      }
    }
  }

  /** The phase that a child enters is right in the state it leaves. */
  lemma ControlIsOk(c: Config, s: State, a: int, step: ChildStep)
    requires StepEnabled(c, s, a, step) && ChildOk(c, s, a) && Control(c, s, a, step).alive
    requires !step.ClaimPublish? && !step.Settle? && !step.Close?
    ensures PhaseOk(c, s, a, Control(c, s, a, step).phase)
  {
    if s.procs[a].todo != [] { assert JobAccount(s, s.procs[a].todo[0]) == Some(a); }
    match step
    case Load =>
    case Gate(_, _) =>
    case Abandon =>
    case Execute(_) =>
    case ClaimBrowser =>
    case Beat =>
    case FinishBrowser(_, _) =>
    case Exit =>
    case Kill =>
    case Reap =>
  }

  /** Only a claim, a verdict and a put-back change a row other than by postponing it. */
  lemma QuietStatement(s: State, a: int, pid: nat, st: Statement, id: int)
    requires !st.ClaimRow? && !st.VerdictRow? && !st.RequeueRow? && id in s.pub
    ensures id in Perform(s, a, pid, st).pub
    ensures Perform(s, a, pid, st).pub[id] == s.pub[id].(nextRetryAt := Perform(s, a, pid, st).pub[id].nextRetryAt)
  {
  }

  lemma ClaimedPhase(c: Config, s: State, a: int)
    requires StepEnabled(c, s, a, ChildStep.ClaimPublish) && ChildOk(c, s, a)
    ensures PhaseOk(c, DoStep(c, s, a, ChildStep.ClaimPublish), a, Control(c, s, a, ChildStep.ClaimPublish).phase)
  {
  }

  lemma SettledPhase(c: Config, s: State, a: int, outcome: WriteOutcome, at: int)
    requires StepEnabled(c, s, a, Settle(outcome, at)) && ChildOk(c, s, a)
    ensures PhaseOk(c, DoStep(c, s, a, Settle(outcome, at)), a, Control(c, s, a, Settle(outcome, at)).phase)
  {
  }

  /** Postponing a row disturbs no phase. */
  lemma PhasePostponed(c: Config, s: State, t: State, a: int, p: Phase)
    requires PhaseOk(c, s, a, p) && Continues(s, t)
    requires forall id | WorksOn(p, id) && id in s.pub ::
               id in t.pub && t.pub[id] == s.pub[id].(nextRetryAt := t.pub[id].nextRetryAt)
    ensures PhaseOk(c, t, a, p)
  {
    if !p.Idle? && !p.Browsing? { assert WorksOn(p, p.id); }
    if p.Browsing? { assert JobAccount(s, Browser(p.key)) == Some(a); }
  }

  lemma QuietPhase(c: Config, s: State, a: int, step: ChildStep)
    requires StepEnabled(c, s, a, step) && ChildOk(c, s, a) && Control(c, s, a, step).alive && Continues(s, DoStep(c, s, a, step))
    requires !step.ClaimPublish? && !step.Settle? && !step.Close? && !step.Reap?
    ensures PhaseOk(c, DoStep(c, s, a, step), a, Control(c, s, a, step).phase)
  {
    ControlIsOk(c, s, a, step);
    var u, st := s.(procs := s.procs[a := Control(c, s, a, step)]), Issued(c, s, a, step);
    forall id | id in s.pub
      ensures id in DoStep(c, s, a, step).pub
      ensures DoStep(c, s, a, step).pub[id] == s.pub[id].(nextRetryAt := DoStep(c, s, a, step).pub[id].nextRetryAt)
    {
      QuietStatement(u, a, s.procs[a].pid, st, id);
    }
    PhasePostponed(c, s, DoStep(c, s, a, step), a, Control(c, s, a, step).phase);
  }

  lemma StepControls(c: Config, s: State, a: int, step: ChildStep)
    requires StepEnabled(c, s, a, step) && !step.Reap?
    ensures a in DoStep(c, s, a, step).procs && DoStep(c, s, a, step).procs[a] == Control(c, s, a, step)
    ensures forall job <- Control(c, s, a, step).todo :: job in s.procs[a].todo
  {
  }

  lemma KeepsActorPhase(c: Config, s: State, a: int, step: ChildStep)
    requires StepEnabled(c, s, a, step) && ChildOk(c, s, a) && Continues(s, DoStep(c, s, a, step)) && !step.Reap?
    ensures Control(c, s, a, step).alive ==> PhaseOk(c, DoStep(c, s, a, step), a, Control(c, s, a, step).phase)
  {
    match step
    case ClaimPublish => ClaimedPhase(c, s, a);
    case Settle(outcome, at) => SettledPhase(c, s, a, outcome, at);
    case Close(_, _) =>
    case _ => if Control(c, s, a, step).alive { QuietPhase(c, s, a, step); }
  }

  lemma KeepsActor(c: Config, s: State, a: int, step: ChildStep)
    requires ChildOk(c, s, a) && StepEnabled(c, s, a, step) && Continues(s, DoStep(c, s, a, step))
    ensures ChildOk(c, DoStep(c, s, a, step), a)
  {
    if !step.Reap? {
      KeepsActorPhase(c, s, a, step);
      StepControls(c, s, a, step);
    }
  }

  lemma StepKeepsRow(c: Config, s: State, a: int, step: ChildStep, id: int)
    requires Safe(c, s) && StepEnabled(c, s, a, step) && id in DoStep(c, s, a, step).pub
    ensures RowOk(c, s.now, DoStep(c, s, a, step).pub[id])
  {
    assert ChildOk(c, s, a);
    IssuedIsOk(c, s, a, step);
    PerformKeepsRow(c, s.(procs := s.procs[a := Control(c, s, a, step)]), a, s.procs[a].pid, Issued(c, s, a, step), id);
  }

  lemma PerformKeepsRow(c: Config, s: State, a: int, pid: nat, st: Statement, id: int)
    requires StatementOk(c, s, a, st) && id in Perform(s, a, pid, st).pub && forall i | i in s.pub :: RowOk(c, s.now, s.pub[i])
    ensures RowOk(c, s.now, Perform(s, a, pid, st).pub[id])
  {
    PerformTouches(c, s, a, pid, st, id);
    assert RowOk(c, s.now, s.pub[id]);
  }

  lemma SupervisorKeepsRow(c: Config, s: State, act: Action, id: int)
    requires !act.Step? && Enabled(c, s, act) && id in Supervise(c, s, act).pub
    requires id in s.pub ==> RowOk(c, s.now, s.pub[id])
    ensures RowOk(c, Supervise(c, s, act).now, Supervise(c, s, act).pub[id])
  {
    SupervisePub(c, s, act);
    TimeMovesForward(c, s, act);
    PubKeepsRow(c, s, act, id);
  }

  lemma PubKeepsRow(c: Config, s: State, act: Action, id: int)
    requires id in PubAfter(c, s, act) && (id in s.pub ==> RowOk(c, s.now, s.pub[id]))
    ensures RowOk(c, s.now, PubAfter(c, s, act)[id])
  {
  }

  lemma KeepsRow(c: Config, s: State, act: Action, id: int)
    requires Safe(c, s) && id in Next(c, s, act).pub
    ensures RowOk(c, Next(c, s, act).now, Next(c, s, act).pub[id])
  {
    if !Enabled(c, s, act) {
      assert RowOk(c, s.now, s.pub[id]);
    } else if act.Step? {
      StepKeepsRow(c, s, act.child, act.step, id);
      StepTakesNoTime(c, s, act.child, act.step);
    } else {
      SupervisorKeepsRow(c, s, act, id);
    }
  }

  lemma SupervisorKeepsProcCount(c: Config, s: State, act: Action)
    requires !act.Step? && Enabled(c, s, act) && |s.procs| <= c.maxProcs
    ensures |Supervise(c, s, act).procs| <= c.maxProcs
  {
    match act
    case Tick(_) =>
    case SubmitPublish(_, _) =>
    case SubmitBrowser(_, _, _) =>
    case ReadCancel(_) =>
    case WriteCancel(_) =>
    case RecoverPublish =>
    case ReadStale(_) =>
    case RecoverBrowser(_) =>
    case BeginPass(_) =>
    case HandleAccount(_, _) =>
    case EndPass =>
  }

  lemma StepKeepsProcCount(c: Config, s: State, a: int, step: ChildStep)
    requires StepEnabled(c, s, a, step)
    ensures |DoStep(c, s, a, step).procs| <= |s.procs|
  {
    var t := DoStep(c, s, a, step);
    assert t.procs.Keys <= s.procs.Keys;
    CardSubset(t.procs.Keys, s.procs.Keys);
  }

  /** Handling an account moves the pass along, but neither its queues nor its counts change. */
  lemma HandlingKeepsPass(s: State, c: Config, spawns: bool, todo: seq<JobRef>)
    requires HasNext(s)
    ensures var t := DoHandleAccount(s, c, spawns, todo);
            t.pass.Some? && t.pass.value.work == s.pass.value.work
            && t.pass.value.counts == s.pass.value.counts && t.pass.value.mark == s.pass.value.mark
  {
  }

  lemma PassStays(c: Config, s: State, act: Action)
    requires !act.Step? && Enabled(c, s, act) && !act.BeginPass? && Supervise(c, s, act).pass.Some?
    ensures s.pass.Some?
    ensures var p, q := s.pass.value, Supervise(c, s, act).pass.value;
            q.work == p.work && q.counts == p.counts && q.mark == p.mark
  {
    match act
    case HandleAccount(spawns, todo) => HandlingKeepsPass(s, c, spawns, todo);
    case Tick(_) =>
    case SubmitPublish(_, _) =>
    case SubmitBrowser(_, _, _) =>
    case ReadCancel(_) =>
    case WriteCancel(_) =>
    case RecoverPublish =>
    case ReadStale(_) =>
    case RecoverBrowser(_) =>
    case EndPass =>
  }

  /** The queues of the pass in progress were read from matching rows, in this step or before. */
  lemma PassWork(c: Config, s: State, act: Action)
    requires Safe(c, s) && Next(c, s, act).pass.Some?
    ensures WorkMatchesRows(s, Next(c, s, act).pass.value.work)
  {
    if Enabled(c, s, act) {
      if act.Step? { StepTakesNoTime(c, s, act.child, act.step); }
      else if !act.BeginPass? { PassStays(c, s, act); }
    }
  }

  lemma KeepsWork(c: Config, s: State, act: Action)
    requires Safe(c, s) && Next(c, s, act).pass.Some?
    ensures WorkMatchesRows(Next(c, s, act), Next(c, s, act).pass.value.work)
  {
    var t := Next(c, s, act);
    var work: map<int, seq<Item>> := t.pass.value.work;
    PassWork(c, s, act);
    forall a, item: Item | a in work && item in work[a] ensures JobAccount(t, item.job) == Some(a) {
      AccountStays(c, s, act, item.job);
    }
  }

  lemma KeepsSafe(c: Config, s: State, act: Action)
    requires Safe(c, s)
    ensures Safe(c, Next(c, s, act))
  {
    var t := Next(c, s, act);
    forall a ensures ChildOk(c, t, a) {
      if act.Step? && act.child == a && Enabled(c, s, act) {
        assert ChildOk(c, s, a);
        NextContinues(c, s, act);
        KeepsActor(c, s, a, act.step);
      } else if act.Step? && act.child == a {
        assert ChildOk(c, s, a);
      } else {
        KeepsOtherChild(c, s, act, a);
      }
    }
    forall id | id in t.pub ensures RowOk(c, t.now, t.pub[id]) { KeepsRow(c, s, act, id); }
    if Enabled(c, s, act) {
      if act.Step? { StepKeepsProcCount(c, s, act.child, act.step); } else { SupervisorKeepsProcCount(c, s, act); }
    }
    if t.pass.Some? { KeepsWork(c, s, act); }
  }

  lemma {:induction false} RunIsSafe(c: Config, acts: seq<Action>)
    ensures Safe(c, Run(c, acts))
  {
    if acts != [] {
      var before := acts[..|acts| - 1];
      RunIsSafe(c, before);
      KeepsSafe(c, Run(c, before), acts[|acts| - 1]);
    }
  }

  // ---- late cancels ----

  /** A row that was canceled after its claim is counted as late, once; no other row is. */
  predicate CancelOk(s: State, id: int) {
    var late := TallyOf(s, id).late;
    && late <= 1 && (late > 0 ==> id in s.pub && s.pub[id].status == Canceled)
    && (id in s.pub && s.pub[id].status == Canceled && s.pub[id].startedAt.Some? ==> late == 1)
  }

  lemma PerformKeepsCancel(s: State, a: int, pid: nat, st: Statement, id: int)
    requires CancelOk(s, id)
    ensures CancelOk(Perform(s, a, pid, st), id)
  {
    match st
    case Nothing =>
    case DeferRow(_, _) =>
    case ClaimRow(_) =>
    case VerdictRow(_, _, _) =>
    case RequeueRow(_, _) =>
    case ClaimKey(_) =>
    case BeatKey(_) =>
    case FinishKey(_, _) =>
  }

  lemma StepKeepsCancel(c: Config, s: State, a: int, step: ChildStep, id: int)
    requires StepEnabled(c, s, a, step) && CancelOk(s, id)
    ensures CancelOk(DoStep(c, s, a, step), id)
  {
    if !step.Reap? {
      var t := s.(procs := s.procs[a := Control(c, s, a, step)]);
      assert CancelOk(t, id);
      PerformKeepsCancel(t, a, s.procs[a].pid, Issued(c, s, a, step), id);
    }
  }

  lemma WriteKeepsCancel(s: State, canceled: int, id: int)
    requires canceled in s.pub && CancelOk(s, id) && (id in s.pub && InHand(s.pub[id]) ==> s.pub[id].startedAt.Some?)
    requires id in s.pub && s.pub[id].startedAt.Some? ==> InHand(s.pub[id]) || s.pub[id].status == Canceled
    ensures CancelOk(DoWriteCancel(s, canceled), id)
  {
  }

  lemma SuperviseKeepsCancel(c: Config, s: State, act: Action, id: int)
    requires !act.Step? && Enabled(c, s, act) && CancelOk(s, id) && (id in s.pub ==> RowOk(c, s.now, s.pub[id]))
    ensures CancelOk(Supervise(c, s, act), id)
  {
    SupervisePub(c, s, act);
    if act.WriteCancel? { WriteKeepsCancel(s, act.id, id); }
  }

  lemma {:induction false} RunKeepsCancel(c: Config, acts: seq<Action>, id: int)
    ensures CancelOk(Run(c, acts), id)
  {
    if acts != [] {
      var s, act := Run(c, acts[..|acts| - 1]), acts[|acts| - 1];
      RunKeepsCancel(c, acts[..|acts| - 1], id);
      RunIsSafe(c, acts[..|acts| - 1]);
      if Enabled(c, s, act) {
        if act.Step? { StepKeepsCancel(c, s, act.child, act.step, id); } else { SuperviseKeepsCancel(c, s, act, id); }
      }
    }
  }

  // ---- main results ----

  predicate Executes(s: State, a: int, id: int) {
    Live(s, a) && s.procs[a].phase.Executing? && s.procs[a].phase.id == id
  }

  lemma ReachedIsSafe(c: Config, s: State, id: int)
    requires Reached(c, s)
    ensures Safe(c, s) && CancelOk(s, id)
  {
    var acts :| Run(c, acts) == s;
    RunIsSafe(c, acts);
    RunKeepsCancel(c, acts, id);
  }

  /**
   In every reachable state a publish job has at most one executor, and while it has one its row is
   `publishing` exactly if no cancel request, having read the row before the claim, has written after it.
   */
  lemma SingleExecutor(c: Config, s: State, id: int, a: int, b: int)
    requires Reached(c, s) && Executes(s, a, id) && Executes(s, b, id)
    ensures a == b && (Has(s.pub, id, Publishing) || Has(s.pub, id, Canceled))
    ensures Has(s.pub, id, Publishing) <==> TallyOf(s, id).late == 0
  {
    ReachedIsSafe(c, s, id);
    assert ChildOk(c, s, a) && ChildOk(c, s, b);
  }

  /**
   In every reachable state there are at most `maxProcs` children, exactly the started rows carry `started_at`
   (of canceled rows, only those that were canceled after their claim), and retries are bounded.
   */
  lemma ReachableTables(c: Config, s: State, id: int)
    requires Reached(c, s)
    ensures |s.procs| <= c.maxProcs
    ensures id in s.pub ==>
              && (s.pub[id].status != Canceled ==>
                    (s.pub[id].startedAt.Some? <==> s.pub[id].status == Publishing || s.pub[id].status == Published))
              && (s.pub[id].status == Canceled && s.pub[id].startedAt.Some? ==> TallyOf(s, id).late == 1)
              && s.pub[id].retries <= c.delays
  {
    ReachedIsSafe(c, s, id);
  }

  predicate Terminal(row: PublishRow) { row.status == Published || row.status == Failed || row.status == Canceled }

  /** The cancel request for `id` writes now. */
  ghost predicate Overwrites(c: Config, s: State, act: Action, id: int) {
    act == WriteCancel(id) && Enabled(c, s, act)
  }

  lemma StepKeepsTerminal(c: Config, s: State, a: int, step: ChildStep, id: int)
    requires StepEnabled(c, s, a, step) && id in s.pub && Terminal(s.pub[id])
    ensures id in DoStep(c, s, a, step).pub && DoStep(c, s, a, step).pub[id] == s.pub[id]
  {
  }

  lemma SuperviseKeepsTerminal(c: Config, s: State, act: Action, id: int)
    requires !act.Step? && Enabled(c, s, act) && id in s.pub && Terminal(s.pub[id])
    ensures id in Supervise(c, s, act).pub
    ensures Supervise(c, s, act).pub[id] == if act == WriteCancel(id) then s.pub[id].(status := Canceled) else s.pub[id]
  {
    SupervisePub(c, s, act);
  }

  ghost predicate Overwritten(c: Config, acts: seq<Action>, more: seq<Action>, id: int) {
    exists k | 0 <= k < |more| :: Overwrites(c, Run(c, acts + more[..k]), more[k], id)
  }

  lemma OverwrittenOneMore(c: Config, acts: seq<Action>, more: seq<Action>, act: Action, id: int)
    ensures Overwritten(c, acts, more + [act], id)
            <==> Overwritten(c, acts, more, id) || Overwrites(c, Run(c, acts + more), act, id)
  {
    var all := more + [act];
    assert all[..|more|] == more && all[|more|] == act;
    assert forall k | 0 <= k < |more| :: all[..k] == more[..k] && all[k] == more[k];
  }

  /**
   A `published`, `failed` or `canceled` row never changes again, whatever happens afterwards, unless a
   cancel request that read it while it was pending writes only now: then exactly its status changes.
   */
  lemma {:induction false} TerminalForever(c: Config, acts: seq<Action>, more: seq<Action>, id: int)
    requires id in Run(c, acts).pub && Terminal(Run(c, acts).pub[id])
    ensures id in Run(c, acts + more).pub
    ensures Run(c, acts + more).pub[id]
            == if Overwritten(c, acts, more, id) then Run(c, acts).pub[id].(status := Canceled) else Run(c, acts).pub[id]
    decreases |more|
  {
    if more == [] {
      assert acts + more == acts;
    } else {
      var front, act := more[..|more| - 1], more[|more| - 1];
      TerminalForever(c, acts, front, id);
      assert more == front + [act] && acts + more == (acts + front) + [act];
      OverwrittenOneMore(c, acts, front, act, id);
      RunOneMore(c, acts + front, act);
      TerminalStays(c, Run(c, acts + front), act, id);
    }
  }

  lemma TerminalStays(c: Config, s: State, act: Action, id: int)
    requires id in s.pub && Terminal(s.pub[id])
    ensures id in Next(c, s, act).pub
    ensures Next(c, s, act).pub[id] == if Overwrites(c, s, act, id) then s.pub[id].(status := Canceled) else s.pub[id]
  {
    if Enabled(c, s, act) {
      if act.Step? { StepKeepsTerminal(c, s, act.child, act.step, id); } else { SuperviseKeepsTerminal(c, s, act, id); }
    }
  }
}
