/**
 Conservation of claims: in every run each claim of a publish job is accounted for by exactly one retry,
 one put-back, one stale reset, its terminal verdict, the claim still in flight, or a cancel that came too late.
 */
module ClaimLedger {
  import opened Collections
  import opened PublishLedger
  import opened Protocol
  import opened ProtocolSafety

  function InFlight(row: PublishRow): nat { if row.status == Publishing then 1 else 0 }
  function Settled(row: PublishRow): nat { if row.status == Published || row.status == Failed then 1 else 0 }

  /** The claims that the history holds for a job: one session begins with each. */
  function ClaimsOf(s: State, id: int): nat { |SessionsOf(s.sessions, Publish(id))| }

  predicate RowBalanced(s: State, id: int) {
    && (id in s.pub ==>
          TallyOf(s, id).claims
          == s.pub[id].retries + TallyOf(s, id).hanging + TallyOf(s, id).stale + TallyOf(s, id).late
             + Settled(s.pub[id]) + InFlight(s.pub[id]))
    && (id !in s.pub ==> TallyOf(s, id) == Tally(0, 0, 0, 0))
  }

  predicate Balanced(s: State, id: int) {
    RowBalanced(s, id) && TallyOf(s, id).claims == ClaimsOf(s, id)
  }

  lemma AppendSession(sessions: seq<Session>, x: Session, job: JobRef)
    ensures SessionsOf(sessions + [x], job)
            == SessionsOf(sessions, job) + (if x.job == job then {|sessions| as nat} else {})
    ensures |SessionsOf(sessions + [x], job)| == |SessionsOf(sessions, job)| + (if x.job == job then 1 else 0)
  {
    var more := SessionsOf(sessions, job) + (if x.job == job then {|sessions| as nat} else {});
    forall i: nat ensures i in SessionsOf(sessions + [x], job) <==> i in more {}
    assert SessionsOf(sessions + [x], job) == more;
  }

  /** The history grows by one session of the job exactly when the job is claimed. */
  lemma PerformClaims(s: State, a: int, pid: nat, st: Statement, id: int)
    ensures ClaimsOf(Perform(s, a, pid, st), id)
            == ClaimsOf(s, id) + if st == ClaimRow(id) && Has(s.pub, id, PublishStatus.Pending) then 1 else 0
  {
    match st
    case ClaimRow(i) =>
      if Has(s.pub, i, PublishStatus.Pending) { AppendSession(s.sessions, Session(a, Publish(i), s.now), Publish(id)); }
    case ClaimKey(k) =>
      if k in s.br && s.br[k].status == Queued { AppendSession(s.sessions, Session(a, Browser(k), s.now), Publish(id)); }
    case _ =>
      assert Perform(s, a, pid, st).sessions == s.sessions;
  }

  lemma PerformBalances(s: State, a: int, pid: nat, st: Statement, id: int)
    requires RowBalanced(s, id)
    ensures RowBalanced(Perform(s, a, pid, st), id)
  {
    match st
    case Nothing =>
    case DeferRow(_, _) =>
    case ClaimRow(_) =>
    case VerdictRow(_, _, _) =>
    case RequeueRow(_, _) =>
    case ClaimKey(_) =>
    case BeatKey(_) =>
    case FinishKey(_, _) =>
  }

  lemma PerformTallies(s: State, a: int, pid: nat, st: Statement, id: int)
    ensures TallyOf(Perform(s, a, pid, st), id).claims
            == TallyOf(s, id).claims + if st == ClaimRow(id) && Has(s.pub, id, PublishStatus.Pending) then 1 else 0
  {
  }

  lemma StepBalances(c: Config, s: State, a: int, step: ChildStep, id: int)
    requires StepEnabled(c, s, a, step) && Balanced(s, id)
    ensures Balanced(DoStep(c, s, a, step), id)
  {
    if !step.Reap? {
      var t := s.(procs := s.procs[a := Control(c, s, a, step)]);
      var pid, st := s.procs[a].pid, Issued(c, s, a, step);
      assert RowBalanced(t, id) && ClaimsOf(t, id) == ClaimsOf(s, id);
      PerformBalances(t, a, pid, st, id);
      PerformClaims(t, a, pid, st, id);
      PerformTallies(t, a, pid, st, id);
    }
  }

  lemma SuperviseKeepsTally(c: Config, s: State, act: Action)
    requires !act.Step? && Enabled(c, s, act)
    ensures Supervise(c, s, act).sessions == s.sessions
    ensures !act.WriteCancel? && !act.RecoverPublish? ==> Supervise(c, s, act).tally == s.tally
  {
    match act
    case WriteCancel(_) =>
    case RecoverPublish =>
    case RecoverBrowser(_) =>
    case BeginPass(_) =>
    case HandleAccount(_, _) =>
    case EndPass =>
    case _ =>
  }

  lemma CancelBalances(s: State, canceled: int, id: int)
    requires canceled in s.pub && RowBalanced(s, id)
    ensures RowBalanced(DoWriteCancel(s, canceled), id)
    ensures TallyOf(DoWriteCancel(s, canceled), id).claims == TallyOf(s, id).claims
  {
  }

  lemma RecoveryBalances(c: Config, s: State, id: int)
    requires RowBalanced(s, id)
    ensures RowBalanced(DoRecoverPublish(s, c), id) && TallyOf(DoRecoverPublish(s, c), id).claims == TallyOf(s, id).claims
  {
  }

  lemma SuperviseBalances(c: Config, s: State, act: Action, id: int)
    requires !act.Step? && Enabled(c, s, act) && Balanced(s, id)
    ensures Balanced(Supervise(c, s, act), id)
  {
    SuperviseKeepsTally(c, s, act);
    if act.WriteCancel? {
      CancelBalances(s, act.id, id);
    } else if act.RecoverPublish? {
      RecoveryBalances(c, s, id);
    } else {
      SupervisePub(c, s, act);
    }
  }

  lemma {:induction false} RunBalances(c: Config, acts: seq<Action>, id: int)
    ensures Balanced(Run(c, acts), id)
  {
    if acts == [] {
      assert SessionsOf(INIT.sessions, Publish(id)) == {};
    } else {
      var s, act := Run(c, acts[..|acts| - 1]), acts[|acts| - 1];
      RunBalances(c, acts[..|acts| - 1], id);
      if Enabled(c, s, act) {
        if act.Step? { StepBalances(c, s, act.child, act.step, id); } else { SuperviseBalances(c, s, act, id); }
      }
    }
  }

  // ---- main result ----

  /** In every reachable state the claims of a job are conserved, and it was retried at most as often as there are delays. */
  lemma ClaimsAreConserved(c: Config, s: State, id: int)
    requires Reached(c, s) && id in s.pub
    ensures ClaimsOf(s, id) == s.pub[id].retries + TallyOf(s, id).hanging + TallyOf(s, id).stale + TallyOf(s, id).late
                               + Settled(s.pub[id]) + InFlight(s.pub[id])
    ensures s.pub[id].retries <= c.delays && TallyOf(s, id).late <= 1
  {
    var acts :| Run(c, acts) == s;
    RunBalances(c, acts, id);
    ReachedIsSafe(c, s, id);
  }
}
