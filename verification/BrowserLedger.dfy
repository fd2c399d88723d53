/**
 The browser jobs over whole runs: a job whose kind must not be repeated is started at most once, and a row
 changes its status only through its own child or after its heart stood still.
 */
module BrowserLedger {
  import opened Collections
  import opened PublishLedger
  import opened Protocol
  import opened ProtocolSafety

  function StartsOf(s: State, key: string): set<nat> { SessionsOf(s.sessions, Browser(key)) }

  /** Nothing started before the row existed; a job that must not be repeated is queued only before its one start. */
  predicate StartedOnce(s: State, key: string) {
    && (key !in s.br ==> StartsOf(s, key) == {})
    && (key in s.br && !s.br[key].rerunnable ==>
          |StartsOf(s, key)| <= 1 && (s.br[key].status == Queued ==> StartsOf(s, key) == {}))
  }

  lemma OneMoreStart(sessions: seq<Session>, x: Session, key: string)
    ensures SessionsOf(sessions + [x], Browser(key))
            == SessionsOf(sessions, Browser(key)) + (if x.job == Browser(key) then {|sessions| as nat} else {})
  {
    var n: nat := |sessions|;
    var more := SessionsOf(sessions, Browser(key)) + (if x.job == Browser(key) then {n} else {});
    forall i: nat ensures i in SessionsOf(sessions + [x], Browser(key)) <==> i in more {}
  }

  /** Only the claim of the job itself adds to its starts. */
  lemma PerformStarts(s: State, a: int, pid: nat, st: Statement, key: string)
    ensures var claims := st == ClaimKey(key) && key in s.br && s.br[key].status == Queued;
            StartsOf(Perform(s, a, pid, st), key) == StartsOf(s, key) + if claims then {|s.sessions| as nat} else {}
  {
    match st
    case ClaimRow(id) => OneMoreStart(s.sessions, Session(a, Publish(id), s.now), key);
    case ClaimKey(k) => OneMoreStart(s.sessions, Session(a, Browser(k), s.now), key);
    case _ => assert Perform(s, a, pid, st).sessions == s.sessions;
  }

  lemma PerformMoves(s: State, a: int, pid: nat, st: Statement, key: string)
    requires st.FinishKey? ==> st.status == Done || st.status == Error
    ensures var t := Perform(s, a, pid, st);
            && (key in t.br <==> key in s.br)
            && (key in s.br ==> t.br[key].rerunnable == s.br[key].rerunnable
                                && (t.br[key].status == Queued <==> s.br[key].status == Queued && st != ClaimKey(key)))
  {
    match st
    case ClaimKey(_) =>
    case BeatKey(_) =>
    case FinishKey(_, _) =>
    case _ =>
  }

  lemma PerformStartsOnce(s: State, a: int, pid: nat, st: Statement, key: string)
    requires StartedOnce(s, key) && (st.FinishKey? ==> st.status == Done || st.status == Error)
    ensures StartedOnce(Perform(s, a, pid, st), key)
  {
    PerformStarts(s, a, pid, st, key);
    PerformMoves(s, a, pid, st, key);
    if st == ClaimKey(key) && key in s.br && s.br[key].status == Queued && !s.br[key].rerunnable {
      assert {} + {|s.sessions| as nat} == {|s.sessions| as nat};
    }
  }

  lemma StepStartsOnce(c: Config, s: State, a: int, step: ChildStep, key: string)
    requires StepEnabled(c, s, a, step) && StartedOnce(s, key)
    ensures StartedOnce(DoStep(c, s, a, step), key)
  {
    if !step.Reap? {
      var u := s.(procs := s.procs[a := Control(c, s, a, step)]);
      assert StartedOnce(u, key);
      PerformStartsOnce(u, a, s.procs[a].pid, Issued(c, s, a, step), key);
    }
  }

  /** What the clients and the supervisor do to the browser table. */
  function BrAfter(s: State, act: Action): BrowserTable {
    match act
    case SubmitBrowser(key, a, rerunnable) => s.br[key := BrowserRow(a, rerunnable, Queued, s.now, None, None)]
    case RecoverBrowser(key) => if key in s.br then DoRecoverBrowser(s, key).br else s.br
    case _ => s.br
  }

  lemma SuperviseBr(c: Config, s: State, act: Action)
    requires !act.Step? && Enabled(c, s, act)
    ensures Supervise(c, s, act).br == BrAfter(s, act) && Supervise(c, s, act).sessions == s.sessions
  {
    match act
    case Tick(_) =>
    case SubmitPublish(_, _) =>
    case SubmitBrowser(_, _, _) =>
    case ReadCancel(_) =>
    case WriteCancel(_) =>
    case RecoverPublish =>
    case ReadStale(_) =>
    case RecoverBrowser(_) =>
    case BeginPass(_) =>
    case HandleAccount(_, _) =>
    case EndPass =>
  }

  lemma SuperviseStartsOnce(c: Config, s: State, act: Action, key: string)
    requires !act.Step? && Enabled(c, s, act) && StartedOnce(s, key)
    ensures StartedOnce(Supervise(c, s, act), key)
  {
    SuperviseBr(c, s, act);
  }

  lemma {:induction false} RunStartsOnce(c: Config, acts: seq<Action>, key: string)
    ensures StartedOnce(Run(c, acts), key)
  {
    if acts == [] {
      assert StartsOf(INIT, key) == {};
    } else {
      var s, act := Run(c, acts[..|acts| - 1]), acts[|acts| - 1];
      RunStartsOnce(c, acts[..|acts| - 1], key);
      if Enabled(c, s, act) {
        if act.Step? { StepStartsOnce(c, s, act.child, act.step, key); } else { SuperviseStartsOnce(c, s, act, key); }
      }
    }
  }

  // ---- main results ----

  /** In every run, whatever crashes and is recovered, a job of a kind that must not be repeated is started at most once. */
  lemma NoSecondStart(c: Config, s: State, key: string)
    requires Reached(c, s) && key in s.br && !s.br[key].rerunnable
    ensures |set i: nat | i < |s.sessions| && s.sessions[i].job == Browser(key)| <= 1
  {
    var acts :| Run(c, acts) == s;
    RunStartsOnce(c, acts, key);
    assert StartsOf(s, key) == set i: nat | i < |s.sessions| && s.sessions[i].job == Browser(key);
  }

  /** The child of `a` has claimed the row under its own process number, or claims it now, or says how it ended. */
  predicate MovedByChild(r: BrowserRow, t: BrowserRow, pid: nat, step: ChildStep) {
    || (step.ClaimBrowser? && r.status == Queued && t.status == Running && t.claimedBy == Some(pid))
    || (step.FinishBrowser? && step.written && r.status == Running && r.claimedBy == Some(pid)
        && t.status == step.status && t.claimedBy == r.claimedBy)
  }

  lemma StepMovesBrowser(c: Config, s: State, a: int, step: ChildStep, key: string)
    requires StepEnabled(c, s, a, step) && key in s.br
    ensures key in DoStep(c, s, a, step).br
    ensures var r, t := s.br[key], DoStep(c, s, a, step).br[key];
            t.status != r.status ==> MovedByChild(r, t, s.procs[a].pid, step)
  {
  }

  /**
   A row changes its status only by its claim, by the end that the child reports under whose number it was
   claimed, or by a reset: back to the queue if it may be repeated, and to an error if it may not.
   */
  lemma BrowserRowMoves(c: Config, s: State, act: Action, key: string)
    requires key in s.br
    ensures key in Next(c, s, act).br
    ensures var r, t := s.br[key], Next(c, s, act).br[key];
            t.status != r.status ==>
              || (act.Step? && Live(s, act.child) && MovedByChild(r, t, s.procs[act.child].pid, act.step))
              || (act == RecoverBrowser(key) && ResetKey(key) in s.underway
                  && if r.rerunnable then t.status == Queued && t.claimedBy.None? else t.status == Error)
  {
    if Enabled(c, s, act) {
      if act.Step? { StepMovesBrowser(c, s, act.child, act.step, key); } else { SuperviseBr(c, s, act); }
    }
  }

  /** A reset is begun only for a running job that has not shown a sign of life for more than 900 seconds. */
  lemma ResetNeedsAStoppedHeart(c: Config, s: State, act: Action, key: string)
    requires ResetKey(key) !in s.underway && ResetKey(key) in Next(c, s, act).underway
    ensures key in s.br && s.br[key].status == Running
    ensures s.br[key].heartbeat.Some? ==> s.now - s.br[key].heartbeat.value > 900_000_000
  {
    if act.Step? && Enabled(c, s, act) { StepKeepsUnderway(c, s, act.child, act.step); }
  }

  lemma StepKeepsUnderway(c: Config, s: State, a: int, step: ChildStep)
    requires StepEnabled(c, s, a, step)
    ensures DoStep(c, s, a, step).underway == s.underway
  {
  }
}
