/**
 The account child's handling of one publish job, statement by statement. The method is the code of one
 process; `JobIsProtocolRun` shows that an undisturbed call is a run of the transition system.
 */
module AccountWorker {
  import opened Collections
  import opened PublishLedger
  import opened Protocol

  /** Where the database connection may raise before the job is claimed. */
  datatype Stage = Loading | Gating | Claiming

  /** Everything that one call does not control: clock readings, random draws, the publish result, failing writes. */
  datatype Fate = Fate(
    failAt: Option<Stage>,
    gateAt: int, interval: int, delay: int, claimAt: int,
    result: ExecResult,
    first: WriteOutcome, firstAt: int,
    second: WriteOutcome, secondAt: int,
    closed: bool, closedAt: int)

  /** How a claimed job leaves the call. */
  datatype Ending = Judged(verdict: Verdict, at: int) | PutBack(at: int) | Hanging

  /** The first write that lands decides; nothing after it counts. */
  function EndingOf(f: Fate, retries: nat, delays: nat): Ending {
    if f.result.Returned? && f.first != NotWritten then
      Judged(DecideFinish(f.result.success, f.result.needManualLogin, f.result.accountRestricted, retries, delays), f.firstAt)
    else if f.second != NotWritten then Judged(FallbackVerdict(retries, delays), f.secondAt)
    else if f.closed then PutBack(f.closedAt)
    else Hanging
  }

  function ApplyEnding(t: PublishTable, id: int, e: Ending): PublishTable {
    match e
    case Judged(verdict, at) => ApplyVerdict(t, id, verdict, at)
    case PutBack(at) => Requeue(t, id, at)
    case Hanging => t
  }

  /** The call reaches the gate. */
  predicate Reaches(t: PublishTable, id: int, f: Fate) {
    Has(t, id, Pending) && f.failAt != Some(Loading) && f.failAt != Some(Gating)
  }

  predicate Opens(t: PublishTable, account: int, c: Config, id: int, f: Fate) {
    GateOpen(t, account, id, f.gateAt, f.interval, c.dailyCap)
  }

  predicate Claims(t: PublishTable, account: int, c: Config, id: int, f: Fate) {
    Reaches(t, id, f) && Opens(t, account, c, id, f) && f.failAt != Some(Claiming)
  }

  /** The table after one call. */
  function JobResult(t: PublishTable, account: int, c: Config, id: int, f: Fate): PublishTable {
    if Claims(t, account, c, id, f) then ApplyEnding(Claim(t, id, f.claimAt), id, EndingOf(f, t[id].retries, c.delays))
    else if Reaches(t, id, f) && !Opens(t, account, c, id, f) then Defer(t, id, f.gateAt + f.delay)
    else t
  }

  class Worker {
    const account: int
    const config: Config
    var rows: PublishTable

    constructor (account: int, config: Config, rows: PublishTable)
      ensures this.account == account && this.config == config && this.rows == rows
    {
      this.account, this.config, this.rows := account, config, rows;
    }

    /** The newest start among the other started rows, and the number of rows published since midnight. */
    method ReadHistory(self: int, today: int) returns (last: Option<int>, published: nat)
      ensures last.None? <==> forall id | id in rows :: id != self ==> !Started(rows, account, id)
      ensures last.Some? ==> exists id :: id != self && Started(rows, account, id) && rows[id].startedAt == last
      ensures last.Some? ==> forall id | id in rows :: id != self && Started(rows, account, id) ==> rows[id].startedAt.value <= last.value
      ensures published == |PublishedSince(rows, account, today)|
    {
      var todo, done: set<int> := rows.Keys, {};
      last := None;
      while todo != {}
        invariant todo + done == rows.Keys && todo !! done
        invariant last.None? <==> forall id | id in done :: id != self ==> !Started(rows, account, id)
        invariant last.Some? ==> exists id :: id != self && Started(rows, account, id) && rows[id].startedAt == last
        invariant last.Some? ==> forall id | id in done :: id != self && Started(rows, account, id) ==> rows[id].startedAt.value <= last.value
        decreases |todo|
      {
        var id := Least(todo);
        if id != self && Started(rows, account, id) && (last.None? || last.value < rows[id].startedAt.value) {
          last := rows[id].startedAt;
        }
        todo, done := todo - {id}, done + {id};
      }
      published := |PublishedSince(rows, account, today)|;
    }

    method PublishGate(id: int, now: int, interval: int, delay: int) returns (open: bool)
      modifies `rows
      ensures open <==> GateOpen(old(rows), account, id, now, interval, config.dailyCap)
      ensures rows == if open then old(rows) else Defer(old(rows), id, now + delay)
    {
      var last, published := ReadHistory(id, DayStart(now));
      open := CooldownRemaining(last, now, interval) <= 0 && !(published >= config.dailyCap);
      if !open {
        rows := Defer(rows, id, now + delay);
      }
    }

    method ClaimPublish(id: int, now: int) returns (claimed: bool)
      modifies `rows
      ensures claimed <==> Has(old(rows), id, Pending)
      ensures rows == Claim(old(rows), id, now)
    {
      claimed := Has(rows, id, Pending);
      if claimed {
        rows := rows[id := rows[id].(status := Publishing, startedAt := Some(now))];
      }
    }

    /** Writes a verdict; the steps after a published verdict may raise although the row is final by then. */
    method ApplyDecision(id: int, verdict: Verdict, at: int, outcome: WriteOutcome) returns (raised: bool)
      modifies `rows
      ensures rows == if outcome == NotWritten then old(rows) else ApplyVerdict(old(rows), id, verdict, at)
      ensures raised <==> WriteRaises(verdict, outcome)
    {
      if outcome == NotWritten { return true; }
      if Has(rows, id, Publishing) {
        var row := rows[id];
        match verdict {
          case ToPublished => rows := rows[id := row.(status := Published)];
          case ToPending =>
            rows := rows[id := row.(status := Pending, startedAt := None, retries := row.retries + 1, nextRetryAt := Some(at))];
          case ToFailed => rows := rows[id := row.(status := Failed, startedAt := None)];
        }
      }
      raised := verdict.ToPublished? && outcome == RaisedAfterWrite;
    }

    method RequeueIfHanging(id: int, at: int, written: bool)
      modifies `rows
      ensures rows == if written then Requeue(old(rows), id, at) else old(rows)
    {
      if written && Has(rows, id, Publishing) {
        rows := rows[id := rows[id].(status := Pending, startedAt := None, nextRetryAt := Some(at))];
      }
    }

    method RunPublishJob(id: int, f: Fate)
      modifies `rows
      ensures rows == JobResult(old(rows), account, config, id, f)
    {
      if f.failAt == Some(Loading) || !Has(rows, id, Pending) { return; }
      var retries := rows[id].retries;
      if f.failAt == Some(Gating) { return; }
      var open := PublishGate(id, f.gateAt, f.interval, f.delay);
      if !open || f.failAt == Some(Claiming) { return; }
      var claimed := ClaimPublish(id, f.claimAt);
      if !claimed { return; }
      var raised := f.result.Raised?;
      if !raised {
        var verdict := DecideFinish(f.result.success, f.result.needManualLogin, f.result.accountRestricted, retries, config.delays);
        raised := ApplyDecision(id, verdict, f.firstAt, f.first);
      }
      if raised {
        var ignored := ApplyDecision(id, FallbackVerdict(retries, config.delays), f.secondAt, f.second);
      }
      RequeueIfHanging(id, f.closedAt, f.closed);
    }
  }

  // ---- what one call means ----

  /** A call touches no other row, and never a row that is not pending. */
  lemma OnlyTheJobChanges(t: PublishTable, account: int, c: Config, id: int, f: Fate)
    ensures var r := JobResult(t, account, c, id, f);
            && r.Keys == t.Keys
            && (forall k | k in t && (k != id || t[k].status != Pending) :: r[k] == t[k])
  {
  }

  /** The call claims the job exactly if no statement before raised, the gate is open and the row is still pending. */
  lemma ClaimsMeaning(t: PublishTable, account: int, c: Config, id: int, f: Fate)
    ensures Claims(t, account, c, id, f)
            <==> id in t && t[id].status == Pending && f.failAt.None? && GateOpen(t, account, id, f.gateAt, f.interval, c.dailyCap)
    ensures !Claims(t, account, c, id, f) && id in t ==>
              JobResult(t, account, c, id, f)[id]
              == if t[id].status == Pending && (f.failAt.None? || f.failAt == Some(Claiming))
                    && !GateOpen(t, account, id, f.gateAt, f.interval, c.dailyCap)
                 then t[id].(nextRetryAt := Some(f.gateAt + f.delay)) else t[id]
  {
    match f.failAt
    case None =>
    case Some(Loading) =>
    case Some(Gating) =>
    case Some(Claiming) =>
  }

  /**
   Why a claimed job fails, and why it is tried again: after an answer by the answer and the retries left, after
   an exception or a lost write by the retries left alone. Exactly a retry and a put-back set a new due time.
   */
  lemma ClaimedEndings(t: PublishTable, account: int, c: Config, id: int, f: Fate)
    requires Claims(t, account, c, id, f)
    ensures var row, r := t[id], JobResult(t, account, c, id, f)[id];
            var answered := f.result.Returned? && f.first != NotWritten;
            var fallback := !answered && f.second != NotWritten;
            var hopeless := answered && (f.result.needManualLogin || f.result.accountRestricted);
            && (r.status == Failed <==> (answered && !f.result.success && (hopeless || row.retries >= c.delays))
                                        || (fallback && row.retries >= c.delays))
            && (r.retries == row.retries + 1 <==> (answered && !f.result.success && !hopeless && row.retries < c.delays)
                                                  || (fallback && row.retries < c.delays))
            && (r.status == Pending <==> r.retries == row.retries + 1 || (!answered && !fallback && f.closed))
            && r.nextRetryAt == (if r.retries == row.retries + 1 then Some(if answered then f.firstAt else f.secondAt)
                                 else if r.status == Pending then Some(f.closedAt) else row.nextRetryAt)
  {
  }

  /**
   The exact cases in which a pending job ends in each status. A claimed call whose verdict was written fails
   exactly if it was no success and manual login, a restricted account or used-up retries stand against another
   try; the fallback knows only the retries.
   */
  lemma JobEndings(t: PublishTable, account: int, c: Config, id: int, f: Fate)
    requires Has(t, id, Pending)
    ensures var row, r := t[id], JobResult(t, account, c, id, f)[id];
            var claims, answered := Claims(t, account, c, id, f), f.result.Returned? && f.first != NotWritten;
            var fallback := !answered && f.second != NotWritten;
            var hopeless := answered && (f.result.needManualLogin || f.result.accountRestricted);
            var failed := (answered && !f.result.success) || fallback;
            && (r.status == Published <==> claims && answered && f.result.success)
            && (r.status == Failed <==> claims && failed && (hopeless || row.retries >= c.delays))
            && (r.status == Publishing <==> claims && !answered && !fallback && !f.closed)
            && (r.retries == (if claims && failed && !hopeless && row.retries < c.delays then row.retries + 1 else row.retries))
            && (r.status == Pending <==> !claims || r.retries > row.retries || (!answered && !fallback && f.closed))
            && (claims ==> r.startedAt == if r.status == Published || r.status == Publishing then Some(f.claimAt) else None)
            && r.account == row.account
  {
    if Claims(t, account, c, id, f) { ClaimedEndings(t, account, c, id, f); } else { ClaimsMeaning(t, account, c, id, f); }
  }

  // ---- the call as a run of the transition system ----

  /** Only the clock and the account's own child act. */
  predicate Undisturbed(acts: seq<Action>, a: int) {
    forall act <- acts :: act.Tick? || (act.Step? && act.child == a)
  }

  /** The table after a statement. */
  function After(t: PublishTable, st: Statement, now: int): PublishTable {
    match st
    case DeferRow(id, until) => Defer(t, id, until)
    case ClaimRow(id) => Claim(t, id, now)
    case VerdictRow(id, verdict, at) => ApplyVerdict(t, id, verdict, at)
    case RequeueRow(id, at) => Requeue(t, id, at)
    case _ => t
  }

  lemma StepEffect(c: Config, s: State, a: int, step: ChildStep)
    requires StepEnabled(c, s, a, step) && !step.Reap?
    ensures var t := Next(c, s, Step(a, step));
            && a in t.procs && t.procs[a] == Control(c, s, a, step) && t.now == s.now
            && t.pub == After(s.pub, Issued(c, s, a, step), s.now)
  {
    var u := s.(procs := s.procs[a := Control(c, s, a, step)]);
    assert Next(c, s, Step(a, step)) == Perform(u, a, s.procs[a].pid, Issued(c, s, a, step));
  }

  /** Running `more` from the state after `act`, prefixed by `act`. */
  lemma Prefixed(c: Config, s: State, act: Action, more: seq<Action>, a: int)
    requires Undisturbed(more, a) && (act.Tick? || (act.Step? && act.child == a))
    ensures Undisturbed([act] + more, a)
    ensures RunFrom(c, s, [act] + more) == RunFrom(c, Next(c, s, act), more)
  {
    RunFromFirst(c, s, act, more);
  }

  lemma CloseRun(c: Config, s: State, a: int, f: Fate) returns (acts: seq<Action>)
    requires Live(s, a) && s.procs[a].phase.Closing?
    ensures Undisturbed(acts, a)
    ensures var id, t := s.procs[a].phase.id, RunFrom(c, s, acts);
            t.pub == (if f.closed then Requeue(s.pub, id, f.closedAt) else s.pub) && AtIdle(t, a)
  {
    var act := Step(a, Close(f.closed, f.closedAt));
    StepEffect(c, s, a, act.step);
    Prefixed(c, s, act, [], a);
    acts := [act] + [];
  }

  lemma FallbackRun(c: Config, s: State, a: int, f: Fate) returns (acts: seq<Action>)
    requires Live(s, a) && s.procs[a].phase.Deciding? && s.procs[a].phase.fallback
    ensures Undisturbed(acts, a)
    ensures var p, t := s.procs[a].phase, RunFrom(c, s, acts);
            var u := if f.second == NotWritten then s.pub else ApplyVerdict(s.pub, p.id, p.verdict, f.secondAt);
            t.pub == (if f.closed then Requeue(u, p.id, f.closedAt) else u) && AtIdle(t, a)
  {
    var act := Step(a, Settle(f.second, f.secondAt));
    StepEffect(c, s, a, act.step);
    var more := CloseRun(c, Next(c, s, act), a, f);
    Prefixed(c, s, act, more, a);
    acts := [act] + more;
  }

  lemma VerdictRun(c: Config, s: State, a: int, f: Fate) returns (acts: seq<Action>)
    requires Live(s, a) && s.procs[a].phase.Executing? && Has(s.pub, s.procs[a].phase.id, Publishing)
    ensures Undisturbed(acts, a)
    ensures var p, t := s.procs[a].phase, RunFrom(c, s, acts);
            t.pub == ApplyEnding(s.pub, p.id, EndingOf(f, p.retries, c.delays)) && AtIdle(t, a)
  {
    var execute := Step(a, Execute(f.result));
    StepEffect(c, s, a, execute.step);
    var s1 := Next(c, s, execute);
    var more: seq<Action>;
    if f.result.Raised? {
      more := FallbackRun(c, s1, a, f);
    } else {
      var settle := Step(a, Settle(f.first, f.firstAt));
      StepEffect(c, s1, a, settle.step);
      var s2 := Next(c, s1, settle);
      var rest: seq<Action>;
      if s2.procs[a].phase.Closing? { rest := CloseRun(c, s2, a, f); } else { rest := FallbackRun(c, s2, a, f); }
      Prefixed(c, s1, settle, rest, a);
      more := [settle] + rest;
    }
    Prefixed(c, s, execute, more, a);
    acts := [execute] + more;
  }

  lemma TickEffect(c: Config, s: State, micros: nat)
    ensures Next(c, s, Tick(micros)) == s.(now := s.now + micros)
  {
  }

  /** The claim and what follows it, at the time of the claim. */
  lemma ClaimedRun(c: Config, s: State, a: int, f: Fate) returns (acts: seq<Action>)
    requires Live(s, a) && s.procs[a].phase.Gated? && Has(s.pub, s.procs[a].phase.id, Pending) && f.claimAt == s.now
    ensures Undisturbed(acts, a)
    ensures var p, t := s.procs[a].phase, RunFrom(c, s, acts);
            AtIdle(t, a) && t.pub == ApplyEnding(Claim(s.pub, p.id, f.claimAt), p.id, EndingOf(f, p.retries, c.delays))
  {
    var claim := Step(a, ChildStep.ClaimPublish);
    StepEffect(c, s, a, claim.step);
    var more := VerdictRun(c, Next(c, s, claim), a, f);
    Prefixed(c, s, claim, more, a);
    acts := [claim] + more;
  }

  lemma ClaimRun(c: Config, s: State, a: int, f: Fate) returns (acts: seq<Action>)
    requires Live(s, a) && s.procs[a].phase.Gated? && Has(s.pub, s.procs[a].phase.id, Pending) && f.claimAt >= s.now
    ensures Undisturbed(acts, a)
    ensures var p, t := s.procs[a].phase, RunFrom(c, s, acts);
            && AtIdle(t, a)
            && t.pub == (if f.failAt == Some(Claiming) then s.pub
                         else ApplyEnding(Claim(s.pub, p.id, f.claimAt), p.id, EndingOf(f, p.retries, c.delays)))
  {
    if f.failAt == Some(Claiming) {
      StepEffect(c, s, a, Abandon);
      Prefixed(c, s, Step(a, Abandon), [], a);
      acts := [Step(a, Abandon)] + [];
    } else {
      var tick := Tick(f.claimAt - s.now);
      TickEffect(c, s, tick.micros);
      var more := ClaimedRun(c, Next(c, s, tick), a, f);
      Prefixed(c, s, tick, more, a);
      acts := [tick] + more;
    }
  }

  /** A call that no other process disturbs is a run of the child's own steps and of the clock, with the same table. */
  lemma JobIsProtocolRun(c: Config, s: State, a: int, f: Fate) returns (acts: seq<Action>)
    requires AtPublishHead(s, a) && c.Interval(f.interval) && c.Interval(f.delay) && f.gateAt == s.now && f.claimAt >= s.now
    ensures Undisturbed(acts, a)
    ensures AtIdle(RunFrom(c, s, acts), a)
    ensures RunFrom(c, s, acts).pub == JobResult(s.pub, a, c, s.procs[a].todo[0].id, f)
  {
    var id := s.procs[a].todo[0].id;
    var load, abandon, gate := Step(a, Load), Step(a, Abandon), Step(a, Gate(f.interval, f.delay));
    var first := if f.failAt == Some(Loading) then abandon else load;
    StepEffect(c, s, a, first.step);
    var s1 := Next(c, s, first);
    var more: seq<Action> := [];
    if f.failAt != Some(Loading) && Has(s.pub, id, Pending) {
      if f.failAt == Some(Gating) {
        StepEffect(c, s1, a, Abandon);
        Prefixed(c, s1, abandon, [], a);
        more := [abandon] + [];
      } else {
        StepEffect(c, s1, a, gate.step);
        var rest: seq<Action> := [];
        if Opens(s.pub, a, c, id, f) { rest := ClaimRun(c, Next(c, s1, gate), a, f); }
        Prefixed(c, s1, gate, rest, a);
        more := [gate] + rest;
      }
    }
    Prefixed(c, s, first, more, a);
    acts := [first] + more;
  }
}
