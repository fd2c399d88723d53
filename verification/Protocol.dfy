/**
 The publishing and dispatch protocol as a transition system: one supervisor incarnation, its account
 children, and the clock. Every database statement is one atomic action, actions of different processes
 interleave freely, and a child may be killed between any two of them.
 */
module Protocol {
  import opened Collections
  import opened PublishLedger

  datatype Config = Config(
    minInterval: int, maxInterval: int, dailyCap: int, delays: nat, publishTimeout: nat,
    caps: Caps, batch: nat, maxProcs: nat)
  {
    predicate Interval(x: int) { minInterval <= x <= maxInterval }
  }

  /** Where a child stands inside the job it has taken from its batch. */
  datatype Phase =
    | Idle
    | Loaded(id: int, retries: nat)
    | Gated(id: int, retries: nat, gatedAt: int)
    | Executing(id: int, retries: nat)
    | Deciding(id: int, retries: nat, verdict: Verdict, fallback: bool)
    | Closing(id: int)
    | Browsing(key: string)

  datatype Child = Child(pid: nat, alive: bool, todo: seq<JobRef>, phase: Phase)

  /** One browser session: it starts when its job is claimed. */
  datatype Session = Session(account: int, job: JobRef, start: int)

  /** How often a publish job was claimed, put back by the `finally` branch, reset as stale, and canceled too late. */
  datatype Tally = Tally(claims: nat, hanging: nat, stale: nat, late: nat)

  /** A request that has read a row and will overwrite it without looking again. */
  datatype Unguarded = CancelRow(id: int) | ResetKey(key: string)

  /**
   A dispatch pass in progress. `counts` were taken once, when `mark` sessions had started; `order` holds
   the accounts still to be handled.
   */
  datatype Pass = Pass(
    work: map<int, seq<Item>>, counts: map<int, nat>, mark: nat, order: seq<int>, dispatched: seq<int>)

  /**
   `sessions`, `uncounted` and `tally` are history: no action looks at them. A session is uncounted once
   its trace has been erased from the tables, or when it began between the count of a pass and the spawn
   of its own account in that pass.
   */
  datatype State = State(
    now: int, pub: PublishTable, br: BrowserTable, procs: map<int, Child>, rotation: seq<int>,
    pass: Option<Pass>, pids: nat, underway: set<Unguarded>,
    sessions: seq<Session>, uncounted: set<nat>, tally: map<int, Tally>)

  datatype WriteOutcome = Written | NotWritten | RaisedAfterWrite

  /** One atomic step of a child process, or its death, or the supervisor reaping it. */
  datatype ChildStep =
    | Load
    | Gate(interval: int, delay: int)
    | ClaimPublish
    | Abandon
    | Execute(result: ExecResult)
    | Settle(outcome: WriteOutcome, at: int)
    | Close(written: bool, at: int)
    | ClaimBrowser
    | Beat
    | FinishBrowser(status: BrowserStatus, written: bool)
    | Exit
    | Kill
    | Reap

  datatype Action =
    | Tick(micros: nat)
    | SubmitPublish(id: int, account: int)
    | SubmitBrowser(key: string, account: int, rerunnable: bool)
    | ReadCancel(id: int)
    | WriteCancel(id: int)
    | RecoverPublish
    | ReadStale(key: string)
    | RecoverBrowser(key: string)
    | BeginPass(work: map<int, seq<Item>>)
    | HandleAccount(spawns: bool, todo: seq<JobRef>)
    | EndPass
    | Step(child: int, step: ChildStep)

  const INIT := State(0, map[], map[], map[], [], None, 0, {}, [], {}, map[])

  // ---- helpers ----

  predicate Live(s: State, a: int) { a in s.procs && s.procs[a].alive }

  /** Account `a` has a live child and that child is in a phase of the wanted kind. */
  predicate AtIdle(s: State, a: int) { Live(s, a) && s.procs[a].phase.Idle? }

  predicate AtPublishHead(s: State, a: int) {
    AtIdle(s, a) && s.procs[a].todo != [] && s.procs[a].todo[0].Publish?
  }

  predicate AtBrowserHead(s: State, a: int) {
    AtIdle(s, a) && s.procs[a].todo != [] && s.procs[a].todo[0].Browser?
  }

  function LiveAccounts(s: State): set<int> { set a | a in s.procs && s.procs[a].alive }

  function TallyOf(s: State, id: int): Tally {
    if id in s.tally then s.tally[id] else Tally(0, 0, 0, 0)
  }

  /** The history indices of the sessions of a job. */
  function SessionsOf(sessions: seq<Session>, job: JobRef): set<nat> {
    set i: nat | i < |sessions| && sessions[i].job == job
  }

  function JobAccount(s: State, job: JobRef): Option<int> {
    match job
    case Publish(id) => if id in s.pub then Some(s.pub[id].account) else None
    case Browser(key) => if key in s.br then Some(s.br[key].account) else None
  }

  /** Each account's queue is oldest first and names existing rows of that account. */
  predicate WorkMatchesRows(s: State, work: map<int, seq<Item>>) {
    forall a | a in work ::
      && (forall item <- work[a] :: JobAccount(s, item.job) == Some(a))
      && (forall i, j :: 0 <= i < j < |work[a]| ==> work[a][i].created <= work[a][j].created)
  }

  /** A child runs its publish jobs first, by ascending id, and then the browser jobs in batch order. */
  ghost predicate ChildOrder(kept: seq<Item>, todo: seq<JobRef>) {
    && multiset(todo) == multiset(seq(|kept|, i requires 0 <= i < |kept| => kept[i].job))
    && |todo| == |kept|
    && (forall i, j :: 0 <= i < j < |todo| && todo[j].Publish? ==> todo[i].Publish? && todo[i].id <= todo[j].id)
    && Filter(todo, (j: JobRef) => j.Browser?)
       == Filter(seq(|kept|, i requires 0 <= i < |kept| => kept[i].job), (j: JobRef) => j.Browser?)
  }

  // ---- rotation ----

  /** New accounts enter the rotation at the tail, by ascending number. */
  function AddMissing(rotation: seq<int>, accounts: set<int>): seq<int>
    decreases |accounts|
  {
    if accounts == {} then rotation
    else
      var a := Least(accounts);
      AddMissing(if a in rotation then rotation else rotation + [a], accounts - {a})
  }

  function FairOrder(rotation: seq<int>, accounts: set<int>): seq<int> {
    Filter(AddMissing(rotation, accounts), a => a in accounts)
  }

  /** Dispatched accounts move to the tail, in the order of their dispatch. */
  function MoveToTail(rotation: seq<int>, dispatched: seq<int>): seq<int> {
    Filter(rotation, a => a !in dispatched) + dispatched
  }

  // ---- the cancel endpoint ----

  /** A cancel is late if the job was claimed since the endpoint read it; it then hides the job's session. */
  predicate Late(row: PublishRow) { row.status != Pending && row.status != Canceled }

  function DoWriteCancel(s: State, id: int): State
    requires id in s.pub
  {
    s.(pub := Cancel(s.pub, id), underway := s.underway - {CancelRow(id)},
       uncounted := if InHand(s.pub[id]) then s.uncounted + SessionsOf(s.sessions, Publish(id)) else s.uncounted,
       tally := s.tally[id := TallyOf(s, id).(late := TallyOf(s, id).late + if Late(s.pub[id]) then 1 else 0)])
  }

  // ---- the supervisor's actions ----

  function DoRecoverPublish(s: State, c: Config): State {
    var cutoff := s.now - c.publishTimeout;
    var live := LiveAccounts(s);
    var hit := set id | id in s.pub && Stale(s.pub[id], cutoff, live);
    s.(pub := RecoverStale(s.pub, cutoff, live),
       uncounted := s.uncounted
                    + (set i: nat | i < |s.sessions| && s.sessions[i].job.Publish? && s.sessions[i].job.id in hit),
       tally := map id | id in s.pub ::
                  if id in hit then TallyOf(s, id).(stale := TallyOf(s, id).stale + 1) else TallyOf(s, id))
  }

  /**
   A browser row that was read with a stopped heart, whatever it is by now: idempotent kinds go back to the
   queue, the others end. A queued row shows no session that this could hide.
   */
  function DoRecoverBrowser(s: State, key: string): State
    requires key in s.br
  {
    var row := s.br[key];
    var left := s.underway - {ResetKey(key)};
    if row.rerunnable
    then s.(br := s.br[key := row.(status := Queued, claimedBy := None, heartbeat := None, updatedAt := s.now)], underway := left,
            uncounted := if row.status == Queued then s.uncounted else s.uncounted + SessionsOf(s.sessions, Browser(key)))
    else s.(br := s.br[key := row.(status := Error, updatedAt := s.now)], underway := left)
  }

  function DoBeginPass(s: State, work: map<int, seq<Item>>): State {
    var counts := map a | a in work :: RecentSessions(s.pub, s.br, a, s.now);
    s.(rotation := AddMissing(s.rotation, work.Keys),
       pass := Some(Pass(work, counts, |s.sessions|, FairOrder(s.rotation, work.Keys), [])))
  }

  function Batch(p: Pass, c: Config, a: int): seq<Item>
    requires a in p.work && a in p.counts
  {
    c.caps.Kept(if |p.work[a]| <= c.batch then p.work[a] else p.work[a][..c.batch], p.counts[a])
  }

  /** What the loop does with the next account: it is busy, the process table is full, the cap holds all, or it goes. */
  datatype Handling = Busy | Full | Capped | Go

  predicate HasNext(s: State) {
    && s.pass.Some? && s.pass.value.order != []
    && s.pass.value.order[0] in s.pass.value.work && s.pass.value.order[0] in s.pass.value.counts
  }

  function NextAccount(s: State): int
    requires HasNext(s)
  {
    s.pass.value.order[0]
  }

  function Handle(s: State, c: Config): Handling
    requires HasNext(s)
  {
    if NextAccount(s) in s.procs then Busy
    else if |s.procs| >= c.maxProcs then Full
    else if Batch(s.pass.value, c, NextAccount(s)) == [] then Capped
    else Go
  }

  ghost predicate CanHandle(s: State, c: Config, todo: seq<JobRef>) {
    HasNext(s) && (Handle(s, c).Go? ==> ChildOrder(Batch(s.pass.value, c, NextAccount(s)), todo))
  }

  /** Sessions of `a` that began after the pass took its counts. */
  function Raced(s: State, a: int, mark: nat): set<nat> {
    set i: nat | mark <= i < |s.sessions| && s.sessions[i].account == a
  }

  function Spawn(s: State, a: int, mark: nat, todo: seq<JobRef>): State {
    s.(procs := s.procs[a := Child(s.pids, true, todo, Idle)], pids := s.pids + 1,
       uncounted := s.uncounted + Raced(s, a, mark))
  }

  /** The pass after one account: a full table ends the loop, and a dispatched account is remembered. */
  function Advance(p: Pass, h: Handling): Pass
    requires p.order != []
  {
    Pass(p.work, p.counts, p.mark,
         if h.Full? then [] else p.order[1..],
         if h.Go? then p.dispatched + [p.order[0]] else p.dispatched)
  }

  /** A dispatched account counts as dispatched even when creating its process fails. */
  function DoHandleAccount(s: State, c: Config, spawns: bool, todo: seq<JobRef>): State
    requires HasNext(s)
  {
    var h := Handle(s, c);
    var t := s.(pass := Some(Advance(s.pass.value, h)));
    if h.Go? && spawns then Spawn(t, NextAccount(s), s.pass.value.mark, todo) else t
  }

  function DoEndPass(s: State): State
    requires s.pass.Some?
  {
    s.(pass := None, rotation := MoveToTail(s.rotation, s.pass.value.dispatched))
  }

  // ---- the child's actions: a step moves the child's control state and issues at most one statement ----

  datatype Statement =
    | Nothing
    | DeferRow(id: int, until: int)
    | ClaimRow(id: int)
    | VerdictRow(id: int, verdict: Verdict, at: int)
    | RequeueRow(id: int, at: int)
    | ClaimKey(key: string)
    | BeatKey(key: string)
    | FinishKey(key: string, status: BrowserStatus)

  predicate StepEnabled(c: Config, s: State, a: int, step: ChildStep) {
    match step
    case Load => AtPublishHead(s, a)
    case Gate(interval, delay) =>
      Live(s, a) && s.procs[a].phase.Loaded? && c.Interval(interval) && c.Interval(delay)
    case ClaimPublish => Live(s, a) && s.procs[a].phase.Gated?
    case Abandon => AtPublishHead(s, a) || (Live(s, a) && (s.procs[a].phase.Loaded? || s.procs[a].phase.Gated?))
    case Execute(_) => Live(s, a) && s.procs[a].phase.Executing?
    case Settle(_, _) => Live(s, a) && s.procs[a].phase.Deciding?
    case Close(_, _) => Live(s, a) && s.procs[a].phase.Closing?
    case ClaimBrowser => AtBrowserHead(s, a)
    case Beat => Live(s, a) && s.procs[a].phase.Browsing?
    case FinishBrowser(status, _) => Live(s, a) && s.procs[a].phase.Browsing? && (status == Done || status == Error)
    case Exit => AtIdle(s, a) && s.procs[a].todo == []
    case Kill => Live(s, a)
    case Reap => a in s.procs && !s.procs[a].alive
  }

  /** A write that never landed, or one that landed before the post-publish steps raised. */
  predicate WriteRaises(verdict: Verdict, outcome: WriteOutcome) {
    outcome == NotWritten || (outcome == RaisedAfterWrite && verdict.ToPublished?)
  }

  /** The child after its step. */
  function Control(c: Config, s: State, a: int, step: ChildStep): Child
    requires StepEnabled(c, s, a, step)
  {
    var ch := s.procs[a];
    match step
    case Load =>
      var id := ch.todo[0].id;
      ch.(todo := ch.todo[1..], phase := if Has(s.pub, id, Pending) then Loaded(id, s.pub[id].retries) else Idle)
    case Gate(interval, _) =>
      ch.(phase := if GateOpen(s.pub, a, ch.phase.id, s.now, interval, c.dailyCap)
                   then Gated(ch.phase.id, ch.phase.retries, s.now) else Idle)
    case ClaimPublish =>
      ch.(phase := if Has(s.pub, ch.phase.id, Pending) then Executing(ch.phase.id, ch.phase.retries) else Idle)
    case Abandon => if ch.phase.Idle? then ch.(todo := ch.todo[1..]) else ch.(phase := Idle)
    case Execute(Returned(ok, manual, restricted)) =>
      ch.(phase := Deciding(ch.phase.id, ch.phase.retries,
                            DecideFinish(ok, manual, restricted, ch.phase.retries, c.delays), false))
    case Execute(Raised) =>
      ch.(phase := Deciding(ch.phase.id, ch.phase.retries, FallbackVerdict(ch.phase.retries, c.delays), true))
    case Settle(outcome, _) =>
      ch.(phase := if WriteRaises(ch.phase.verdict, outcome) && !ch.phase.fallback
                   then Deciding(ch.phase.id, ch.phase.retries, FallbackVerdict(ch.phase.retries, c.delays), true)
                   else Closing(ch.phase.id))
    case Close(_, _) => ch.(phase := Idle)
    case ClaimBrowser =>
      var key := ch.todo[0].key;
      ch.(todo := ch.todo[1..], phase := if key in s.br && s.br[key].status == Queued then Browsing(key) else Idle)
    case Beat => ch
    case FinishBrowser(_, _) => ch.(phase := Idle)
    case Exit => ch.(alive := false)
    case Kill => ch.(alive := false)
    case Reap => ch
  }

  /** The statement that the step sends to the database. */
  function Issued(c: Config, s: State, a: int, step: ChildStep): Statement
    requires StepEnabled(c, s, a, step)
  {
    var ch := s.procs[a];
    match step
    case Gate(interval, delay) =>
      if GateOpen(s.pub, a, ch.phase.id, s.now, interval, c.dailyCap) then Nothing
      else DeferRow(ch.phase.id, s.now + delay)
    case ClaimPublish => ClaimRow(ch.phase.id)
    case Settle(outcome, at) =>
      if outcome == NotWritten then Nothing else VerdictRow(ch.phase.id, ch.phase.verdict, at)
    case Close(written, at) => if written then RequeueRow(ch.phase.id, at) else Nothing
    case ClaimBrowser => ClaimKey(ch.todo[0].key)
    case Beat => BeatKey(ch.phase.key)
    case FinishBrowser(status, written) => if written then FinishKey(ch.phase.key, status) else Nothing
    case _ => Nothing
  }

  /**
   The tables and the history after a statement of account `a`'s child. A statement whose guard fails
   changes nothing. Clearing `started_at` erases the session that the row showed.
   */
  function Perform(s: State, a: int, pid: nat, st: Statement): State {
    match st
    case Nothing => s
    case DeferRow(id, until) => s.(pub := Defer(s.pub, id, until))
    case ClaimRow(id) =>
      if Has(s.pub, id, Pending)
      then s.(pub := Claim(s.pub, id, s.now),
              sessions := s.sessions + [Session(a, Publish(id), s.now)],
              tally := s.tally[id := TallyOf(s, id).(claims := TallyOf(s, id).claims + 1)])
      else s
    case VerdictRow(id, verdict, at) =>
      s.(pub := ApplyVerdict(s.pub, id, verdict, at),
         uncounted := if Has(s.pub, id, Publishing) && !verdict.ToPublished?
                      then s.uncounted + SessionsOf(s.sessions, Publish(id)) else s.uncounted)
    case RequeueRow(id, at) =>
      if Has(s.pub, id, Publishing)
      then s.(pub := Requeue(s.pub, id, at),
              uncounted := s.uncounted + SessionsOf(s.sessions, Publish(id)),
              tally := s.tally[id := TallyOf(s, id).(hanging := TallyOf(s, id).hanging + 1)])
      else s
    case ClaimKey(key) =>
      if key in s.br && s.br[key].status == Queued
      then s.(br := s.br[key := s.br[key].(status := Running, claimedBy := Some(pid), heartbeat := Some(s.now), updatedAt := s.now)],
              sessions := s.sessions + [Session(a, Browser(key), s.now)])
      else s
    case BeatKey(key) =>
      if key in s.br then s.(br := s.br[key := s.br[key].(heartbeat := Some(s.now), updatedAt := s.now)]) else s
    case FinishKey(key, status) =>
      if key in s.br && s.br[key].status == Running && s.br[key].claimedBy == Some(pid)
      then s.(br := s.br[key := s.br[key].(status := status, updatedAt := s.now)])
      else s
  }

  function DoStep(c: Config, s: State, a: int, step: ChildStep): State
    requires StepEnabled(c, s, a, step)
  {
    if step.Reap? then s.(procs := s.procs - {a})
    else Perform(s.(procs := s.procs[a := Control(c, s, a, step)]), a, s.procs[a].pid, Issued(c, s, a, step))
  }

  // ---- the whole relation ----

  ghost predicate Enabled(c: Config, s: State, act: Action) {
    match act
    case Tick(_) => true
    case SubmitPublish(id, _) => id !in s.pub
    case SubmitBrowser(key, _, _) => key !in s.br
    case ReadCancel(id) => Has(s.pub, id, Pending)
    case WriteCancel(id) => CancelRow(id) in s.underway && id in s.pub
    case RecoverPublish => true
    case ReadStale(key) => key in s.br && HeartStopped(s.br[key], s.now - STALE_AFTER)
    case RecoverBrowser(key) => ResetKey(key) in s.underway && key in s.br
    case BeginPass(work) => s.pass.None? && WorkMatchesRows(s, work)
    case HandleAccount(_, todo) => CanHandle(s, c, todo)
    case EndPass => s.pass.Some? && s.pass.value.order == []
    case Step(a, step) => StepEnabled(c, s, a, step)
  }

  /** The actions of the clock, the clients and the supervisor. */
  ghost function Supervise(c: Config, s: State, act: Action): State
    requires !act.Step? && Enabled(c, s, act)
  {
    match act
    case Tick(micros) => s.(now := s.now + micros)
    case SubmitPublish(id, a) => s.(pub := s.pub[id := PublishRow(a, Pending, None, 0, None)])
    case SubmitBrowser(key, a, rerunnable) => s.(br := s.br[key := BrowserRow(a, rerunnable, Queued, s.now, None, None)])
    case ReadCancel(id) => s.(underway := s.underway + {CancelRow(id)})
    case WriteCancel(id) => DoWriteCancel(s, id)
    case RecoverPublish => DoRecoverPublish(s, c)
    case ReadStale(key) => s.(underway := s.underway + {ResetKey(key)})
    case RecoverBrowser(key) => DoRecoverBrowser(s, key)
    case BeginPass(work) => DoBeginPass(s, work)
    case HandleAccount(spawns, todo) => DoHandleAccount(s, c, spawns, todo)
    case EndPass => DoEndPass(s)
  }

  /** The effect of an action; an action that is not enabled does nothing. */
  ghost function Next(c: Config, s: State, act: Action): State {
    if !Enabled(c, s, act) then s
    else if act.Step? then DoStep(c, s, act.child, act.step)
    else Supervise(c, s, act)
  }

  /** The state after a sequence of actions, from the empty tables. */
  ghost function Run(c: Config, acts: seq<Action>): State {
    if acts == [] then INIT else Next(c, Run(c, acts[..|acts| - 1]), acts[|acts| - 1])
  }

  /** `s` is the state after some run. */
  ghost predicate Reached(c: Config, s: State) { exists acts :: Run(c, acts) == s }

  lemma RunOneMore(c: Config, acts: seq<Action>, act: Action)
    ensures Run(c, acts + [act]) == Next(c, Run(c, acts), act)
  {
    assert (acts + [act])[..|acts|] == acts;
  }

  /** The same relation applied from any state. */
  ghost function RunFrom(c: Config, s: State, acts: seq<Action>): State
    decreases |acts|
  {
    if acts == [] then s else RunFrom(c, Next(c, s, acts[0]), acts[1..])
  }

  lemma RunFromFirst(c: Config, s: State, act: Action, more: seq<Action>)
    ensures RunFrom(c, s, [act] + more) == RunFrom(c, Next(c, s, act), more)
  {
    assert ([act] + more)[1..] == more;
  }

  lemma {:induction false} RunFromConcat(c: Config, s: State, acts: seq<Action>, more: seq<Action>)
    ensures RunFrom(c, s, acts + more) == RunFrom(c, RunFrom(c, s, acts), more)
    decreases |acts|
  {
    if acts == [] {
      assert acts + more == more;
    } else {
      assert (acts + more)[1..] == acts[1..] + more;
      RunFromConcat(c, Next(c, s, acts[0]), acts[1..], more);
    }
  }

  /** A run continued from its last state is one longer run. */
  lemma {:induction false} RunContinues(c: Config, acts: seq<Action>, more: seq<Action>)
    ensures Run(c, acts + more) == RunFrom(c, Run(c, acts), more)
    decreases |more|
  {
    if more == [] {
      assert acts + more == acts;
    } else {
      assert acts + more == (acts + [more[0]]) + more[1..];
      RunOneMore(c, acts, more[0]);
      RunContinues(c, acts + [more[0]], more[1..]);
    }
  }
}
