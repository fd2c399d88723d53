/** The supervisor's dispatch method and the transition system agree: an undisturbed pass is a run. */
module DispatchRun {
  import opened Collections
  import opened PublishLedger
  import opened Protocol
  import opened Dispatcher

  // ---- the order in which a child runs its batch ----

  function JobsOf(items: seq<Item>): seq<JobRef> {
    seq(|items|, i requires 0 <= i < |items| => items[i].job)
  }

  ghost predicate PublishFirst(todo: seq<JobRef>) {
    forall i, j :: 0 <= i < j < |todo| && todo[j].Publish? ==> todo[i].Publish? && todo[i].id <= todo[j].id
  }

  function Insert(job: JobRef, todo: seq<JobRef>): seq<JobRef> {
    if todo == [] then [job]
    else if todo[0].Publish? && (job.Browser? || todo[0].id < job.id) then [todo[0]] + Insert(job, todo[1..])
    else [job] + todo
  }

  /** Publish jobs by ascending id, then browser jobs in batch order. */
  function TodoOf(items: seq<Item>): seq<JobRef> {
    if items == [] then [] else Insert(items[0].job, TodoOf(items[1..]))
  }

  function Browsers(todo: seq<JobRef>): seq<JobRef> { Filter(todo, (j: JobRef) => j.Browser?) }

  lemma {:induction false} InsertPermutes(job: JobRef, todo: seq<JobRef>)
    ensures multiset(Insert(job, todo)) == multiset(todo) + multiset{job} && |Insert(job, todo)| == |todo| + 1
  {
    if todo != [] {
      assert todo == [todo[0]] + todo[1..];
      InsertPermutes(job, todo[1..]);
    }
  }

  /** `job` may stand in front of all of `todo`. */
  predicate Precedes(job: JobRef, todo: seq<JobRef>) {
    forall k | 0 <= k < |todo| && todo[k].Publish? :: job.Publish? && job.id <= todo[k].id
  }

  lemma PublishFirstHead(job: JobRef, todo: seq<JobRef>)
    ensures PublishFirst([job] + todo) <==> PublishFirst(todo) && Precedes(job, todo)
  {
    var all := [job] + todo;
    if PublishFirst(all) {
      forall k | 0 <= k < |todo| && todo[k].Publish? ensures job.Publish? && job.id <= todo[k].id { assert all[k + 1] == todo[k] && all[0] == job; }
      forall i, j | 0 <= i < j < |todo| && todo[j].Publish? ensures todo[i].Publish? && todo[i].id <= todo[j].id {
        assert all[i + 1] == todo[i] && all[j + 1] == todo[j];
      }
    }
  }

  lemma InsertedPrecedes(first: JobRef, job: JobRef, todo: seq<JobRef>)
    requires Precedes(first, todo) && first.Publish? && (job.Publish? ==> first.id <= job.id)
    ensures Precedes(first, Insert(job, todo))
  {
    var r := Insert(job, todo);
    InsertPermutes(job, todo);
    forall k | 0 <= k < |r| && r[k].Publish? ensures first.id <= r[k].id {
      assert r[k] in multiset(todo) + multiset{job};
    }
  }

  lemma {:induction false} InsertKeepsOrder(job: JobRef, todo: seq<JobRef>)
    requires PublishFirst(todo)
    ensures PublishFirst(Insert(job, todo))
  {
    if todo != [] && todo[0].Publish? && (job.Browser? || todo[0].id < job.id) {
      assert todo == [todo[0]] + todo[1..];
      PublishFirstHead(todo[0], todo[1..]);
      InsertKeepsOrder(job, todo[1..]);
      InsertedPrecedes(todo[0], job, todo[1..]);
      PublishFirstHead(todo[0], Insert(job, todo[1..]));
    } else {
      PublishFirstHead(job, todo);
    }
  }

  lemma {:induction false} InsertKeepsBrowsers(job: JobRef, todo: seq<JobRef>)
    requires PublishFirst(todo)
    ensures Browsers(Insert(job, todo)) == if job.Browser? then [job] + Browsers(todo) else Browsers(todo)
  {
    if todo != [] && todo[0].Publish? && (job.Browser? || todo[0].id < job.id) {
      assert todo == [todo[0]] + todo[1..];
      PublishFirstHead(todo[0], todo[1..]);
      InsertKeepsBrowsers(job, todo[1..]);
    } else {
      FilterConcat([job], todo, (j: JobRef) => j.Browser?);
    }
  }

  lemma JobsOfFirst(items: seq<Item>)
    requires items != []
    ensures JobsOf(items) == [items[0].job] + JobsOf(items[1..])
  {
  }

  lemma {:induction false} TodoKeepsJobs(items: seq<Item>)
    ensures multiset(TodoOf(items)) == multiset(JobsOf(items)) && |TodoOf(items)| == |items|
  {
    if items != [] {
      TodoKeepsJobs(items[1..]);
      JobsOfFirst(items);
      InsertPermutes(items[0].job, TodoOf(items[1..]));
    }
  }

  lemma {:induction false} TodoInOrder(items: seq<Item>)
    ensures PublishFirst(TodoOf(items)) && Browsers(TodoOf(items)) == Browsers(JobsOf(items))
  {
    if items != [] {
      TodoInOrder(items[1..]);
      JobsOfFirst(items);
      FilterConcat([items[0].job], JobsOf(items[1..]), (j: JobRef) => j.Browser?);
      InsertKeepsOrder(items[0].job, TodoOf(items[1..]));
      InsertKeepsBrowsers(items[0].job, TodoOf(items[1..]));
    }
  }

  /** The order of the child's two argument lists is the order that the transition system demands. */
  lemma TodoIsChildOrder(items: seq<Item>)
    ensures ChildOrder(items, TodoOf(items))
  {
    TodoKeepsJobs(items);
    TodoInOrder(items);
    assert JobsOf(items) == seq(|items|, i requires 0 <= i < |items| => items[i].job);
  }

  // ---- the pass ----

  /** The supervisor's next turn, where a process can be created only for `starts`. */
  ghost function NextTurn(c: Config, s: State, starts: set<int>): Action
    requires HasNext(s)
  {
    HandleAccount(NextAccount(s) in starts, TodoOf(Batch(s.pass.value, c, NextAccount(s))))
  }

  ghost function GoesIn(c: Config, p: Pass): int -> bool {
    Goes(c.caps, c.batch, p.work, p.counts)
  }

  lemma TurnIsHandling(c: Config, s: State)
    requires HasNext(s)
    ensures Turn(NextAccount(s), s.procs.Keys, GoesIn(c, s.pass.value), c.maxProcs) == Handle(s, c)
  {
    assert |s.procs.Keys| == |s.procs|;
  }

  lemma TurnEffect(c: Config, s: State, starts: set<int>)
    requires HasNext(s)
    ensures var t, h := Next(c, s, NextTurn(c, s, starts)), Handle(s, c);
            && t.pass == Some(Advance(s.pass.value, h)) && t.rotation == s.rotation
            && t.procs.Keys == BusyAfter(NextAccount(s), s.procs.Keys, h, starts)
  {
    CanTurn(c, s);
  }

  lemma CanTurn(c: Config, s: State)
    requires HasNext(s)
    ensures CanHandle(s, c, TodoOf(Batch(s.pass.value, c, NextAccount(s))))
  {
    TodoIsChildOrder(Batch(s.pass.value, c, NextAccount(s)));
  }

  predicate Counted(p: Pass) {
    forall i | 0 <= i < |p.order| :: p.order[i] in p.work && p.order[i] in p.counts
  }

  lemma {:induction false} TurnsRun(c: Config, s: State, starts: set<int>) returns (acts: seq<Action>)
    requires s.pass.Some? && Counted(s.pass.value)
    ensures var p, t := s.pass.value, RunFrom(c, s, acts);
            var d := Dispatch(p.order, s.procs.Keys, GoesIn(c, p), starts, c.maxProcs);
            && t.pass == Some(Pass(p.work, p.counts, p.mark, [], p.dispatched + d)) && t.rotation == s.rotation
            && t.procs.Keys == Occupied(s.procs.Keys, d, starts)
    decreases |s.pass.value.order|
  {
    var p, goes := s.pass.value, GoesIn(c, s.pass.value);
    if p.order == [] {
      assert p.dispatched + [] == p.dispatched;
      assert Occupied(s.procs.Keys, [], starts) == s.procs.Keys;
      acts := [];
    } else {
      var act, h := NextTurn(c, s, starts), Handle(s, c);
      var t := Next(c, s, act);
      TurnIsHandling(c, s);
      TurnEffect(c, s, starts);
      var more := TurnsRun(c, t, starts);
      RunFromFirst(c, s, act, more);
      TurnKeepsTotal(p.dispatched, p.order, 0, s.procs.Keys, goes, starts, c.maxProcs);
      assert p.order[0..] == p.order;
      AfterTurn(p, s.procs.Keys, goes, starts, c.maxProcs, h);
      acts := [act] + more;
    }
  }

  /** The totals of the shorter pass are those of the pass itself. */
  lemma AfterTurn(p: Pass, busy: set<int>, goes: int -> bool, starts: set<int>, maxProcs: nat, h: Handling)
    requires p.order != [] && h == Turn(p.order[0], busy, goes, maxProcs)
    ensures var q, d := Advance(p, h), Dispatch(p.order, busy, goes, starts, maxProcs);
            var e := Dispatch(q.order, BusyAfter(p.order[0], busy, h, starts), goes, starts, maxProcs);
            && q.dispatched + e == p.dispatched + d
            && Occupied(BusyAfter(p.order[0], busy, h, starts), e, starts) == Occupied(busy, d, starts)
  {
    var a, d := p.order[0], Dispatch(p.order, busy, goes, starts, maxProcs);
    var e := Dispatch(Advance(p, h).order, BusyAfter(a, busy, h, starts), goes, starts, maxProcs);
    if h.Go? {
      assert d == [a] + e;
      assert p.dispatched + ([a] + e) == (p.dispatched + [a]) + e;
      OccupiedStep(busy, a, e, starts);
    } else {
      assert d == e;
    }
  }

  lemma BeginEffect(c: Config, s: State, work: map<int, seq<Item>>)
    requires s.pass.None? && WorkMatchesRows(s, work)
    ensures var t := Next(c, s, BeginPass(work));
            && t.pass == Some(Pass(work, map a | a in work :: RecentSessions(s.pub, s.br, a, s.now), |s.sessions|,
                                   FairOrder(s.rotation, work.Keys), []))
            && t.rotation == AddMissing(s.rotation, work.Keys) && t.procs == s.procs && Counted(t.pass.value)
  {
    var order := FairOrder(s.rotation, work.Keys);
    forall i | 0 <= i < |order| ensures order[i] in work {
      FilterMember(AddMissing(s.rotation, work.Keys), x => x in work.Keys, order[i]);
    }
  }

  lemma EndEffect(c: Config, s: State)
    requires s.pass.Some? && s.pass.value.order == []
    ensures var t := Next(c, s, EndPass);
            t.pass.None? && t.rotation == MoveToTail(s.rotation, s.pass.value.dispatched) && t.procs == s.procs
  {
  }

  /** The turns of a pass and its end. */
  lemma TurnsAndEnd(c: Config, s: State, starts: set<int>) returns (acts: seq<Action>)
    requires s.pass.Some? && Counted(s.pass.value)
    ensures var p, t := s.pass.value, RunFrom(c, s, acts);
            var d := Dispatch(p.order, s.procs.Keys, GoesIn(c, p), starts, c.maxProcs);
            && t.pass.None? && t.rotation == MoveToTail(s.rotation, p.dispatched + d)
            && t.procs.Keys == Occupied(s.procs.Keys, d, starts)
  {
    var turns := TurnsRun(c, s, starts);
    EndEffect(c, RunFrom(c, s, turns));
    RunFromConcat(c, s, turns, [EndPass]);
    assert RunFrom(c, RunFrom(c, s, turns), [EndPass]) == Next(c, RunFrom(c, s, turns), EndPass);
    acts := turns + [EndPass];
  }

  /**
   From a state without a pass, an undisturbed pass leaves the rotation and the process table that the
   supervisor's method leaves, and dispatches the same accounts.
   */
  lemma PassIsProtocolRun(c: Config, s: State, work: map<int, seq<Item>>, starts: set<int>) returns (acts: seq<Action>)
    requires s.pass.None? && WorkMatchesRows(s, work)
    ensures var t := RunFrom(c, s, acts);
            var counts := map a | a in work :: RecentSessions(s.pub, s.br, a, s.now);
            var d := Dispatch(FairOrder(s.rotation, work.Keys), s.procs.Keys, Goes(c.caps, c.batch, work, counts), starts, c.maxProcs);
            && t.pass.None?
            && t.rotation == MoveToTail(AddMissing(s.rotation, work.Keys), d)
            && t.procs.Keys == Occupied(s.procs.Keys, d, starts)
  {
    var begin := BeginPass(work);
    var s1 := Next(c, s, begin);
    var p := s1.pass.value;
    BeginEffect(c, s, work);
    var more := TurnsAndEnd(c, s1, starts);
    var d := Dispatch(p.order, s.procs.Keys, GoesIn(c, p), starts, c.maxProcs);
    assert p.dispatched + d == d;
    RunFromFirst(c, s, begin, more);
    acts := [begin] + more;
  }
}
