/**
 Bounded overtaking: while an account with work waits for its turn, every other account is dispatched at
 most once, however passes, children and crashes interleave.
 */
module FairDispatch {
  import opened Collections
  import opened PublishLedger
  import opened Protocol
  import opened ProtocolSafety

  /** The accounts in front of `x`. */
  function Ahead(s: seq<int>, x: int): set<int> {
    if s == [] || s[0] == x then {} else {s[0]} + Ahead(s[1..], x)
  }

  lemma {:induction false} AheadMember(s: seq<int>, x: int, z: int)
    requires z in Ahead(s, x)
    ensures z in s && z != x
  {
    if z != s[0] { AheadMember(s[1..], x, z); }
  }

  lemma {:induction false} AheadFilter(s: seq<int>, keep: int -> bool, x: int, z: int)
    requires x in s && keep(x)
    ensures z in Ahead(Filter(s, keep), x) <==> z in Ahead(s, x) && keep(z)
  {
    if s[0] != x { AheadFilter(s[1..], keep, x, z); }
  }

  lemma {:induction false} AheadAppend(s: seq<int>, t: seq<int>, x: int)
    requires x in s
    ensures Ahead(s + t, x) == Ahead(s, x)
  {
    assert (s + t)[0] == s[0];
    if s[0] != x {
      assert (s + t)[1..] == s[1..] + t;
      AheadAppend(s[1..], t, x);
    }
  }

  lemma {:induction false} AheadAt(s: seq<int>, k: nat, x: int)
    requires Distinct(s) && k < |s| && x in s[k..] && s[k] != x
    ensures s[k] in Ahead(s, x)
  {
    var j :| k <= j < |s| && s[j] == x;
    if k > 0 {
      assert s[0] != s[j];
      assert s[1..][k - 1..] == s[k..];
      AheadAt(s[1..], k - 1, x);
    }
  }

  lemma {:induction false} AddMissingExtends(rotation: seq<int>, accounts: set<int>)
    ensures rotation <= AddMissing(rotation, accounts)
    ensures Distinct(rotation) ==> Distinct(AddMissing(rotation, accounts))
    ensures forall a | a in accounts :: a in AddMissing(rotation, accounts)
    decreases |accounts|
  {
    if accounts != {} {
      var a := Least(accounts);
      var r := if a in rotation then rotation else rotation + [a];
      AddMissingExtends(r, accounts - {a});
      forall b | b in accounts ensures b in AddMissing(rotation, accounts) {
        if b == a { assert a in r; } else { assert b in accounts - {a}; }
      }
    }
  }

  ghost predicate Rising(s: seq<int>) { forall i, j :: 0 <= i < j < |s| ==> s[i] < s[j] }

  /** Exactly the missing accounts join, each once, by rising number, and behind all others. */
  lemma {:induction false} AddMissingMeaning(rotation: seq<int>, accounts: set<int>) returns (joined: seq<int>)
    ensures AddMissing(rotation, accounts) == rotation + joined && Rising(joined)
    ensures forall a :: a in joined <==> a in accounts && a !in rotation
    decreases |accounts|
  {
    if accounts == {} {
      joined := [];
    } else {
      var a := Least(accounts);
      if a in rotation {
        joined := AddMissingMeaning(rotation, accounts - {a});
      } else {
        var more := AddMissingMeaning(rotation + [a], accounts - {a});
        joined := [a] + more;
        forall j | 0 <= j < |more| ensures a < more[j] { assert more[j] in more; }
        assert rotation + joined == (rotation + [a]) + more;
      }
    }
  }

  /** Moving dispatched accounts to the tail takes exactly them out of the front of any other account. */
  lemma MoveToTailAhead(rotation: seq<int>, dispatched: seq<int>, x: int)
    requires x in rotation && x !in dispatched
    ensures x in MoveToTail(rotation, dispatched)
    ensures Ahead(MoveToTail(rotation, dispatched), x) == Ahead(rotation, x) - (set d | d in dispatched)
  {
    var keep := (a: int) => a !in dispatched;
    FilterMember(rotation, keep, x);
    AheadAppend(Filter(rotation, keep), dispatched, x);
    forall z: int ensures z in Ahead(Filter(rotation, keep), x) <==> z in Ahead(rotation, x) - (set d | d in dispatched) {
      AheadFilter(rotation, keep, x, z);
    }
  }

  lemma MoveToTailDistinct(rotation: seq<int>, dispatched: seq<int>)
    requires Distinct(rotation) && Distinct(dispatched)
    ensures Distinct(MoveToTail(rotation, dispatched))
  {
    var keep := (a: int) => a !in dispatched;
    FilterDistinct(rotation, keep);
    forall a | a in Filter(rotation, keep) ensures a !in dispatched { FilterMember(rotation, keep, a); }
    DistinctConcat(Filter(rotation, keep), dispatched);
  }

  // ---- what an action does to the rotation and the pass ----

  datatype View = View(rotation: seq<int>, pass: Option<Pass>)

  function ViewOf(s: State): View { View(s.rotation, s.pass) }

  datatype Move = Rests | Begins(work: map<int, seq<Item>>) | Turns(how: Handling) | Ends

  /** The move that an action makes; one that is not enabled rests. */
  ghost function MoveOf(c: Config, s: State, act: Action): Move {
    if !Enabled(c, s, act) then Rests
    else match act
      case BeginPass(work) => Begins(work)
      case HandleAccount(_, _) => Turns(Handle(s, c))
      case EndPass => Ends
      case _ => Rests
  }

  predicate HasTurn(v: View) { v.pass.Some? && v.pass.value.order != [] }

  /** The account whose turn it is. */
  function Head(v: View): int
    requires HasTurn(v)
  {
    v.pass.value.order[0]
  }

  ghost predicate Moves(v: View, w: View, m: Move) {
    match m
    case Rests => w == v
    case Begins(work) =>
      && v.pass.None? && w.pass.Some? && w.rotation == AddMissing(v.rotation, work.Keys)
      && w.pass.value.work == work && w.pass.value.order == FairOrder(v.rotation, work.Keys) && w.pass.value.dispatched == []
    case Turns(how) => HasTurn(v) && w == View(v.rotation, Some(Advance(v.pass.value, how)))
    case Ends => v.pass.Some? && v.pass.value.order == [] && w == View(MoveToTail(v.rotation, v.pass.value.dispatched), None)
  }

  lemma NextMoves(c: Config, s: State, act: Action)
    ensures Moves(ViewOf(s), ViewOf(Next(c, s, act)), MoveOf(c, s, act))
  {
    if act.Step? && Enabled(c, s, act) { StepTakesNoTime(c, s, act.child, act.step); }
  }

  // ---- the pass in progress ----

  /** The order in which the pass handles its accounts. */
  function FullOrder(v: View): seq<int>
    requires v.pass.Some?
  {
    var work := v.pass.value.work;
    Filter(v.rotation, a => a in work)
  }

  /** The pass has handled the first `k` accounts, and dispatched only some of those. */
  predicate Progress(v: View, k: nat)
    requires v.pass.Some?
  {
    var p, full := v.pass.value, FullOrder(v);
    && k <= |full|
    && (p.order == full[k..] || p.order == [])
    && (forall d <- p.dispatched :: d in full[..k])
  }

  ghost predicate Rotates(v: View) {
    && Distinct(v.rotation)
    && (v.pass.Some? ==> Distinct(v.pass.value.dispatched) && exists k: nat :: Progress(v, k))
  }

  /** One turn handles the next account in line. */
  lemma TurnProgress(v: View, w: View, how: Handling, k: nat)
    requires Distinct(v.rotation) && Moves(v, w, Turns(how)) && Progress(v, k)
    ensures k < |FullOrder(v)| && Progress(w, k + 1) && Head(v) == FullOrder(v)[k] && FullOrder(w) == FullOrder(v)
    ensures Head(v) !in v.pass.value.dispatched
  {
    var p, full := v.pass.value, FullOrder(v);
    FilterDistinct(v.rotation, a => a in p.work);
    assert p.order[0] == full[k] && full[..k + 1] == full[..k] + [full[k]] && p.order[1..] == full[k + 1..];
    assert full[k] !in full[..k];
  }

  lemma TurnRotates(v: View, w: View, how: Handling)
    requires Rotates(v) && Moves(v, w, Turns(how))
    ensures Rotates(w)
  {
    var k: nat :| Progress(v, k);
    TurnProgress(v, w, how, k);
    assert Progress(w, k + 1);
  }

  lemma BeginRotates(v: View, w: View, work: map<int, seq<Item>>)
    requires Rotates(v) && Moves(v, w, Begins(work))
    ensures Rotates(w) && Progress(w, 0) && w.pass.value.order == FullOrder(w)
  {
    AddMissingExtends(v.rotation, work.Keys);
    SameFilter(w.rotation, a => a in work.Keys, a => a in work);
    assert Progress(w, 0);
  }

  lemma KeepsRotates(v: View, w: View, m: Move)
    requires Rotates(v) && Moves(v, w, m)
    ensures Rotates(w)
  {
    match m
    case Rests =>
    case Begins(work) => BeginRotates(v, w, work);
    case Turns(how) => TurnRotates(v, w, how);
    case Ends => MoveToTailDistinct(v.rotation, v.pass.value.dispatched);
  }

  lemma {:induction false} RunRotates(c: Config, acts: seq<Action>)
    ensures Rotates(ViewOf(Run(c, acts)))
  {
    if acts != [] {
      var s, act := Run(c, acts[..|acts| - 1]), acts[|acts| - 1];
      RunRotates(c, acts[..|acts| - 1]);
      NextMoves(c, s, act);
      KeepsRotates(ViewOf(s), ViewOf(Next(c, s, act)), MoveOf(c, s, act));
    }
  }

  // ---- waiting ----

  predicate Handles(v: View, m: Move, a: int) { m.Turns? && HasTurn(v) && Head(v) == a }

  predicate Dispatches(v: View, m: Move, a: int) { Handles(v, m, a) && m.how.Go? }

  /** `x` has work in a pass that begins, and its own turn comes at most to find the process table full. */
  predicate WaitsThrough(v: View, m: Move, x: int) { (Handles(v, m, x) ==> m.how.Full?) && (m.Begins? ==> x in m.work) }

  /** `x` is among the accounts after the first `k` of the pass. */
  predicate ToCome(v: View, k: nat, x: int)
    requires v.pass.Some?
  {
    k <= |FullOrder(v)| && x in FullOrder(v)[k..]
  }

  /** `x` is still to come in the pass in progress, if there is one. */
  ghost predicate StillWaiting(v: View, x: int) {
    && x in v.rotation
    && (v.pass.Some? ==> x in v.pass.value.work && x !in v.pass.value.dispatched
                         && exists k: nat :: Progress(v, k) && ToCome(v, k, x))
  }

  /** `y` had its turn: it was dispatched in this pass, or it is no longer in front of `x`. */
  predicate Passed(v: View, x: int, y: int) {
    (v.pass.Some? && y in v.pass.value.dispatched) || y !in Ahead(v.rotation, x)
  }

  lemma BeginKeepsFront(rotation: seq<int>, accounts: set<int>, x: int)
    requires x in rotation
    ensures x in AddMissing(rotation, accounts) && Ahead(AddMissing(rotation, accounts), x) == Ahead(rotation, x)
  {
    AddMissingExtends(rotation, accounts);
    var more := AddMissing(rotation, accounts);
    assert more == rotation + more[|rotation|..];
    AheadAppend(rotation, more[|rotation|..], x);
  }

  lemma BeginContinues(v: View, w: View, work: map<int, seq<Item>>, x: int)
    requires Rotates(v) && StillWaiting(v, x) && Moves(v, w, Begins(work)) && x in work
    ensures StillWaiting(w, x) && Ahead(w.rotation, x) == Ahead(v.rotation, x)
  {
    BeginRotates(v, w, work);
    BeginKeepsFront(v.rotation, work.Keys, x);
    FilterMember(w.rotation, a => a in work, x);
    assert FullOrder(w)[0..] == FullOrder(w);
    assert Progress(w, 0) && ToCome(w, 0, x);
  }

  lemma NotTheHead(full: seq<int>, k: nat, x: int)
    requires k < |full| && x in full[k..] && x != full[k]
    ensures x in full[k + 1..]
  {
    assert full[k..] == [full[k]] + full[k + 1..];
  }

  lemma StillAfterTurn(v: View, w: View, k: nat, x: int)
    requires v.pass.Some? && w.pass.Some? && Progress(w, k + 1) && FullOrder(w) == FullOrder(v)
    requires k < |FullOrder(v)| && ToCome(v, k, x) && x != FullOrder(v)[k]
    requires x in w.rotation && x in w.pass.value.work && x !in w.pass.value.dispatched
    ensures StillWaiting(w, x)
  {
    NotTheHead(FullOrder(v), k, x);
    assert ToCome(w, k + 1, x);
  }

  lemma TurnContinuesFrom(v: View, w: View, how: Handling, k: nat, x: int)
    requires Distinct(v.rotation) && Moves(v, w, Turns(how)) && Progress(v, k) && ToCome(v, k, x) && Head(v) != x
    requires x in v.rotation && x in v.pass.value.work && x !in v.pass.value.dispatched
    ensures StillWaiting(w, x)
  {
    TurnProgress(v, w, how, k);
    StillAfterTurn(v, w, k, x);
  }

  /** A full table ends the pass where it stands: `x` keeps its place, also when the turn was its own. */
  lemma FullTableContinues(v: View, w: View, k: nat, x: int)
    requires StillWaiting(v, x) && Moves(v, w, Turns(Full)) && Progress(v, k) && ToCome(v, k, x)
    ensures StillWaiting(w, x)
  {
    assert FullOrder(w) == FullOrder(v);
    assert Progress(w, k) && ToCome(w, k, x);
  }

  lemma TurnContinues(v: View, w: View, how: Handling, x: int)
    requires Distinct(v.rotation) && StillWaiting(v, x) && Moves(v, w, Turns(how)) && WaitsThrough(v, Turns(how), x)
    ensures StillWaiting(w, x)
  {
    var k: nat :| Progress(v, k) && ToCome(v, k, x);
    if Head(v) == x { FullTableContinues(v, w, k, x); } else { TurnContinuesFrom(v, w, how, k, x); }
  }

  lemma EndContinues(v: View, w: View, x: int)
    requires StillWaiting(v, x) && Moves(v, w, Ends)
    ensures StillWaiting(w, x) && Ahead(w.rotation, x) == Ahead(v.rotation, x) - (set d | d in v.pass.value.dispatched)
  {
    MoveToTailAhead(v.rotation, v.pass.value.dispatched, x);
  }

  /** While `x` waits, the accounts in front of it only become fewer: exactly those that were dispatched leave. */
  lemma WaitingContinues(v: View, w: View, m: Move, x: int)
    requires Rotates(v) && StillWaiting(v, x) && Moves(v, w, m) && WaitsThrough(v, m, x)
    ensures StillWaiting(w, x)
    ensures Ahead(w.rotation, x) == Ahead(v.rotation, x) - if m.Ends? then (set d | d in v.pass.value.dispatched) else {}
  {
    match m
    case Rests =>
    case Begins(work) => BeginContinues(v, w, work, x);
    case Turns(how) => TurnContinues(v, w, how, x);
    case Ends => EndContinues(v, w, x);
  }

  /** An account dispatched while `x` waits is in front of `x`, and has not been dispatched in this pass. */
  lemma DispatchedIsAhead(v: View, w: View, m: Move, x: int, y: int)
    requires Rotates(v) && StillWaiting(v, x) && Moves(v, w, m) && WaitsThrough(v, m, x) && Dispatches(v, m, y)
    ensures !Passed(v, x, y) && Passed(w, x, y)
  {
    var k: nat :| Progress(v, k) && ToCome(v, k, x);
    var p, full := v.pass.value, FullOrder(v);
    TurnProgress(v, w, m.how, k);
    FilterDistinct(v.rotation, a => a in p.work);
    AheadAt(full, k, x);
    AheadFilter(v.rotation, a => a in p.work, x, y);
  }

  lemma PassedStays(v: View, w: View, m: Move, x: int, y: int)
    requires Rotates(v) && StillWaiting(v, x) && Moves(v, w, m) && WaitsThrough(v, m, x) && Passed(v, x, y)
    ensures Passed(w, x, y)
  {
    WaitingContinues(v, w, m, x);
    if m.Ends? {
      var gone := set d | d in v.pass.value.dispatched;
      assert y in v.pass.value.dispatched ==> y in gone;
    } else if v.pass.Some? && y in v.pass.value.dispatched {
      DispatchedStays(v, w, m, y);
    }
  }

  lemma DispatchedStays(v: View, w: View, m: Move, y: int)
    requires Moves(v, w, m) && !m.Ends? && v.pass.Some? && y in v.pass.value.dispatched
    ensures w.pass.Some? && y in w.pass.value.dispatched
  {
  }

  // ---- main results ----

  /** The state and the move at step `k` of `more`, which follows `acts`. */
  ghost function StateAt(c: Config, acts: seq<Action>, more: seq<Action>, k: nat): State
    requires k <= |more|
  {
    Run(c, acts + more[..k])
  }

  ghost function MoveAt(c: Config, acts: seq<Action>, more: seq<Action>, k: nat): Move
    requires k < |more|
  {
    MoveOf(c, StateAt(c, acts, more, k), more[k])
  }

  lemma MovesAt(c: Config, acts: seq<Action>, more: seq<Action>, k: nat)
    requires k < |more|
    ensures Moves(ViewOf(StateAt(c, acts, more, k)), ViewOf(StateAt(c, acts, more, k + 1)), MoveAt(c, acts, more, k))
    ensures Rotates(ViewOf(StateAt(c, acts, more, k)))
  {
    assert acts + more[..k + 1] == (acts + more[..k]) + [more[k]];
    RunOneMore(c, acts + more[..k], more[k]);
    NextMoves(c, StateAt(c, acts, more, k), more[k]);
    RunRotates(c, acts + more[..k]);
  }

  ghost predicate AlwaysWaits(c: Config, acts: seq<Action>, more: seq<Action>, x: int) {
    forall k | 0 <= k < |more| :: WaitsThrough(ViewOf(StateAt(c, acts, more, k)), MoveAt(c, acts, more, k), x)
  }

  /** How often `y` is dispatched during the first `n` steps of `more`. */
  ghost function DispatchCount(c: Config, acts: seq<Action>, more: seq<Action>, y: int, n: nat): nat
    requires n <= |more|
  {
    if n == 0 then 0
    else
      DispatchCount(c, acts, more, y, n - 1)
      + if Dispatches(ViewOf(StateAt(c, acts, more, n - 1)), MoveAt(c, acts, more, n - 1), y) then 1 else 0
  }

  /** The state of waiting after `n` steps, as one predicate about two views and a count. */
  ghost predicate Waited(start: View, v: View, x: int, y: int, count: nat) {
    && StillWaiting(v, x) && Ahead(v.rotation, x) <= Ahead(start.rotation, x)
    && count <= 1 && (count == 1 ==> Passed(v, x, y) && y in Ahead(start.rotation, x))
  }

  lemma WaitedStep(start: View, v: View, w: View, m: Move, x: int, y: int, count: nat)
    requires Rotates(v) && Moves(v, w, m) && WaitsThrough(v, m, x) && Waited(start, v, x, y, count)
    ensures Waited(start, w, x, y, count + if Dispatches(v, m, y) then 1 else 0)
  {
    WaitingContinues(v, w, m, x);
    if Dispatches(v, m, y) { DispatchedIsAhead(v, w, m, x, y); }
    if Passed(v, x, y) { PassedStays(v, w, m, x, y); }
  }

  lemma {:induction false} WaitedRun(c: Config, acts: seq<Action>, more: seq<Action>, x: int, y: int, n: nat)
    requires StillWaiting(ViewOf(Run(c, acts)), x) && AlwaysWaits(c, acts, more, x) && n <= |more|
    ensures Waited(ViewOf(Run(c, acts)), ViewOf(StateAt(c, acts, more, n)), x, y, DispatchCount(c, acts, more, y, n))
  {
    if n == 0 {
      assert acts + more[..0] == acts;
    } else {
      WaitedRun(c, acts, more, x, y, n - 1);
      MovesAt(c, acts, more, n - 1);
      WaitedStep(ViewOf(Run(c, acts)), ViewOf(StateAt(c, acts, more, n - 1)), ViewOf(StateAt(c, acts, more, n)),
                 MoveAt(c, acts, more, n - 1), x, y, DispatchCount(c, acts, more, y, n - 1));
    }
  }

  /**
   From any state in which `x` is still to come, and for as long as it has work in every pass and at its own
   turns meets only full process tables: the accounts in front of it only become fewer, and any other account
   is dispatched at most once, and only from in front of `x`.
   */
  lemma OvertakingIsBounded(c: Config, acts: seq<Action>, more: seq<Action>, x: int, y: int)
    requires StillWaiting(ViewOf(Run(c, acts)), x) && AlwaysWaits(c, acts, more, x)
    ensures var count := DispatchCount(c, acts, more, y, |more|);
            && Distinct(Run(c, acts + more).rotation) && x in Run(c, acts + more).rotation
            && Ahead(Run(c, acts + more).rotation, x) <= Ahead(Run(c, acts).rotation, x)
            && count <= 1 && (count == 1 ==> y in Ahead(Run(c, acts).rotation, x))
            && (count == 1 && Run(c, acts + more).pass.None? ==> y !in Ahead(Run(c, acts + more).rotation, x))
  {
    assert more[..|more|] == more;
    WaitedRun(c, acts, more, x, y, |more|);
    RunRotates(c, acts + more);
  }
}
