/**
 The supervisor object: rotation list, process table and session cap, updated in place. One dispatch pass
 of the object is then shown to be a run of the transition system.
 */
module Dispatcher {
  import opened Collections
  import opened PublishLedger
  import opened Protocol

  // ---- the session cap ----

  predicate OfOperator(item: Item) { item.operator > 0 }

  /** The items that the cap holds back. */
  function Held(caps: Caps, items: seq<Item>, used: int): seq<Item> {
    if items == [] then []
    else if caps.Allows(items[0], used) then Held(caps, items[1..], used + 1)
    else [items[0]] + Held(caps, items[1..], used)
  }

  /** How many items of one layer are held back. */
  function HeldIn(caps: Caps, items: seq<Item>, used: int, operator: bool): nat {
    if items == [] then 0
    else if caps.Allows(items[0], used) then HeldIn(caps, items[1..], used + 1, operator)
    else HeldIn(caps, items[1..], used, operator) + if OfOperator(items[0]) == operator then 1 else 0
  }

  lemma {:induction false} HeldInCounts(caps: Caps, items: seq<Item>, used: int, operator: bool)
    ensures HeldIn(caps, items, used, operator) == |Filter(Held(caps, items, used), (i: Item) => OfOperator(i) == operator)|
  {
    if items != [] { HeldInCounts(caps, items[1..], if caps.Allows(items[0], used) then used + 1 else used, operator); }
  }

  lemma {:induction false} HeldOneMore(caps: Caps, items: seq<Item>, used: int, item: Item)
    ensures Held(caps, items + [item], used)
            == Held(caps, items, used) + if caps.Allows(item, used + |caps.Kept(items, used)|) then [] else [item]
  {
    if items == [] {
      assert items + [item] == [item] && [item][1..] == [];
    } else {
      assert (items + [item])[1..] == items[1..] + [item];
      HeldOneMore(caps, items[1..], if caps.Allows(items[0], used) then used + 1 else used, item);
    }
  }

  /** The cap of the item's own layer is on and used up by `spent` sessions. */
  ghost predicate UsedUp(caps: Caps, item: Item, spent: int) {
    if item.operator > 0 then 0 < caps.operator <= spent else 0 < caps.system <= spent
  }

  /** An item of a batch is held back exactly if its own layer is used up by the sessions before it. */
  lemma HeldMeaning(caps: Caps, items: seq<Item>, used: int, i: nat)
    requires i < |items|
    ensures var before := items[..i];
            Held(caps, items[..i + 1], used)
            == Held(caps, before, used) + if UsedUp(caps, items[i], used + |caps.Kept(before, used)|) then [items[i]] else []
  {
    assert items[..i + 1] == items[..i] + [items[i]];
    HeldOneMore(caps, items[..i], used, items[i]);
  }

  /** What a layer holds back are its items without those that start. */
  lemma {:induction false} HeldInIsRest(caps: Caps, items: seq<Item>, used: int, operator: bool)
    ensures HeldIn(caps, items, used, operator)
            == |Filter(items, (i: Item) => (i.operator > 0) == operator)|
               - |Filter(caps.Kept(items, used), (i: Item) => (i.operator > 0) == operator)|
  {
    var layer := (i: Item) => (i.operator > 0) == operator;
    if items != [] {
      if caps.Allows(items[0], used) {
        HeldInIsRest(caps, items[1..], used + 1, operator);
        FilterConcat([items[0]], caps.Kept(items[1..], used + 1), layer);
      } else {
        HeldInIsRest(caps, items[1..], used, operator);
      }
    }
  }

  /** Every item is either let through or held, none twice. */
  lemma {:induction false} CapSplitsBatch(caps: Caps, items: seq<Item>, used: int)
    ensures multiset(items) == multiset(caps.Kept(items, used)) + multiset(Held(caps, items, used))
  {
    if items != [] {
      assert items == [items[0]] + items[1..];
      CapSplitsBatch(caps, items[1..], if caps.Allows(items[0], used) then used + 1 else used);
    }
  }

  /** Once a layer is exhausted, it stays exhausted for the rest of the batch. */
  lemma {:induction false} ExhaustedLayerKeepsNothing(caps: Caps, items: seq<Item>, used: int, blocked: Item, item: Item)
    requires !caps.Allows(blocked, used) && item in caps.Kept(items, used)
    ensures OfOperator(item) != OfOperator(blocked)
  {
    if caps.Allows(items[0], used) {
      if item != items[0] { ExhaustedLayerKeepsNothing(caps, items[1..], used + 1, blocked, item); }
    } else {
      ExhaustedLayerKeepsNothing(caps, items[1..], used, blocked, item);
    }
  }

  /** Within a layer the oldest items go first: what is kept of a layer is a prefix of that layer's items. */
  lemma {:induction false} KeptIsPrefixOfLayer(caps: Caps, items: seq<Item>, used: int, operator: bool)
    ensures Filter(caps.Kept(items, used), (i: Item) => OfOperator(i) == operator)
            <= Filter(items, (i: Item) => OfOperator(i) == operator)
  {
    var layer := (i: Item) => OfOperator(i) == operator;
    if items != [] {
      if caps.Allows(items[0], used) {
        KeptIsPrefixOfLayer(caps, items[1..], used + 1, operator);
        FilterConcat([items[0]], caps.Kept(items[1..], used + 1), layer);
        FilterConcat([items[0]], items[1..], layer);
        assert items == [items[0]] + items[1..];
      } else if OfOperator(items[0]) == operator {
        if Filter(caps.Kept(items, used), layer) != [] {
          var item := Filter(caps.Kept(items, used), layer)[0];
          FilterMember(caps.Kept(items, used), layer, item);
          ExhaustedLayerKeepsNothing(caps, items[1..], used, items[0], item);
        }
      } else {
        KeptIsPrefixOfLayer(caps, items[1..], used, operator);
      }
    }
  }

  // ---- the dispatch loop ----

  function Count(recent: map<int, nat>, a: int): nat { if a in recent then recent[a] else 0 }

  function FirstOf(queue: seq<Item>, batch: nat): seq<Item> {
    if |queue| <= batch then queue else queue[..batch]
  }

  /** The jobs that a pass would hand to a child of `a`. */
  function Chosen(caps: Caps, batch: nat, work: map<int, seq<Item>>, recent: map<int, nat>, a: int): seq<Item> {
    if a in work then caps.Kept(FirstOf(work[a], batch), Count(recent, a)) else []
  }

  /** A child gets at most one batch, from the front of the queue. */
  lemma ChosenFromBatch(caps: Caps, batch: nat, work: map<int, seq<Item>>, recent: map<int, nat>, a: int, item: Item)
    requires item in Chosen(caps, batch, work, recent, a)
    ensures a in work && exists i :: 0 <= i < |work[a]| && i < batch && work[a][i] == item
    ensures |Chosen(caps, batch, work, recent, a)| <= batch
  {
    var first, used := FirstOf(work[a], batch), Count(recent, a);
    caps.KeptFromBatch(first, used, item);
    var i :| 0 <= i < |first| && first[i] == item;
    assert work[a][i] == item;
    KeptNoLonger(caps, first, used);
  }

  /** The batch is cut against the sessions that were counted for the account, and an account without a count has none. */
  lemma CutAgainstTheCount(caps: Caps, batch: nat, work: map<int, seq<Item>>, recent: map<int, nat>, a: int, used: nat)
    requires a in work && if a in recent then used == recent[a] else used == 0
    ensures Chosen(caps, batch, work, recent, a) == caps.Kept(FirstOf(work[a], batch), used)
    ensures Chosen(caps, batch, work, recent, a) == Chosen(caps, batch, work, map[a := used], a)
  {
  }

  lemma {:induction false} KeptNoLonger(caps: Caps, items: seq<Item>, used: int)
    ensures |caps.Kept(items, used)| <= |items|
  {
    if items != [] { KeptNoLonger(caps, items[1..], if caps.Allows(items[0], used) then used + 1 else used); }
  }

  /** The accounts for which something is left of the batch. */
  function Goes(caps: Caps, batch: nat, work: map<int, seq<Item>>, recent: map<int, nat>): int -> bool {
    a => Chosen(caps, batch, work, recent, a) != []
  }

  /** The accounts that the loop dispatches, where only those in `starts` get a process. */
  function Dispatch(order: seq<int>, busy: set<int>, chosen: int -> bool, starts: set<int>, maxProcs: nat): seq<int> {
    if order == [] then []
    else if order[0] in busy then Dispatch(order[1..], busy, chosen, starts, maxProcs)
    else if |busy| >= maxProcs then []
    else if !chosen(order[0]) then Dispatch(order[1..], busy, chosen, starts, maxProcs)
    else [order[0]] + Dispatch(order[1..], if order[0] in starts then busy + {order[0]} else busy, chosen, starts, maxProcs)
  }

  /** The process table after the loop. */
  function Occupied(busy: set<int>, dispatched: seq<int>, starts: set<int>): set<int> {
    busy + (set a | a in dispatched && a in starts)
  }

  function Registered(procs: map<int, bool>, a: int, h: Handling, starts: set<int>): map<int, bool> {
    if h.Go? && a in starts then procs[a := true] else procs
  }

  lemma RegisteredKeys(procs: map<int, bool>, a: int, h: Handling, starts: set<int>)
    ensures Registered(procs, a, h, starts).Keys == BusyAfter(a, procs.Keys, h, starts)
  {
  }

  /** The children registered by the loop. */
  function WithStarted(procs: map<int, bool>, dispatched: seq<int>, starts: set<int>): map<int, bool> {
    if dispatched == [] then procs
    else Registered(WithStarted(procs, dispatched[..|dispatched| - 1], starts), dispatched[|dispatched| - 1], Go, starts)
  }

  lemma StartedOneMore(procs: map<int, bool>, dispatched: seq<int>, starts: set<int>, a: int)
    ensures WithStarted(procs, dispatched + [a], starts) == Registered(WithStarted(procs, dispatched, starts), a, Go, starts)
  {
    assert (dispatched + [a])[..|dispatched|] == dispatched;
  }

  lemma {:induction false} StartedKeys(procs: map<int, bool>, dispatched: seq<int>, starts: set<int>)
    ensures WithStarted(procs, dispatched, starts).Keys == Occupied(procs.Keys, dispatched, starts)
    ensures forall a | a in WithStarted(procs, dispatched, starts) ::
              WithStarted(procs, dispatched, starts)[a] == if a in dispatched && a in starts then true else procs[a]
  {
    if dispatched != [] {
      var d := dispatched[..|dispatched| - 1];
      StartedKeys(procs, d, starts);
      assert dispatched == d + [dispatched[|dispatched| - 1]];
    }
  }

  /** What one turn of the loop does with an account. */
  function Turn(a: int, busy: set<int>, chosen: int -> bool, maxProcs: nat): Handling {
    if a in busy then Busy else if |busy| >= maxProcs then Full else if !chosen(a) then Capped else Go
  }

  function BusyAfter(a: int, busy: set<int>, h: Handling, starts: set<int>): set<int> {
    if h.Go? && a in starts then busy + {a} else busy
  }

  /** The result so far, plus what the remaining accounts will add, stays the same over one turn. */
  lemma TurnKeepsTotal(done: seq<int>, order: seq<int>, i: nat, busy: set<int>, chosen: int -> bool, starts: set<int>, maxProcs: nat)
    requires i < |order|
    ensures var a, total := order[i], done + Dispatch(order[i..], busy, chosen, starts, maxProcs);
            var h := Turn(a, busy, chosen, maxProcs);
            total == if h.Full? then done
                     else (if h.Go? then done + [a] else done)
                          + Dispatch(order[i + 1..], BusyAfter(a, busy, h, starts), chosen, starts, maxProcs)
  {
    assert order[i..][1..] == order[i + 1..];
    var h, a := Turn(order[i], busy, chosen, maxProcs), order[i];
    if h.Full? {
      assert done + [] == done;
    } else if h.Go? {
      var rest := Dispatch(order[i + 1..], BusyAfter(a, busy, h, starts), chosen, starts, maxProcs);
      assert done + ([a] + rest) == (done + [a]) + rest;
    }
  }

  /** Something of one layer of the account's batch is held back. */
  function Holds(caps: Caps, batch: nat, work: map<int, seq<Item>>, recent: map<int, nat>, operator: bool): int -> bool {
    a => a in work && HeldIn(caps, FirstOf(work[a], batch), Count(recent, a), operator) > 0
  }

  lemma TableSize(procs: map<int, bool>)
    ensures |procs.Keys| == |procs|
  {
  }

  lemma BatchOf(caps: Caps, batch: nat, work: map<int, seq<Item>>, recent: map<int, nat>, a: int)
    requires a in work
    ensures var queue, used := FirstOf(work[a], batch), Count(recent, a);
            && Goes(caps, batch, work, recent)(a) == (caps.Kept(queue, used) != [])
            && Holds(caps, batch, work, recent, false)(a) == (HeldIn(caps, queue, used, false) > 0)
            && Holds(caps, batch, work, recent, true)(a) == (HeldIn(caps, queue, used, true) > 0)
  {
  }

  /** The accounts that a layer is holding back after one turn: only an account that was looked at changes. */
  function WatchedAfter(a: int, h: Handling, held: int -> bool, watched: set<int>): set<int> {
    if h.Busy? || h.Full? then watched else if held(a) then watched + {a} else watched - {a}
  }

  /** The accounts that a layer is holding back after the loop. */
  function Watched(order: seq<int>, busy: set<int>, chosen: int -> bool, starts: set<int>, maxProcs: nat,
                   held: int -> bool, watched: set<int>): set<int>
  {
    if order == [] || Turn(order[0], busy, chosen, maxProcs).Full? then watched
    else
      var h := Turn(order[0], busy, chosen, maxProcs);
      Watched(order[1..], BusyAfter(order[0], busy, h, starts), chosen, starts, maxProcs, held,
              WatchedAfter(order[0], h, held, watched))
  }

  lemma WatchedUnfolds(order: seq<int>, i: nat, busy: set<int>, chosen: int -> bool, starts: set<int>, maxProcs: nat,
                       held: int -> bool, watched: set<int>)
    requires i < |order|
    ensures var h := Turn(order[i], busy, chosen, maxProcs);
            Watched(order[i..], busy, chosen, starts, maxProcs, held, watched)
            == if h.Full? then watched
               else Watched(order[i + 1..], BusyAfter(order[i], busy, h, starts), chosen, starts, maxProcs, held,
                            WatchedAfter(order[i], h, held, watched))
  {
    assert order[i..][1..] == order[i + 1..];
  }

  lemma {:induction false} DispatchedOnlyFromOrder(order: seq<int>, busy: set<int>, chosen: int -> bool, starts: set<int>, maxProcs: nat, a: int)
    requires a in Dispatch(order, busy, chosen, starts, maxProcs)
    ensures a in order && a !in busy && chosen(a)
  {
    if order[0] in busy || !chosen(order[0]) {
      DispatchedOnlyFromOrder(order[1..], busy, chosen, starts, maxProcs, a);
    } else if a != order[0] {
      DispatchedOnlyFromOrder(order[1..], if order[0] in starts then busy + {order[0]} else busy, chosen, starts, maxProcs, a);
    }
  }

  lemma TailDistinct(s: seq<int>)
    requires Distinct(s) && s != []
    ensures Distinct(s[1..]) && s[0] !in s[1..]
  {
    assert forall i, j :: 0 <= i < j < |s[1..]| ==> s[1..][i] == s[i + 1] && s[1..][j] == s[j + 1];
  }

  lemma {:induction false} DispatchDistinct(order: seq<int>, busy: set<int>, chosen: int -> bool, starts: set<int>, maxProcs: nat)
    requires Distinct(order)
    ensures Distinct(Dispatch(order, busy, chosen, starts, maxProcs))
  {
    if order != [] {
      var h := Turn(order[0], busy, chosen, maxProcs);
      var next := BusyAfter(order[0], busy, h, starts);
      TailDistinct(order);
      DispatchDistinct(order[1..], next, chosen, starts, maxProcs);
      var rest := Dispatch(order[1..], next, chosen, starts, maxProcs);
      if h.Go? {
        forall a | a in rest ensures a != order[0] { DispatchedOnlyFromOrder(order[1..], next, chosen, starts, maxProcs, a); }
        DistinctConcat([order[0]], rest);
      }
    }
  }

  lemma {:induction false} TableStaysBounded(order: seq<int>, busy: set<int>, chosen: int -> bool, starts: set<int>, maxProcs: nat)
    ensures |Occupied(busy, Dispatch(order, busy, chosen, starts, maxProcs), starts)| <= Max(|busy|, maxProcs)
  {
    var d := Dispatch(order, busy, chosen, starts, maxProcs);
    if d == [] {
      assert Occupied(busy, d, starts) == busy;
    } else if order[0] in busy || !chosen(order[0]) {
      TableStaysBounded(order[1..], busy, chosen, starts, maxProcs);
    } else {
      var next := if order[0] in starts then busy + {order[0]} else busy;
      TableStaysBounded(order[1..], next, chosen, starts, maxProcs);
      OccupiedStep(busy, order[0], d[1..], starts);
    }
  }

  lemma OccupiedStep(busy: set<int>, a: int, d: seq<int>, starts: set<int>)
    ensures Occupied(busy, [a] + d, starts) == Occupied(if a in starts then busy + {a} else busy, d, starts)
  {
  }

  function Idle(busy: set<int>, chosen: int -> bool): int -> bool { a => a !in busy && chosen(a) }

  lemma FilterFirst(order: seq<int>, k: nat, keep: int -> bool)
    requires k < |order|
    ensures Filter(order[..k + 1], keep) == (if keep(order[0]) then [order[0]] else []) + Filter(order[1..][..k], keep)
  {
    assert order[..k + 1][1..] == order[1..][..k];
  }

  /** Starting one account does not change whether the accounts behind it are idle. */
  lemma IdleBehind(order: seq<int>, k: nat, busy: set<int>, chosen: int -> bool, starts: set<int>)
    requires order != [] && order[0] !in order[1..] && k <= |order[1..]|
    ensures var next := if order[0] in starts then busy + {order[0]} else busy;
            Filter(order[1..][..k], Idle(next, chosen)) == Filter(order[1..][..k], Idle(busy, chosen))
  {
    var next := if order[0] in starts then busy + {order[0]} else busy;
    forall x | x in order[1..][..k] ensures Idle(next, chosen)(x) == Idle(busy, chosen)(x) { assert x in order[1..]; }
    SameFilter(order[1..][..k], Idle(next, chosen), Idle(busy, chosen));
  }

  /** How far the loop gets before it finds the table full. */
  function StopAt(order: seq<int>, busy: set<int>, chosen: int -> bool, starts: set<int>, maxProcs: nat): (k: nat)
    ensures k <= |order|
  {
    if order == [] || Turn(order[0], busy, chosen, maxProcs).Full? then 0
    else 1 + StopAt(order[1..], BusyAfter(order[0], busy, Turn(order[0], busy, chosen, maxProcs), starts), chosen, starts, maxProcs)
  }

  lemma {:induction false} DispatchIsIdlePrefix(order: seq<int>, busy: set<int>, chosen: int -> bool, starts: set<int>, maxProcs: nat)
    requires Distinct(order)
    ensures Dispatch(order, busy, chosen, starts, maxProcs)
            == Filter(order[..StopAt(order, busy, chosen, starts, maxProcs)], Idle(busy, chosen))
  {
    if order != [] && !Turn(order[0], busy, chosen, maxProcs).Full? {
      var next := BusyAfter(order[0], busy, Turn(order[0], busy, chosen, maxProcs), starts);
      var k := StopAt(order[1..], next, chosen, starts, maxProcs);
      TailDistinct(order);
      DispatchIsIdlePrefix(order[1..], next, chosen, starts, maxProcs);
      IdleBehind(order, k, busy, chosen, starts);
      FilterFirst(order, k, Idle(busy, chosen));
    }
  }

  lemma {:induction false} StopIsFull(order: seq<int>, busy: set<int>, chosen: int -> bool, starts: set<int>, maxProcs: nat)
    ensures var d, k := Dispatch(order, busy, chosen, starts, maxProcs), StopAt(order, busy, chosen, starts, maxProcs);
            k < |order| ==> order[k] !in busy && |Occupied(busy, d, starts)| >= maxProcs
  {
    var d := Dispatch(order, busy, chosen, starts, maxProcs);
    if order != [] {
      var h := Turn(order[0], busy, chosen, maxProcs);
      if h.Full? {
        assert Occupied(busy, d, starts) == busy;
      } else {
        StopIsFull(order[1..], BusyAfter(order[0], busy, h, starts), chosen, starts, maxProcs);
        if h.Go? { OccupiedStep(busy, order[0], d[1..], starts); }
      }
    }
  }

  lemma OccupiedAfterFirst(order: seq<int>, busy: set<int>, chosen: int -> bool, starts: set<int>, maxProcs: nat, k: nat)
    requires Distinct(order) && order != [] && k <= |order[1..]| && !Turn(order[0], busy, chosen, maxProcs).Full?
    ensures var next := BusyAfter(order[0], busy, Turn(order[0], busy, chosen, maxProcs), starts);
            Occupied(busy, Filter(order[..k + 1], Idle(busy, chosen)), starts)
            == Occupied(next, Filter(order[1..][..k], Idle(next, chosen)), starts)
  {
    TailDistinct(order);
    IdleBehind(order, k, busy, chosen, starts);
    FilterFirst(order, k, Idle(busy, chosen));
    var rest := Filter(order[1..][..k], Idle(busy, chosen));
    if Idle(busy, chosen)(order[0]) {
      OccupiedStep(busy, order[0], rest, starts);
    } else {
      assert [] + rest == rest;
    }
  }

  /** Whoever is looked at finds the table with room, or has a child already. */
  lemma {:induction false} RoomUntilStop(order: seq<int>, busy: set<int>, chosen: int -> bool, starts: set<int>, maxProcs: nat, j: nat)
    requires Distinct(order) && j < StopAt(order, busy, chosen, starts, maxProcs)
    ensures order[j] in busy || |Occupied(busy, Filter(order[..j], Idle(busy, chosen)), starts)| < maxProcs
  {
    if j == 0 {
      assert order[..0] == [] && Occupied(busy, [], starts) == busy;
    } else {
      var next := BusyAfter(order[0], busy, Turn(order[0], busy, chosen, maxProcs), starts);
      TailDistinct(order);
      RoomUntilStop(order[1..], next, chosen, starts, maxProcs, j - 1);
      OccupiedAfterFirst(order, busy, chosen, starts, maxProcs, j - 1);
      assert order[j] == order[1..][j - 1] && order[j] != order[0];
    }
  }

  /** The pass dispatches exactly the idle accounts with work in front of the point where the table is full. */
  lemma DispatchStopsWhenFull(order: seq<int>, busy: set<int>, chosen: int -> bool, starts: set<int>, maxProcs: nat)
    requires Distinct(order)
    ensures var d, k := Dispatch(order, busy, chosen, starts, maxProcs), StopAt(order, busy, chosen, starts, maxProcs);
            && d == Filter(order[..k], Idle(busy, chosen))
            && (k < |order| ==> order[k] !in busy && |Occupied(busy, d, starts)| >= maxProcs)
            && |Occupied(busy, d, starts)| <= Max(|busy|, maxProcs)
  {
    DispatchIsIdlePrefix(order, busy, chosen, starts, maxProcs);
    StopIsFull(order, busy, chosen, starts, maxProcs);
    TableStaysBounded(order, busy, chosen, starts, maxProcs);
  }

  /** After the loop a layer watches exactly those of the accounts looked at whose batch it held back. */
  lemma {:induction false} WatchedMeaning(order: seq<int>, busy: set<int>, chosen: int -> bool, starts: set<int>, maxProcs: nat,
                                          held: int -> bool, watched: set<int>, a: int)
    requires Distinct(order)
    ensures var seen := order[..StopAt(order, busy, chosen, starts, maxProcs)];
            a in Watched(order, busy, chosen, starts, maxProcs, held, watched)
            <==> if a in seen && a !in busy then held(a) else a in watched
  {
    if order != [] && !Turn(order[0], busy, chosen, maxProcs).Full? {
      var h := Turn(order[0], busy, chosen, maxProcs);
      var next, k := BusyAfter(order[0], busy, h, starts), StopAt(order, busy, chosen, starts, maxProcs);
      TailDistinct(order);
      WatchedMeaning(order[1..], next, chosen, starts, maxProcs, held, WatchedAfter(order[0], h, held, watched), a);
      assert order[..k] == [order[0]] + order[1..][..k - 1];
      assert a in order[1..][..k - 1] ==> a in order[1..];
    }
  }

  // ---- the rotation list ----

  function RemoveFirst(s: seq<int>, a: int): seq<int> {
    if s == [] then [] else if s[0] == a then s[1..] else [s[0]] + RemoveFirst(s[1..], a)
  }

  lemma {:induction false} RemoveFirstIsFilter(s: seq<int>, a: int)
    requires Distinct(s)
    ensures RemoveFirst(s, a) == Filter(s, x => x != a)
  {
    if s != [] {
      assert forall i, j :: 0 <= i < j < |s[1..]| ==> s[1..][i] == s[i + 1] && s[1..][j] == s[j + 1];
      if s[0] == a { KeepsAll(s[1..], x => x != a); } else { RemoveFirstIsFilter(s[1..], a); }
    }
  }

  lemma FilterStaysDistinct(r: seq<int>, moved: seq<int>)
    requires Distinct(r) && Distinct(moved)
    ensures Distinct(MoveToTail(r, moved))
  {
    var out := (x: int) => x !in moved;
    FilterDistinct(r, out);
    forall x | x in Filter(r, out) ensures x !in moved { FilterMember(r, out, x); }
    DistinctConcat(Filter(r, out), moved);
  }

  lemma MovingOneMore(r: seq<int>, moved: seq<int>, a: int)
    requires Distinct(r) && Distinct(moved) && a !in moved
    ensures Distinct(MoveToTail(r, moved))
    ensures RemoveFirst(MoveToTail(r, moved), a) + [a] == MoveToTail(r, moved + [a])
  {
    var out := (x: int) => x !in moved;
    var other := (x: int) => x != a;
    var outMore := (x: int) => x !in moved + [a];
    var rest := Filter(r, out);
    assert MoveToTail(r, moved) == rest + moved;
    assert MoveToTail(r, moved + [a]) == Filter(r, outMore) + (moved + [a]);
    FilterStaysDistinct(r, moved);
    RemoveFirstIsFilter(rest + moved, a);
    FilterConcat(rest, moved, other);
    KeepsAll(moved, other);
    FilterTwice(r, out, other, outMore);
    assert RemoveFirst(rest + moved, a) == Filter(r, outMore) + moved;
  }

  // ---- the object ----

  class Supervisor {
    const caps: Caps
    const batch: nat
    const maxProcs: nat
    const publishTimeout: nat
    var rotation: seq<int>
    /** The registered children, and whether each is still running. */
    var procs: map<int, bool>
    var governed: set<int>
    var operatorGoverned: set<int>

    ghost predicate Valid() reads this { Distinct(rotation) }

    constructor (caps: Caps, batch: nat, maxProcs: nat, publishTimeout: nat)
      ensures Valid() && rotation == [] && procs == map[] && governed == {} && operatorGoverned == {}
      ensures this.caps == caps && this.batch == batch && this.maxProcs == maxProcs && this.publishTimeout == publishTimeout
    {
      this.caps, this.batch, this.maxProcs, this.publishTimeout := caps, batch, maxProcs, publishTimeout;
      rotation, procs, governed, operatorGoverned := [], map[], {}, {};
    }

    /** Resets the stale rows of accounts without a live child, and says how many there were. */
    method RecoverStalePublish(rows: PublishTable, now: int) returns (after: PublishTable, count: nat)
      ensures var live := set a | a in procs && procs[a];
              && after == RecoverStale(rows, now - publishTimeout, live)
              && count == |set id | id in rows && after[id] != rows[id]|
    {
      var cutoff := now - publishTimeout;
      var live: set<int> := {};
      var todo := procs.Keys;
      while todo != {}
        invariant todo <= procs.Keys && live == set a | a in procs.Keys - todo && procs[a]
        decreases |todo|
      {
        var a := Least(todo);
        if procs[a] { live := live + {a}; }
        todo := todo - {a};
      }
      assert live == set a | a in procs && procs[a];
      after := RecoverStale(rows, cutoff, live);
      var reset := set id | id in rows && Stale(rows[id], cutoff, live);
      assert reset == set id | id in rows && after[id] != rows[id];
      count := |reset|;
    }

    method FairOrder(accounts: set<int>) returns (order: seq<int>)
      requires Valid()
      modifies `rotation
      ensures Valid() && rotation == AddMissing(old(rotation), accounts)
      ensures order == Protocol.FairOrder(old(rotation), accounts)
      ensures Distinct(order) && forall a <- order :: a in accounts
    {
      var todo := accounts;
      while todo != {}
        invariant todo <= accounts && Valid() && AddMissing(rotation, todo) == AddMissing(old(rotation), accounts)
        decreases |todo|
      {
        var a := Least(todo);
        if a !in rotation { rotation := rotation + [a]; }
        todo := todo - {a};
      }
      order := [];
      var table := rotation;
      for i := 0 to |table|
        invariant rotation == table && order == Filter(table[..i], a => a in accounts)
      {
        assert table[..i + 1] == table[..i] + [table[i]];
        FilterConcat(table[..i], [table[i]], a => a in accounts);
        if table[i] in accounts { order := order + [table[i]]; }
      }
      assert table[..|table|] == table;
      FilterDistinct(table, a => a in accounts);
      forall a | a in order ensures a in accounts { FilterMember(table, x => x in accounts, a); }
    }

    /** Each layer remembers which accounts it is holding back, so that it complains only once. */
    method ApplySessionCap(account: int, items: seq<Item>, recent: nat) returns (kept: seq<Item>)
      modifies `governed, `operatorGoverned
      ensures kept == caps.Kept(items, recent)
      ensures forall k | 0 <= k < |kept| :: (kept[k].operator > 0 && caps.operator > 0 ==> recent + k < caps.operator)
                                            && (kept[k].operator <= 0 && caps.system > 0 ==> recent + k < caps.system)
      ensures governed == if HeldIn(caps, items, recent, false) > 0 then old(governed) + {account} else old(governed) - {account}
      ensures operatorGoverned
              == if HeldIn(caps, items, recent, true) > 0 then old(operatorGoverned) + {account} else old(operatorGoverned) - {account}
    {
      kept := [];
      var budget, opBudget := caps.system - recent, caps.operator - recent;
      var blocked, opBlocked := 0, 0;
      for i := 0 to |items|
        invariant budget == caps.system - recent - |kept| && opBudget == caps.operator - recent - |kept|
        invariant blocked >= 0 && opBlocked >= 0
        invariant caps.Kept(items, recent) == kept + caps.Kept(items[i..], recent + |kept|)
        invariant HeldIn(caps, items, recent, false) == blocked + HeldIn(caps, items[i..], recent + |kept|, false)
        invariant HeldIn(caps, items, recent, true) == opBlocked + HeldIn(caps, items[i..], recent + |kept|, true)
      {
        var item := items[i];
        assert items[i..][1..] == items[i + 1..];
        var allows := if item.operator > 0 then caps.operator <= 0 || opBudget > 0 else caps.system <= 0 || budget > 0;
        if allows {
          kept, budget, opBudget := kept + [item], budget - 1, opBudget - 1;
        } else {
          if item.operator > 0 { opBlocked := opBlocked + 1; } else { blocked := blocked + 1; }
        }
      }
      forall k | 0 <= k < |kept| ensures (kept[k].operator > 0 && caps.operator > 0 ==> recent + k < caps.operator)
                                         && (kept[k].operator <= 0 && caps.system > 0 ==> recent + k < caps.system)
      {
        caps.KeptWithinOwnCap(items, recent, k);
      }
      governed := if blocked > 0 then governed + {account} else governed - {account};
      operatorGoverned := if opBlocked > 0 then operatorGoverned + {account} else operatorGoverned - {account};
    }

    method MoveDispatched(dispatched: seq<int>)
      requires Valid() && Distinct(dispatched)
      modifies `rotation
      ensures Valid() && rotation == MoveToTail(old(rotation), dispatched)
    {
      KeepsAll(rotation, a => a !in []);
      for j := 0 to |dispatched|
        invariant Valid() && rotation == MoveToTail(old(rotation), dispatched[..j])
      {
        var a := dispatched[j];
        assert dispatched[..j + 1] == dispatched[..j] + [a];
        MovingOneMore(old(rotation), dispatched[..j], a);
        rotation := RemoveFirst(rotation, a) + [a];
        FilterStaysDistinct(old(rotation), dispatched[..j + 1]);
      }
      assert dispatched[..|dispatched|] == dispatched;
    }

    /** The turn of an account that is idle while the table has room. */
    method Start(a: int, queue: seq<Item>, used: nat, creates: bool) returns (goes: bool)
      modifies `procs, `governed, `operatorGoverned
      ensures goes == (caps.Kept(queue, used) != [])
      ensures procs == if goes && creates then old(procs)[a := true] else old(procs)
      ensures governed == if HeldIn(caps, queue, used, false) > 0 then old(governed) + {a} else old(governed) - {a}
      ensures operatorGoverned == if HeldIn(caps, queue, used, true) > 0 then old(operatorGoverned) + {a} else old(operatorGoverned) - {a}
    {
      var items := ApplySessionCap(a, queue, used);
      goes := items != [];
      if goes && creates { procs := procs[a := true]; }
    }

    /** One turn of the loop: `h` says what happened to the account. */
    method TryDispatch(a: int, work: map<int, seq<Item>>, recent: map<int, nat>, starts: set<int>) returns (h: Handling)
      requires a in work
      modifies `procs, `governed, `operatorGoverned
      ensures h == Turn(a, old(procs).Keys, Goes(caps, batch, work, recent), maxProcs)
      ensures procs == Registered(old(procs), a, h, starts)
      ensures governed == WatchedAfter(a, h, Holds(caps, batch, work, recent, false), old(governed))
      ensures operatorGoverned == WatchedAfter(a, h, Holds(caps, batch, work, recent, true), old(operatorGoverned))
      ensures h.Busy? || h.Full? ==> procs == old(procs) && governed == old(governed) && operatorGoverned == old(operatorGoverned)
    {
      if a in procs { return Busy; }
      TableSize(procs);
      if |procs| >= maxProcs { return Full; }
      BatchOf(caps, batch, work, recent, a);
      var goes := Start(a, FirstOf(work[a], batch), Count(recent, a), a in starts);
      h := if goes then Go else Capped;
    }

    /** The loop over the accounts in turn. */
    method HandleAll(order: seq<int>, work: map<int, seq<Item>>, recent: map<int, nat>, starts: set<int>) returns (dispatched: seq<int>)
      requires forall a <- order :: a in work
      modifies `procs, `governed, `operatorGoverned
      ensures dispatched == Dispatch(order, old(procs).Keys, Goes(caps, batch, work, recent), starts, maxProcs)
      ensures procs == WithStarted(old(procs), dispatched, starts)
      ensures governed == Watched(order, old(procs).Keys, Goes(caps, batch, work, recent), starts, maxProcs,
                                  Holds(caps, batch, work, recent, false), old(governed))
      ensures operatorGoverned == Watched(order, old(procs).Keys, Goes(caps, batch, work, recent), starts, maxProcs,
                                          Holds(caps, batch, work, recent, true), old(operatorGoverned))
    {
      ghost var goes, before := Goes(caps, batch, work, recent), procs;
      ghost var system, operator := Holds(caps, batch, work, recent, false), Holds(caps, batch, work, recent, true);
      ghost var total := Dispatch(order, before.Keys, goes, starts, maxProcs);
      ghost var endSystem := Watched(order, before.Keys, goes, starts, maxProcs, system, governed);
      ghost var endOperator := Watched(order, before.Keys, goes, starts, maxProcs, operator, operatorGoverned);
      dispatched := [];
      var i := 0;
      assert order[0..] == order;
      while i < |order|
        invariant 0 <= i <= |order|
        invariant dispatched + Dispatch(order[i..], procs.Keys, goes, starts, maxProcs) == total
        invariant procs == WithStarted(before, dispatched, starts)
        invariant Watched(order[i..], procs.Keys, goes, starts, maxProcs, system, governed) == endSystem
        invariant Watched(order[i..], procs.Keys, goes, starts, maxProcs, operator, operatorGoverned) == endOperator
      {
        assert order[i] in order;
        TurnKeepsTotal(dispatched, order, i, procs.Keys, goes, starts, maxProcs);
        WatchedUnfolds(order, i, procs.Keys, goes, starts, maxProcs, system, governed);
        WatchedUnfolds(order, i, procs.Keys, goes, starts, maxProcs, operator, operatorGoverned);
        StartedOneMore(before, dispatched, starts, order[i]);
        ghost var running := procs;
        var h := TryDispatch(order[i], work, recent, starts);
        RegisteredKeys(running, order[i], h, starts);
        if h.Full? { return; }
        if h.Go? { dispatched := dispatched + [order[i]]; }
        i := i + 1;
      }
      assert dispatched + [] == dispatched;
    }

    /** One pass: `work` holds every account's queue oldest first; a process can be created for `starts` only. */
    method DispatchAccounts(work: map<int, seq<Item>>, recent: map<int, nat>, starts: set<int>) returns (dispatched: seq<int>)
      requires Valid()
      modifies `rotation, `procs, `governed, `operatorGoverned
      ensures Valid()
      ensures var order, goes := Protocol.FairOrder(old(rotation), work.Keys), Goes(caps, batch, work, recent);
              && dispatched == Dispatch(order, old(procs).Keys, goes, starts, maxProcs)
              && rotation == MoveToTail(AddMissing(old(rotation), work.Keys), dispatched)
              && procs == WithStarted(old(procs), dispatched, starts)
              && governed == Watched(order, old(procs).Keys, goes, starts, maxProcs, Holds(caps, batch, work, recent, false), old(governed))
              && operatorGoverned
                 == Watched(order, old(procs).Keys, goes, starts, maxProcs, Holds(caps, batch, work, recent, true), old(operatorGoverned))
    {
      var order := FairOrder(work.Keys);
      DispatchDistinct(order, procs.Keys, Goes(caps, batch, work, recent), starts, maxProcs);
      dispatched := HandleAll(order, work, recent, starts);
      MoveDispatched(dispatched);
    }
  }
}
