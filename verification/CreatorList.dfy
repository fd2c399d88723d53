/** Paging through an account's own notes by scrolling, where a scroll may go unanswered. */
module CreatorList {
  import opened Collections
  import opened Dedup
  import opened TopicText

  const RETRIES := 3

  datatype Note = Note(id: string)

  function IdOf(n: Note): string { Strip(n.id) }

  type Batch = seq<Note>

  /** A list response: its notes, unless they are not a list, and the total it reports, if any. */
  datatype Response = Response(notes: Option<Batch>, total: Option<nat>)

  /** What the collector holds: all batches, and the first total that was reported with a batch. */
  datatype Held = Held(batches: seq<Batch>, expected: Option<nat>)

  function Handle(h: Held, r: Response): Held {
    if r.notes.None? then h
    else Held(h.batches + [r.notes.value], if h.expected.Some? then h.expected else r.total)
  }

  function Receive(h: Held, rs: seq<Response>): Held {
    if rs == [] then h else Handle(Receive(h, rs[..|rs| - 1]), rs[|rs| - 1])
  }

  function Merged(h: Held): seq<Note> { Firsts(Concat(h.batches), IdOf) }

  predicate Reached(h: Held) { h.expected.Some? && |Merged(h)| >= h.expected.value }

  /** The paging loop; `world(n)` arrives with scroll `n`, and `idle` scrolls went unanswered just before. */
  function Scroll(h: Held, idle: nat, n: nat, world: nat -> seq<Response>, maxPages: nat): Held
    requires idle < RETRIES
    decreases if |h.batches| < maxPages then maxPages - |h.batches| else 0, RETRIES - idle
  {
    if |h.batches| >= maxPages then h
    else
      var d := Receive(h, world(n));
      ReceiveGrows(h, world(n));
      if |d.batches| == |h.batches| then
        if !Reached(d) && idle + 1 < RETRIES then Scroll(d, idle + 1, n + 1, world, maxPages) else d
      else if d.batches[|d.batches| - 1] == [] then d
      else Scroll(d, 0, n + 1, world, maxPages)
  }

  lemma {:induction false} ReceiveGrows(h: Held, rs: seq<Response>)
    ensures h.batches <= Receive(h, rs).batches
    ensures |Receive(h, rs).batches| == |h.batches| ==> Receive(h, rs) == h
  {
    if rs != [] { ReceiveGrows(h, rs[..|rs| - 1]); }
  }

  datatype Fetched = NoResponse | Notes(notes: seq<Note>)

  /**
   The whole fetch: responses arrive during the first wait, else during a second navigation and a second
   wait, and while the mouse moves to the list. What arrives during that navigation is kept but does not end
   the second wait.
   */
  function Fetch(first: seq<Response>, navigation: seq<Response>, second: seq<Response>, hover: seq<Response>,
                 world: nat -> seq<Response>, maxPages: nat): Fetched
  {
    var start := Held([], None);
    var h1 := Receive(start, first);
    var h2 := if h1.batches == [] then Receive(h1, navigation) else h1;
    var h3 := if h1.batches == [] then Receive(h2, second) else h1;
    ReceiveGrows(h2, second);
    if h1.batches == [] && |h3.batches| == |h2.batches| then NoResponse
    else if h3.batches[|h3.batches| - 1] == [] then Notes([])
    else Notes(Merged(Scroll(Receive(h3, hover), 0, 0, world, maxPages)))
  }

  // ---- what the platform serves ----

  /** The batches that arrive with the scrolls before `n`. */
  function Delivered(world: nat -> seq<Response>, n: nat): seq<Batch> {
    if n == 0 then [] else Receive(Held(Delivered(world, n - 1), None), world(n - 1)).batches
  }

  /** The pages of the account in order, and empty pages behind them. */
  ghost predicate Follows(batches: seq<Batch>, pages: seq<Batch>) {
    forall i :: 0 <= i < |batches| ==> batches[i] == if i < |pages| then pages[i] else []
  }

  ghost predicate ServesInOrder(pages: seq<Batch>, start: seq<Batch>, world: nat -> seq<Response>, n: nat) {
    Follows(start + Delivered(world, n), pages)
  }

  /** While pages remain before scroll `n`, one of the next three scrolls is answered. */
  ghost predicate Answers(pages: seq<Batch>, start: seq<Batch>, world: nat -> seq<Response>, n: nat) {
    |start| + |Delivered(world, n)| < |pages| ==> |Delivered(world, n + RETRIES)| > |Delivered(world, n)|
  }

  /** Every page holds something, every answer is the next page, and answers come while pages remain. */
  ghost predicate Serves(pages: seq<Batch>, start: seq<Batch>, world: nat -> seq<Response>) {
    && (forall i :: 0 <= i < |pages| ==> pages[i] != [])
    && (forall n: nat :: ServesInOrder(pages, start, world, n))
    && (forall n: nat :: Answers(pages, start, world, n))
  }

  /** A reported total is the number of the account's notes. */
  ghost predicate Truthful(pages: seq<Batch>, total: Option<nat>) {
    total.None? || total.value == |Firsts(Concat(pages), IdOf)|
  }

  ghost predicate TruthfulWorld(pages: seq<Batch>, world: nat -> seq<Response>) {
    forall n: nat, i: nat :: i < |world(n)| ==> Truthful(pages, world(n)[i].total)
  }

  // ---- completeness ----

  lemma {:induction false} ReceiveAppends(h: Held, k: Held, rs: seq<Response>, prefix: seq<Batch>)
    requires h.batches == prefix + k.batches
    ensures Receive(h, rs).batches == prefix + Receive(k, rs).batches
  {
    if rs != [] {
      ReceiveAppends(h, k, rs[..|rs| - 1], prefix);
      var a, b, r := Receive(h, rs[..|rs| - 1]), Receive(k, rs[..|rs| - 1]), rs[|rs| - 1];
      if r.notes.Some? { assert prefix + (b.batches + [r.notes.value]) == (prefix + b.batches) + [r.notes.value]; }
    }
  }

  lemma {:induction false} ReceiveTruthful(pages: seq<Batch>, h: Held, rs: seq<Response>)
    requires Truthful(pages, h.expected) && forall i :: 0 <= i < |rs| ==> Truthful(pages, rs[i].total)
    ensures Truthful(pages, Receive(h, rs).expected)
  {
    if rs != [] { ReceiveTruthful(pages, h, rs[..|rs| - 1]); }
  }

  /** Pages and empty pages: the same notes. */
  lemma {:induction false} AllPagesSeen(batches: seq<Batch>, pages: seq<Batch>)
    requires Follows(batches, pages) && |batches| >= |pages|
    ensures Concat(batches) == Concat(pages)
  {
    if |batches| == |pages| {
      assert batches == pages;
    } else {
      var front := batches[..|batches| - 1];
      assert forall i :: 0 <= i < |front| ==> front[i] == batches[i];
      AllPagesSeen(front, pages);
      assert Concat(batches) == Concat(front) + [];
    }
  }

  lemma SomePagesSeen(batches: seq<Batch>, pages: seq<Batch>)
    requires Follows(batches, pages) && |batches| <= |pages|
    ensures Firsts(Concat(batches), IdOf) <= Firsts(Concat(pages), IdOf)
  {
    assert pages == batches + pages[|batches|..];
    ConcatSplits(batches, pages[|batches|..]);
    FirstsGrow(Concat(batches), Concat(pages[|batches|..]), IdOf);
  }

  lemma {:induction false} ConcatSplits(a: seq<Batch>, b: seq<Batch>)
    ensures Concat(a + b) == Concat(a) + Concat(b)
    decreases |b|
  {
    if b == [] {
      assert a + b == a;
    } else {
      var front, last := b[..|b| - 1], b[|b| - 1];
      ConcatSplits(a, front);
      assert a + b == (a + front) + [last];
      ConcatOneMore(a + front, last);
      assert (Concat(a) + Concat(front)) + last == Concat(a) + (Concat(front) + last);
    }
  }

  /** A truthful total that is reached leaves no page unseen that matters. */
  lemma ReachedIsComplete(h: Held, pages: seq<Batch>)
    requires Follows(h.batches, pages) && Truthful(pages, h.expected) && Reached(h)
    ensures Merged(h) == Firsts(Concat(pages), IdOf)
  {
    if |h.batches| >= |pages| { AllPagesSeen(h.batches, pages); } else { SomePagesSeen(h.batches, pages); }
  }

  /** One scroll brings the collector to the next state of the served stream. */
  lemma OneScroll(h: Held, n: nat, world: nat -> seq<Response>, pages: seq<Batch>, start: seq<Batch>)
    requires h.batches == start + Delivered(world, n)
    requires Serves(pages, start, world) && TruthfulWorld(pages, world) && Truthful(pages, h.expected)
    ensures var d := Receive(h, world(n));
            && d.batches == start + Delivered(world, n + 1) && Follows(d.batches, pages) && Truthful(pages, d.expected)
            && |d.batches| >= |h.batches| && (|d.batches| == |h.batches| ==> d == h)
            && (d.batches != [] && d.batches[|d.batches| - 1] == [] ==> |d.batches| > |pages|)
  {
    ReceiveGrows(h, world(n));
    ReceiveAppends(h, Held(Delivered(world, n), None), world(n), start);
    ReceiveTruthful(pages, h, world(n));
    assert ServesInOrder(pages, start, world, n + 1);
  }

  /** Three unanswered scrolls in a row: no page remains. */
  lemma IdleMeansEnd(n: nat, world: nat -> seq<Response>, pages: seq<Batch>, start: seq<Batch>)
    requires Serves(pages, start, world) && |Delivered(world, n + RETRIES)| == |Delivered(world, n)|
    ensures |start| + |Delivered(world, n)| >= |pages|
  {
    assert Answers(pages, start, world, n);
  }

  /** The collector is where the served stream is before scroll `n`, and the last `idle` scrolls brought nothing. */
  ghost predicate InStep(h: Held, idle: nat, n: nat, world: nat -> seq<Response>, pages: seq<Batch>, start: seq<Batch>) {
    && idle < RETRIES && idle <= n && h.batches == start + Delivered(world, n) && Follows(h.batches, pages)
    && Truthful(pages, h.expected) && |Delivered(world, n - idle)| == |Delivered(world, n)|
  }

  lemma ThirdIdleScroll(h: Held, idle: nat, n: nat, world: nat -> seq<Response>, pages: seq<Batch>, start: seq<Batch>)
    requires InStep(h, idle, n, world, pages, start) && Serves(pages, start, world)
    requires idle + 1 == RETRIES && |Delivered(world, n + 1)| == |Delivered(world, n)|
    ensures Concat(h.batches) == Concat(pages)
  {
    IdleMeansEnd(n - idle, world, pages, start);
    AllPagesSeen(h.batches, pages);
  }

  /** How the loop goes on after scroll `n`: with so many unanswered scrolls, or not at all. */
  function GoesOn(h: Held, d: Held, idle: nat): Option<nat> {
    if |d.batches| == |h.batches| then if !Reached(d) && idle + 1 < RETRIES then Some(idle + 1) else None
    else if d.batches != [] && d.batches[|d.batches| - 1] == [] then None
    else Some(0)
  }

  /** An unanswered scroll after which the loop ends: the total is reached, or it was the third in a row. */
  lemma IdleEnd(h: Held, idle: nat, n: nat, world: nat -> seq<Response>, pages: seq<Batch>, start: seq<Batch>)
    requires InStep(h, idle, n, world, pages, start) && Serves(pages, start, world)
    requires |Delivered(world, n + 1)| == |Delivered(world, n)| && (Reached(h) || idle + 1 == RETRIES)
    ensures Merged(h) == Firsts(Concat(pages), IdOf)
  {
    if Reached(h) { ReachedIsComplete(h, pages); } else { ThirdIdleScroll(h, idle, n, world, pages, start); }
  }

  /** After one scroll the loop goes on in step, or it ends with every note. */
  lemma ScrollStep(h: Held, idle: nat, n: nat, world: nat -> seq<Response>, pages: seq<Batch>, start: seq<Batch>)
    requires InStep(h, idle, n, world, pages, start) && Serves(pages, start, world) && TruthfulWorld(pages, world)
    ensures var d := Receive(h, world(n));
            && |d.batches| >= |h.batches|
            && match GoesOn(h, d, idle)
               case None => Merged(d) == Firsts(Concat(pages), IdOf)
               case Some(more) => InStep(d, more, n + 1, world, pages, start) && (|d.batches| == |h.batches| ==> more > idle)
  {
    var d := Receive(h, world(n));
    OneScroll(h, n, world, pages, start);
    if |d.batches| == |h.batches| {
      assert |Delivered(world, n + 1)| == |Delivered(world, n)|;
      if GoesOn(h, d, idle).None? { IdleEnd(h, idle, n, world, pages, start); }
    } else if GoesOn(h, d, idle).None? {
      AllPagesSeen(d.batches, pages);
    }
  }

  lemma ScrollUnfolds(h: Held, idle: nat, n: nat, world: nat -> seq<Response>, maxPages: nat)
    requires idle < RETRIES && |h.batches| < maxPages
    ensures var d := Receive(h, world(n));
            Scroll(h, idle, n, world, maxPages)
            == match GoesOn(h, d, idle) case None => d case Some(more) => Scroll(d, more, n + 1, world, maxPages)
  {
    ReceiveGrows(h, world(n));
  }

  lemma {:induction false} ScrollIsComplete(h: Held, idle: nat, n: nat, world: nat -> seq<Response>, maxPages: nat,
                                            pages: seq<Batch>, start: seq<Batch>)
    requires InStep(h, idle, n, world, pages, start)
    requires Serves(pages, start, world) && TruthfulWorld(pages, world) && |pages| <= maxPages
    ensures Merged(Scroll(h, idle, n, world, maxPages)) == Firsts(Concat(pages), IdOf)
    decreases if |h.batches| < maxPages then maxPages - |h.batches| else 0, RETRIES - idle
  {
    if |h.batches| >= maxPages {
      AllPagesSeen(h.batches, pages);
    } else {
      var d := Receive(h, world(n));
      ScrollStep(h, idle, n, world, pages, start);
      ScrollUnfolds(h, idle, n, world, maxPages);
      match GoesOn(h, d, idle)
      case None =>
      case Some(more) => ScrollIsComplete(d, more, n + 1, world, maxPages, pages, start);
    }
  }

  /** The collector when the first response is awaited no longer. */
  function AfterWaiting(first: seq<Response>, navigation: seq<Response>, second: seq<Response>): Held {
    var h1 := Receive(Held([], None), first);
    if h1.batches == [] then Receive(Receive(h1, navigation), second) else h1
  }

  lemma FetchAfterWaiting(first: seq<Response>, navigation: seq<Response>, second: seq<Response>, hover: seq<Response>,
                          world: nat -> seq<Response>, maxPages: nat)
    requires Fetch(first, navigation, second, hover, world, maxPages).Notes?
    ensures var h := AfterWaiting(first, navigation, second);
            && h.batches != []
            && Fetch(first, navigation, second, hover, world, maxPages)
               == if h.batches[|h.batches| - 1] == [] then Notes([])
                  else Notes(Merged(Scroll(Receive(h, hover), 0, 0, world, maxPages)))
  {
    ReceiveGrows(Receive(Receive(Held([], None), first), navigation), second);
  }

  lemma ScrollFromStart(start: Held, world: nat -> seq<Response>, maxPages: nat, pages: seq<Batch>)
    requires Serves(pages, start.batches, world) && Truthful(pages, start.expected)
    requires TruthfulWorld(pages, world) && |pages| <= maxPages
    ensures Merged(Scroll(start, 0, 0, world, maxPages)) == Firsts(Concat(pages), IdOf)
  {
    assert Delivered(world, 0) == [] && start.batches == start.batches + Delivered(world, 0);
    assert ServesInOrder(pages, start.batches, world, 0);
    ScrollIsComplete(start, 0, 0, world, maxPages, pages, start.batches);
  }

  /**
   A fetch that gets a response returns every note of the account once, in first-seen order, exactly unless
   the newest of the first batches was an empty page behind the end.
   */
  lemma FetchIsComplete(first: seq<Response>, navigation: seq<Response>, second: seq<Response>, hover: seq<Response>,
                        world: nat -> seq<Response>, maxPages: nat, pages: seq<Batch>)
    requires var h := Receive(AfterWaiting(first, navigation, second), hover);
             Serves(pages, h.batches, world) && Truthful(pages, h.expected)
    requires TruthfulWorld(pages, world) && |pages| <= maxPages
    requires Fetch(first, navigation, second, hover, world, maxPages).Notes?
    ensures var h, all := AfterWaiting(first, navigation, second), Firsts(Concat(pages), IdOf);
            && h.batches != []
            && (Fetch(first, navigation, second, hover, world, maxPages) == Notes(all)
                <==> h.batches[|h.batches| - 1] != [] || all == [])
  {
    FetchAfterWaiting(first, navigation, second, hover, world, maxPages);
    ScrollFromStart(Receive(AfterWaiting(first, navigation, second), hover), world, maxPages, pages);
  }

  /** Some response among these carries a list of notes. */
  predicate Brings(rs: seq<Response>) { exists r <- rs :: r.notes.Some? }

  lemma {:induction false} ReceiveBrings(h: Held, rs: seq<Response>)
    ensures |Receive(h, rs).batches| > |h.batches| <==> Brings(rs)
  {
    if rs != [] {
      var front, last := rs[..|rs| - 1], rs[|rs| - 1];
      ReceiveBrings(h, front);
      ReceiveGrows(h, front);
      assert rs == front + [last];
    }
  }

  /** There is no response exactly if neither wait brings a batch; one that comes during the navigation does not count. */
  lemma NoResponseIff(first: seq<Response>, navigation: seq<Response>, second: seq<Response>, hover: seq<Response>,
                      world: nat -> seq<Response>, maxPages: nat)
    ensures Fetch(first, navigation, second, hover, world, maxPages) == NoResponse <==> !Brings(first) && !Brings(second)
  {
    var start := Held([], None);
    ReceiveBrings(start, first);
    ReceiveBrings(Receive(Receive(start, first), navigation), second);
    ReceiveGrows(Receive(Receive(start, first), navigation), second);
  }

  /** If a page and the empty page behind it arrive together at first, the account's notes are not returned. */
  lemma EmptyPageBehindHidesNotes(world: nat -> seq<Response>, maxPages: nat)
    ensures Fetch([Response(Some([Note("a")]), None), Response(Some([]), None)], [], [], [], world, maxPages) == Notes([])
  {
    var rs := [Response(Some([Note("a")]), None), Response(Some([]), None)];
    assert rs[..1][..0] == [] && rs[..1] == [rs[0]];
  }

  // ---- what was received, and when the scrolling stops ----

  /** What comes later is added to what came before. */
  lemma {:induction false} ReceiveJoined(h: Held, a: seq<Response>, b: seq<Response>)
    ensures Receive(h, a + b) == Receive(Receive(h, a), b)
    decreases |b|
  {
    if b == [] {
      assert a + b == a;
    } else {
      ReceiveJoined(h, a, b[..|b| - 1]);
      assert (a + b)[..|a + b| - 1] == a + b[..|b| - 1];
    }
  }

  /** A total that is held is not replaced, and without notes and a total in one response there is none. */
  lemma {:induction false} TotalStays(h: Held, rs: seq<Response>)
    ensures h.expected.Some? ==> Receive(h, rs).expected == h.expected
    ensures h.expected.None? && (forall r <- rs :: r.notes.None? || r.total.None?) ==> Receive(h, rs).expected.None?
  {
    if rs != [] {
      TotalStays(h, rs[..|rs| - 1]);
      assert forall r <- rs[..|rs| - 1] :: r in rs;
      assert rs[|rs| - 1] in rs;
    }
  }

  /** The total that is held is the first that came together with notes. */
  lemma TotalIsFirst(before: seq<Response>, r: Response, after: seq<Response>)
    requires (forall q <- before :: q.notes.None? || q.total.None?) && r.notes.Some? && r.total.Some?
    ensures Receive(Held([], None), before + [r] + after).expected == r.total
  {
    var start := Held([], None);
    TotalStays(start, before);
    ReceiveJoined(start, before + [r], after);
    assert (before + [r])[..|before|] == before;
    TotalStays(Receive(start, before + [r]), after);
  }

  /** The merged list holds every number that is not blank, once, and each note with it is the first that carries it. */
  lemma MergedMeaning(h: Held, id: string)
    ensures var all, merged := Concat(h.batches), Merged(h);
            && (forall i | 0 <= i < |merged| :: Strip(merged[i].id) != "")
            && (forall i, j | 0 <= i < j < |merged| :: Strip(merged[i].id) != Strip(merged[j].id))
            && (id != "" ==> ((exists i :: 0 <= i < |merged| && Strip(merged[i].id) == id)
                              <==> exists i :: 0 <= i < |all| && Strip(all[i].id) == id))
  {
    var all, merged := Concat(h.batches), Merged(h);
    FirstsKeys(all, IdOf, id);
    FirstsKeys(all, IdOf, "");
    forall i, j | 0 <= i < j < |merged| ensures Strip(merged[i].id) != Strip(merged[j].id) {
      assert IdOf(merged[i]) != IdOf(merged[j]);
    }
    forall i | 0 <= i < |merged| ensures Strip(merged[i].id) != "" { assert IdOf(merged[i]) != ""; }
    if i :| 0 <= i < |merged| && Strip(merged[i].id) == id { assert IdOf(merged[i]) == id; }
    if i :| 0 <= i < |all| && Strip(all[i].id) == id { assert IdOf(all[i]) == id; }
    if i :| 0 <= i < |merged| && IdOf(merged[i]) == id { assert Strip(merged[i].id) == id; }
    if i :| 0 <= i < |all| && IdOf(all[i]) == id { assert Strip(all[i].id) == id; }
  }

  /** The collector after `n` scrolls. */
  function After(h: Held, world: nat -> seq<Response>, n: nat): Held {
    if n == 0 then h else Receive(After(h, world, n - 1), world(n - 1))
  }

  /** The last of the scrolls brought no batch. */
  predicate Unanswered(h: Held, world: nat -> seq<Response>, n: nat) {
    n > 0 && |After(h, world, n).batches| == |After(h, world, n - 1).batches|
  }

  /**
   Why the scrolling stops after `n` scrolls: there are enough batches; the last scroll brought an empty page as
   its newest; or it brought nothing, and the reported total is reached or neither of the two before did.
   */
  predicate Stops(h: Held, world: nat -> seq<Response>, maxPages: nat, n: nat) {
    var now := After(h, world, n);
    || |now.batches| >= maxPages
    || (n > 0 && !Unanswered(h, world, n) && now.batches != [] && now.batches[|now.batches| - 1] == [])
    || (Unanswered(h, world, n) && now.expected.Some? && |Merged(now)| >= now.expected.value)
    || (n >= 3 && Unanswered(h, world, n) && Unanswered(h, world, n - 1) && Unanswered(h, world, n - 2))
  }

  /** The last `idle` of `n` scrolls went unanswered, and no more. */
  predicate Idles(h: Held, idle: nat, n: nat, world: nat -> seq<Response>) {
    && idle <= n && (forall m: nat | n - idle < m <= n :: Unanswered(h, world, m))
    && !Unanswered(h, world, n - idle)
  }

  /** Whether scroll `n + 1` is a stop, from what it brings. */
  lemma NextStop(h: Held, idle: nat, n: nat, world: nat -> seq<Response>, maxPages: nat)
    requires idle < RETRIES && Idles(h, idle, n, world) && |After(h, world, n).batches| < maxPages
    ensures var now, next := After(h, world, n), After(h, world, n + 1);
            && |next.batches| >= |now.batches|
            && if |next.batches| == |now.batches| then
                 && Idles(h, idle + 1, n + 1, world)
                 && (Stops(h, world, maxPages, n + 1) <==> Reached(next) || idle + 1 >= RETRIES)
               else
                 && Idles(h, 0, n + 1, world) && next.batches != []
                 && (Stops(h, world, maxPages, n + 1) <==> next.batches[|next.batches| - 1] == [] || |next.batches| >= maxPages)
  {
    var now, next := After(h, world, n), After(h, world, n + 1);
    ReceiveGrows(now, world(n));
    assert next == Receive(now, world(n));
    assert Unanswered(h, world, n + 1) <==> |next.batches| == |now.batches|;
    if Unanswered(h, world, n + 1) {
      assert Idles(h, idle + 1, n + 1, world);
      ThirdUnanswered(h, idle + 1, n + 1, world);
    }
  }

  lemma ThirdUnanswered(h: Held, idle: nat, n: nat, world: nat -> seq<Response>)
    requires Idles(h, idle, n, world) && 0 < idle <= RETRIES
    ensures idle == RETRIES <==> n >= 3 && Unanswered(h, world, n) && Unanswered(h, world, n - 1) && Unanswered(h, world, n - 2)
  {
  }

  /** The scrolling ends at the first stop from scroll `n` on. */
  lemma {:induction false} ScrollFrom(h: Held, idle: nat, n: nat, world: nat -> seq<Response>, maxPages: nat) returns (k: nat)
    requires idle < RETRIES && Idles(h, idle, n, world)
    requires |After(h, world, n).batches| >= maxPages || !Stops(h, world, maxPages, n)
    ensures n <= k && Scroll(After(h, world, n), idle, n, world, maxPages) == After(h, world, k)
    ensures Stops(h, world, maxPages, k) && forall m: nat | n <= m < k :: !Stops(h, world, maxPages, m)
    decreases if |After(h, world, n).batches| < maxPages then maxPages - |After(h, world, n).batches| else 0, RETRIES - idle
  {
    var now := After(h, world, n);
    k := n;
    if |now.batches| < maxPages {
      var next := After(h, world, n + 1);
      NextStop(h, idle, n, world, maxPages);
      if Stops(h, world, maxPages, n + 1) {
        k := n + 1;
      } else if |next.batches| == |now.batches| {
        k := ScrollFrom(h, idle + 1, n + 1, world, maxPages);
      } else {
        k := ScrollFrom(h, 0, n + 1, world, maxPages);
      }
    }
  }

  /** The scrolling ends at the first stop, and with what had arrived by then. */
  lemma ScrollStopsFirst(h: Held, world: nat -> seq<Response>, maxPages: nat) returns (k: nat)
    ensures Scroll(h, 0, 0, world, maxPages) == After(h, world, k)
    ensures Stops(h, world, maxPages, k) && forall m: nat | m < k :: !Stops(h, world, maxPages, m)
  {
    k := ScrollFrom(h, 0, 0, world, maxPages);
  }

  /** All that is held when the first response is awaited no longer: the first wait, or if it brought nothing all three. */
  lemma WaitingKeepsAll(first: seq<Response>, navigation: seq<Response>, second: seq<Response>)
    ensures AfterWaiting(first, navigation, second)
            == Receive(Held([], None), if Brings(first) then first else first + navigation + second)
  {
    var start := Held([], None);
    ReceiveBrings(start, first);
    ReceiveGrows(start, first);
    ReceiveJoined(start, first, navigation);
    ReceiveJoined(start, first + navigation, second);
  }

  // ---- the collector object and the loop ----

  class PostedCollector {
    var batches: seq<Batch>
    var expected: Option<nat>

    function State(): Held reads this { Held(batches, expected) }

    constructor ()
      ensures State() == Held([], None)
    {
      batches, expected := [], None;
    }

    method HandleResponse(r: Response)
      modifies this
      ensures State() == Handle(old(State()), r)
      ensures r.notes.None? ==> batches == old(batches) && expected == old(expected)
      ensures r.notes.Some? ==> batches == old(batches) + [r.notes.value]
      ensures r.notes.Some? ==> expected == if old(expected).Some? then old(expected) else r.total
    {
      if r.notes.None? { return; }
      batches := batches + [r.notes.value];
      if expected.None? { expected := r.total; }
    }

    /** Lets `arrivals` come in, and says which batch is the newest if there is a new one. */
    method WaitForNewBatch(seen: nat, arrivals: seq<Response>) returns (batch: Option<Batch>)
      modifies this
      ensures State() == Receive(old(State()), arrivals)
      ensures batch == if |batches| > seen then Some(batches[|batches| - 1]) else None
    {
      for i := 0 to |arrivals|
        invariant State() == Receive(old(State()), arrivals[..i])
      {
        assert arrivals[..i + 1][..i] == arrivals[..i];
        HandleResponse(arrivals[i]);
      }
      assert arrivals[..|arrivals|] == arrivals;
      batch := if |batches| > seen then Some(batches[|batches| - 1]) else None;
    }

    method MergeBatch(merged: seq<Note>, seenIds: set<string>, batch: Batch, ghost before: seq<Note>)
      returns (more: seq<Note>, ids: set<string>)
      requires Collects(merged, seenIds, before, IdOf)
      ensures Collects(more, ids, before + batch, IdOf)
    {
      more, ids := merged, seenIds;
      assert before + batch[..0] == before;
      for j := 0 to |batch|
        invariant Collects(more, ids, before + batch[..j], IdOf)
      {
        var id := IdOf(batch[j]);
        assert before + batch[..j + 1] == (before + batch[..j]) + [batch[j]];
        CollectsOneMore(more, ids, before + batch[..j], IdOf, batch[j]);
        if id == "" || id in ids { continue; }
        more, ids := more + [batch[j]], ids + {id};
      }
      assert batch[..|batch|] == batch;
    }

    method MergeBatches() returns (merged: seq<Note>)
      ensures merged == Merged(State())
    {
      merged := [];
      var ids: set<string> := {};
      for i := 0 to |batches|
        invariant Collects(merged, ids, Concat(batches[..i]), IdOf)
      {
        assert batches[..i + 1] == batches[..i] + [batches[i]];
        ConcatOneMore(batches[..i], batches[i]);
        merged, ids := MergeBatch(merged, ids, batches[i], Concat(batches[..i]));
      }
      assert batches[..|batches|] == batches;
    }

    method ReachedExpected() returns (reached: bool)
      ensures reached == Reached(State())
    {
      var merged := MergeBatches();
      reached := expected.Some? && |merged| >= expected.value;
    }

    /** Scrolls until the end, an empty page, or the limit; the measure is pages left, then retries left. */
    method ScrollAll(world: nat -> seq<Response>, maxPages: nat)
      modifies this
      ensures State() == Scroll(old(State()), 0, 0, world, maxPages)
    {
      var idle, n := 0, 0;
      while |batches| < maxPages
        invariant idle < RETRIES
        invariant Scroll(State(), idle, n, world, maxPages) == Scroll(old(State()), 0, 0, world, maxPages)
        decreases maxPages - |batches|, RETRIES - idle
      {
        var seen := |batches|;
        ReceiveGrows(State(), world(n));
        var batch := WaitForNewBatch(seen, world(n));
        n := n + 1;
        if batch.None? {
          var reached := ReachedExpected();
          if reached || idle + 1 >= RETRIES { return; }
          idle := idle + 1;
          continue;
        }
        idle := 0;
        if batch.value == [] { return; }
      }
    }

    method FetchPostedNotes(first: seq<Response>, navigation: seq<Response>, second: seq<Response>, hover: seq<Response>,
                            world: nat -> seq<Response>, maxPages: nat) returns (r: Fetched)
      requires State() == Held([], None)
      modifies this
      ensures r == Fetch(first, navigation, second, hover, world, maxPages)
    {
      var batch := WaitForNewBatch(0, first);
      if batch.None? {
        var passed := WaitForNewBatch(|batches|, navigation);
        ReceiveGrows(State(), second);
        batch := WaitForNewBatch(|batches|, second);
      }
      if batch.None? { return NoResponse; }
      if batch.value == [] { return Notes([]); }
      var hovered := WaitForNewBatch(|batches|, hover);
      ScrollAll(world, maxPages);
      var merged := MergeBatches();
      r := Notes(merged);
    }
  }
}
