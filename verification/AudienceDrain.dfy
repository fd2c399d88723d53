/**
 Reading a newest-first notification stream from pages that arrive while the list is scrolled. The paged,
 incremental collection equals one pass over the stream, wherever the pages are cut.
 */
module AudienceDrain {
  import opened Collections
  import opened Dedup

  const STALL_ROUNDS := 3

  /** A missing time counts as 0, a missing number as blank. */
  datatype Message = Message(id: string, time: int)
  datatype Page = Page(messages: seq<Message>, hasMore: bool)

  function IdOf(m: Message): string { m.id }

  /** Seen in an earlier collection; without a cursor nothing is. */
  predicate Known(m: Message, cursor: Option<int>) { cursor.Some? && m.time <= cursor.value }

  /** The messages in front of the first known one. */
  function Unread(messages: seq<Message>, cursor: Option<int>): seq<Message> {
    if messages == [] || Known(messages[0], cursor) then [] else [messages[0]] + Unread(messages[1..], cursor)
  }

  predicate HitsKnown(messages: seq<Message>, cursor: Option<int>) { exists m <- messages :: Known(m, cursor) }

  lemma {:induction false} UnreadConcat(a: seq<Message>, b: seq<Message>, cursor: Option<int>)
    ensures Unread(a + b, cursor) == if HitsKnown(a, cursor) then Unread(a, cursor) else a + Unread(b, cursor)
    ensures !HitsKnown(a, cursor) ==> Unread(a, cursor) == a
  {
    if a == [] {
      assert a + b == b;
    } else {
      assert (a + b)[0] == a[0] && (a + b)[1..] == a[1..] + b && a == [a[0]] + a[1..];
      UnreadConcat(a[1..], b, cursor);
      HitsConcat([a[0]], a[1..], cursor);
      assert a[0] in [a[0]];
    }
  }

  // ---- one pass over the stream ----

  /** No page read so far ends the stream or reaches known messages. */
  predicate Open(pages: seq<Page>, cursor: Option<int>) {
    forall i | 0 <= i < |pages| :: pages[i].hasMore && !HitsKnown(pages[i].messages, cursor)
  }

  /** What the loop over pages takes from them. */
  function Taken(pages: seq<Page>, cursor: Option<int>): seq<Message> {
    if pages == [] then []
    else
      var front := pages[..|pages| - 1];
      Taken(front, cursor) + if Open(front, cursor) then Unread(pages[|pages| - 1].messages, cursor) else []
  }

  predicate NoneIsLast(pages: seq<Page>) { forall i | 0 <= i < |pages| :: pages[i].hasMore }

  /** The pages up to the first that says there are no more. */
  function UpToEnd(pages: seq<Page>): seq<Page> {
    if pages == [] then []
    else
      var front := pages[..|pages| - 1];
      if NoneIsLast(front) then pages else UpToEnd(front)
  }

  /** The pages before the first that says there are no more, and that one. */
  lemma {:induction false} UpToEndMeaning(pages: seq<Page>)
    ensures UpToEnd(pages) <= pages
    ensures forall i | 0 <= i < |UpToEnd(pages)| - 1 :: pages[i].hasMore
    ensures |UpToEnd(pages)| < |pages| ==> |UpToEnd(pages)| > 0 && !pages[|UpToEnd(pages)| - 1].hasMore
  {
    if pages != [] {
      var front := pages[..|pages| - 1];
      UpToEndMeaning(front);
      if NoneIsLast(front) {
        assert forall i | 0 <= i < |front| :: front[i] == pages[i];
      } else if |UpToEnd(front)| == |front| {
        var i :| 0 <= i < |front| && !front[i].hasMore;
        assert i == |front| - 1;
      }
    }
  }

  function Stream(pages: seq<Page>): seq<Message> {
    if pages == [] then [] else Stream(pages[..|pages| - 1]) + pages[|pages| - 1].messages
  }

  /** The specification: the stream up to its end, until the first known message, without repetition. */
  function Collected(pages: seq<Page>, cursor: Option<int>): seq<Message> {
    Firsts(Unread(Stream(UpToEnd(pages)), cursor), IdOf)
  }

  lemma {:induction false} StreamHitsKnown(pages: seq<Page>, cursor: Option<int>)
    ensures HitsKnown(Stream(pages), cursor) <==> exists i :: 0 <= i < |pages| && HitsKnown(pages[i].messages, cursor)
  {
    if pages != [] {
      var front, last := pages[..|pages| - 1], pages[|pages| - 1];
      StreamHitsKnown(front, cursor);
      assert HitsKnown(Stream(pages), cursor) <==> HitsKnown(Stream(front), cursor) || HitsKnown(last.messages, cursor) by {
        HitsConcat(Stream(front), last.messages, cursor);
      }
      if i :| 0 <= i < |front| && HitsKnown(front[i].messages, cursor) { assert HitsKnown(pages[i].messages, cursor); }
      if i :| 0 <= i < |pages| && HitsKnown(pages[i].messages, cursor) {
        if i < |front| { assert HitsKnown(front[i].messages, cursor); }
      }
    }
  }

  lemma HitsConcat(a: seq<Message>, b: seq<Message>, cursor: Option<int>)
    ensures HitsKnown(a + b, cursor) <==> HitsKnown(a, cursor) || HitsKnown(b, cursor)
  {
    if m :| m in a && Known(m, cursor) { assert m in a + b; }
    if m :| m in b && Known(m, cursor) { assert m in a + b; }
  }

  lemma OnePassMore(front: seq<Page>, last: Page, cursor: Option<int>)
    requires NoneIsLast(front)
    ensures Unread(Stream(front) + last.messages, cursor)
            == if Open(front, cursor) then Stream(front) + Unread(last.messages, cursor) else Unread(Stream(front), cursor)
    ensures Open(front, cursor) ==> Unread(Stream(front), cursor) == Stream(front)
  {
    StreamHitsKnown(front, cursor);
    UnreadConcat(Stream(front), last.messages, cursor);
  }

  /** Page by page or in one piece: the same messages. */
  lemma {:induction false} TakenIsOnePass(pages: seq<Page>, cursor: Option<int>)
    ensures Taken(pages, cursor) == Unread(Stream(UpToEnd(pages)), cursor)
  {
    if pages != [] {
      var front, last := pages[..|pages| - 1], pages[|pages| - 1];
      TakenIsOnePass(front, cursor);
      assert pages == front + [last];
      if NoneIsLast(front) {
        AllMore(front);
        OnePassMore(front, last, cursor);
      } else {
        ClosedTakesNoMore(front, cursor);
      }
    }
  }

  lemma ClosedTakesNoMore(front: seq<Page>, cursor: Option<int>)
    requires !NoneIsLast(front)
    ensures !Open(front, cursor)
  {
  }

  lemma AllMore(pages: seq<Page>)
    requires NoneIsLast(pages)
    ensures UpToEnd(pages) == pages
  {
  }

  /** However the same stream is cut into pages, the result is the same. */
  lemma CutsDoNotMatter(pages: seq<Page>, others: seq<Page>, cursor: Option<int>)
    requires Stream(UpToEnd(pages)) == Stream(UpToEnd(others))
    ensures Firsts(Taken(pages, cursor), IdOf) == Firsts(Taken(others, cursor), IdOf)
  {
    TakenIsOnePass(pages, cursor);
    TakenIsOnePass(others, cursor);
  }

  /** A page that stops the loop hides everything behind it. */
  lemma {:induction false} TakenStops(pages: seq<Page>, more: seq<Page>, cursor: Option<int>)
    requires !Open(pages, cursor)
    ensures Taken(pages + more, cursor) == Taken(pages, cursor)
    decreases |more|
  {
    if more == [] {
      assert pages + more == pages;
    } else {
      var front := pages + more[..|more| - 1];
      TakenStops(pages, more[..|more| - 1], cursor);
      assert pages + more == front + [more[|more| - 1]];
      assert (pages + more)[..|pages + more| - 1] == front;
      var i :| 0 <= i < |pages| && !(pages[i].hasMore && !HitsKnown(pages[i].messages, cursor));
      assert front[i] == pages[i];
    }
  }

  // ---- newest first ----

  predicate NewestFirst(s: seq<Message>) { forall i, j :: 0 <= i < j < |s| ==> s[i].time >= s[j].time }

  /** On a newest-first stream the messages in front of the first known one are exactly the unseen ones. */
  lemma {:induction false} UnreadIsUnseen(s: seq<Message>, cursor: Option<int>)
    requires NewestFirst(s)
    ensures Unread(s, cursor) == Filter(s, m => !Known(m, cursor))
  {
    if s != [] {
      assert forall i, j :: 0 <= i < j < |s[1..]| ==> s[1..][i] == s[i + 1] && s[1..][j] == s[j + 1];
      if Known(s[0], cursor) {
        forall m | m in s ensures Known(m, cursor) {}
        NothingKept(s, cursor);
      } else {
        UnreadIsUnseen(s[1..], cursor);
      }
    }
  }

  /** In terms of times: what is newer than the newest event of the last collection, or everything without one. */
  lemma UnreadAreNewer(s: seq<Message>, newest: int)
    requires NewestFirst(s)
    ensures Unread(s, Some(newest)) == Filter(s, (m: Message) => m.time > newest) && Unread(s, None) == s
  {
    UnreadIsUnseen(s, Some(newest));
    UnreadIsUnseen(s, None);
    SameFilter(s, m => !Known(m, Some(newest)), (m: Message) => m.time > newest);
    KeepsAll(s, m => !Known(m, None));
  }

  lemma {:induction false} NothingKept(s: seq<Message>, cursor: Option<int>)
    requires forall m <- s :: Known(m, cursor)
    ensures Filter(s, m => !Known(m, cursor)) == []
  {
    if s != [] {
      assert s[0] in s;
      NothingKept(s[1..], cursor);
    }
  }

  /** Once a known message was reached, nothing unseen is missing, however long the stream goes on. */
  lemma ReachedMeansComplete(s: seq<Message>, rest: seq<Message>, cursor: Option<int>)
    requires NewestFirst(s + rest) && HitsKnown(s, cursor)
    ensures Unread(s, cursor) == Filter(s + rest, m => !Known(m, cursor))
  {
    UnreadConcat(s, rest, cursor);
    UnreadIsUnseen(s + rest, cursor);
  }

  // ---- the loop ----

  datatype Screen = Screen(scrollTop: int, scrollHeight: int, textLength: int)

  /** What one scroll brings: pages that arrive, what the screen shows, a risk-control wall, the end of the budget before it. */
  datatype Round = Round(arrived: seq<Page>, screen: Screen, wall: bool, late: bool)

  datatype Stop = ReachedKnown | Exhausted | RoundCap | Budget | Wall | Stalled

  /** The pages that the first `n` rounds bring. */
  function ArrivedBy(world: nat -> Round, n: nat): seq<Page> {
    if n == 0 then [] else ArrivedBy(world, n - 1) + world(n - 1).arrived
  }

  /** Round `j` brought no page and left the screen as the round before it had shown it. */
  predicate Still(world: nat -> Round, j: int) {
    j > 0 && world(j).arrived == [] && world(j).screen == world(j - 1).screen
  }

  /** The last three of the first `n` rounds were still. */
  predicate StalledAfter(world: nat -> Round, n: nat) {
    n >= 3 && Still(world, n - 3) && Still(world, n - 2) && Still(world, n - 1)
  }

  /** Exactly the last `stalled` of the first `n` rounds were still. */
  predicate StillFor(world: nat -> Round, n: nat, stalled: nat) {
    && stalled <= n && (forall j | n - stalled <= j < n :: Still(world, j))
    && (n > 0 ==> stalled < n && !Still(world, n - stalled - 1))
  }

  /** No round before the first `n` were done began late or after a stall, and none of them met a wall. */
  predicate WentOn(world: nat -> Round, n: nat) {
    n == 0 || (WentOn(world, n - 1) && !world(n - 1).late && !StalledAfter(world, n - 1))
  }

  predicate NoWall(world: nat -> Round, n: nat) { n == 0 || (NoWall(world, n - 1) && !world(n - 1).wall) }

  lemma {:induction false} WentOnMeaning(world: nat -> Round, n: nat, k: nat)
    requires k < n
    ensures WentOn(world, n) ==> !world(k).late && !StalledAfter(world, k)
    ensures NoWall(world, n) ==> !world(k).wall
  {
    if k < n - 1 { WentOnMeaning(world, n - 1, k); }
  }

  lemma OneRoundMore(start: seq<Page>, world: nat -> Round, n: nat)
    ensures start + ArrivedBy(world, n + 1) == (start + ArrivedBy(world, n)) + world(n).arrived
  {
  }

  /**
   Why the loop stopped after `n` rounds: the limit is reached, the budget is used up before the next round, the
   last round met the first wall, or the last three rounds were the first to stand still.
   */
  ghost predicate Justified(stop: Stop, maxRounds: nat, world: nat -> Round, n: nat) {
    && (stop.RoundCap? ==> n == maxRounds)
    && (stop.Budget? ==> n < maxRounds && world(n).late)
    && (stop.Wall? ==> n > 0 && world(n - 1).wall && NoWall(world, n - 1))
    && (!stop.Wall? ==> NoWall(world, n) && (stop.Stalled? <==> StalledAfter(world, n)))
  }

  /** What the loop compares: how many pages have arrived, and the screen. */
  function Progress(start: seq<Page>, world: nat -> Round, n: nat): Option<(nat, Screen)> {
    if n == 0 then None else Some((|start + ArrivedBy(world, n)|, world(n - 1).screen))
  }

  lemma SameProgress(start: seq<Page>, world: nat -> Round, n: nat)
    ensures Progress(start, world, n + 1) == Progress(start, world, n) <==> Still(world, n)
  {
  }

  lemma StillOneMore(world: nat -> Round, n: nat, stalled: nat)
    requires StillFor(world, n, stalled)
    ensures StillFor(world, n + 1, if Still(world, n) then stalled + 1 else 0)
  {
  }

  lemma StalledIsThree(world: nat -> Round, n: nat, stalled: nat)
    requires StillFor(world, n, stalled)
    ensures StalledAfter(world, n) <==> stalled >= STALL_ROUNDS
  {
  }

  class Drain {
    const cursor: Option<int>
    /** The pages that have arrived. */
    var buffer: seq<Page>
    var consumed: nat
    var collected: seq<Message>
    var seen: set<string>

    /** What was collected is what the consumed pages hold. */
    ghost predicate Valid() reads this {
      consumed <= |buffer| && Collects(collected, seen, Taken(buffer[..consumed], cursor), IdOf)
    }

    constructor (cursor: Option<int>, buffer: seq<Page>)
      ensures Valid() && this.cursor == cursor && this.buffer == buffer && consumed == 0 && collected == []
    {
      this.cursor, this.buffer, consumed, collected, seen := cursor, buffer, 0, [], {};
    }

    method TakeUntilKnown(messages: seq<Message>) returns (news: seq<Message>, hit: bool)
      ensures news == Unread(messages, cursor) && hit == HitsKnown(messages, cursor)
    {
      news := [];
      assert messages[0..] == messages;
      for i := 0 to |messages|
        invariant news == messages[..i] && !HitsKnown(news, cursor)
      {
        assert messages == messages[..i] + messages[i..];
        UnreadConcat(messages[..i], messages[i..], cursor);
        if Known(messages[i], cursor) {
          assert messages[i] in messages;
          return news, true;
        }
        assert messages[..i + 1] == messages[..i] + [messages[i]];
        HitsConcat(messages[..i], [messages[i]], cursor);
        news := news + [messages[i]];
      }
      hit := false;
      assert messages[..|messages|] == messages;
      UnreadConcat(messages, [], cursor);
    }

    /** Keeps the messages whose number has not been seen. */
    method Keep(news: seq<Message>, ghost before: seq<Message>)
      requires Collects(collected, seen, before, IdOf)
      modifies `collected, `seen
      ensures Collects(collected, seen, before + news, IdOf)
    {
      assert before + news[..0] == before;
      for i := 0 to |news|
        invariant Collects(collected, seen, before + news[..i], IdOf)
      {
        assert before + news[..i + 1] == (before + news[..i]) + [news[i]];
        CollectsOneMore(collected, seen, before + news[..i], IdOf, news[i]);
        if news[i].id == "" || news[i].id in seen { continue; }
        collected, seen := collected + [news[i]], seen + {news[i].id};
      }
      assert news[..|news|] == news;
    }

    method ConsumePage() returns (hit: bool)
      requires Valid() && Open(buffer[..consumed], cursor) && consumed < |buffer|
      modifies `consumed, `collected, `seen
      ensures Valid() && consumed == old(consumed) + 1
      ensures hit == HitsKnown(buffer[consumed - 1].messages, cursor) && Open(buffer[..consumed - 1], cursor)
      ensures Open(buffer[..consumed], cursor) <==> buffer[consumed - 1].hasMore && !hit
    {
      var page := buffer[consumed];
      OpenOneMore(buffer, consumed, cursor);
      TakenOneMore(buffer, consumed, cursor);
      var news;
      news, hit := TakeUntilKnown(page.messages);
      Keep(news, Taken(buffer[..consumed], cursor));
      consumed := consumed + 1;
    }

    /** Reads the arrived pages that have not been read, up to one that ends the reading. */
    method Consume() returns (reached: bool, exhausted: bool)
      requires Valid() && Open(buffer[..consumed], cursor)
      modifies `consumed, `collected, `seen
      ensures Valid() && consumed >= old(consumed)
      ensures reached || exhausted <==> !Open(buffer[..consumed], cursor)
      ensures reached ==> consumed > 0 && HitsKnown(buffer[consumed - 1].messages, cursor)
      ensures exhausted ==> consumed > 0 && !buffer[consumed - 1].hasMore
      ensures reached || exhausted ==> consumed > old(consumed) && Open(buffer[..consumed - 1], cursor)
      ensures !reached && !exhausted ==> consumed == |buffer|
    {
      while consumed < |buffer|
        invariant Valid() && consumed >= old(consumed) && Open(buffer[..consumed], cursor)
        decreases |buffer| - consumed
      {
        var hit := ConsumePage();
        if hit { return true, false; }
        if !buffer[consumed - 1].hasMore { return false, true; }
      }
      reached, exhausted := false, false;
    }

    /** Reads what has arrived: the result is the specification's for all of it. */
    method Settle() returns (reached: bool, exhausted: bool)
      requires Valid() && Open(buffer[..consumed], cursor)
      modifies `consumed, `collected, `seen
      ensures Valid() && (reached || exhausted <==> !Open(buffer, cursor)) && (reached || exhausted || Open(buffer[..consumed], cursor))
      ensures reached ==> consumed > 0 && HitsKnown(buffer[consumed - 1].messages, cursor)
      ensures exhausted ==> consumed > 0 && !buffer[consumed - 1].hasMore
      ensures reached || exhausted ==> consumed > old(consumed) && Open(buffer[..consumed - 1], cursor)
      ensures !reached && !exhausted ==> consumed == |buffer|
      ensures collected == Collected(buffer[..consumed], cursor) && collected == Collected(buffer, cursor)
    {
      reached, exhausted := Consume();
      Settled();
      if reached || exhausted { ClosedStays(buffer, consumed, cursor); } else { assert buffer[..consumed] == buffer; }
    }

    /** More pages arrive. */
    method Arrive(pages: seq<Page>)
      requires Valid() && Open(buffer[..consumed], cursor)
      modifies `buffer
      ensures Valid() && Open(buffer[..consumed], cursor) && buffer == old(buffer) + pages
    {
      ghost var known := buffer;
      buffer := buffer + pages;
      assert buffer[..consumed] == known[..consumed];
    }

    /** What a stop says about the pages: which of the two ends of the stream was read, or that neither was. */
    ghost predicate ReadTo(stop: Stop) reads this {
      && consumed <= |buffer| && collected == Collected(buffer[..consumed], cursor)
      && (!stop.Wall? ==> collected == Collected(buffer, cursor))
      && (stop.ReachedKnown? ==> consumed > 0 && HitsKnown(buffer[consumed - 1].messages, cursor))
      && (stop.Exhausted? ==> consumed > 0 && !buffer[consumed - 1].hasMore)
      && (stop.ReachedKnown? || stop.Exhausted? ==> consumed > 0 && Open(buffer[..consumed - 1], cursor))
      && (stop.RoundCap? || stop.Budget? || stop.Stalled? ==> Open(buffer, cursor))
    }

    /** Reads what has arrived and says whether that or a limit ends the loop. */
    method ReadOn(maxRounds: nat, world: nat -> Round, rounds: nat) returns (stop: Option<Stop>)
      requires Valid() && Open(buffer[..consumed], cursor) && rounds <= maxRounds
      requires NoWall(world, rounds) && !StalledAfter(world, rounds)
      modifies `consumed, `collected, `seen
      ensures Valid() && collected == Collected(buffer, cursor)
      ensures stop.Some? ==> ReadTo(stop.value) && Justified(stop.value, maxRounds, world, rounds)
      ensures stop.Some? && (stop.value.ReachedKnown? || stop.value.Exhausted?) ==> consumed > old(consumed)
      ensures stop.None? ==> rounds < maxRounds && !world(rounds).late && consumed == |buffer| && Open(buffer[..consumed], cursor)
    {
      var reached, exhausted := Settle();
      if reached { return Some(ReachedKnown); }
      if exhausted { return Some(Exhausted); }
      if rounds >= maxRounds { return Some(RoundCap); }
      if world(rounds).late { return Some(Budget); }
      stop := None;
    }

    /** Before the pages of the last round are read, all earlier ones have been. */
    static function ReadBefore(start: seq<Page>, world: nat -> Round, n: nat): nat {
      if n == 0 then 0 else |start| + |ArrivedBy(world, n - 1)|
    }

    /** Between two rounds: everything is read in order, nothing stopped the loop, and the counters say so. */
    ghost predicate BetweenRounds(start: seq<Page>, maxRounds: nat, world: nat -> Round, n: nat,
                                  previous: Option<(nat, Screen)>, stalled: nat)
      reads this
    {
      && Valid() && Open(buffer[..consumed], cursor) && n <= maxRounds
      && buffer == start + ArrivedBy(world, n) && consumed == ReadBefore(start, world, n) && previous == Progress(start, world, n)
      && StillFor(world, n, stalled) && !StalledAfter(world, n)
      && WentOn(world, n) && NoWall(world, n)
    }

    ghost predicate Stopped(start: seq<Page>, maxRounds: nat, world: nat -> Round, n: nat, stop: Stop)
      reads this
    {
      && n <= maxRounds && buffer == start + ArrivedBy(world, n) && WentOn(world, n)
      && ReadTo(stop) && Justified(stop, maxRounds, world, n)
      && (stop.ReachedKnown? || stop.Exhausted? ==> consumed > ReadBefore(start, world, n))
    }

    /** One turn of the loop. */
    method OneRound(ghost start: seq<Page>, maxRounds: nat, world: nat -> Round, n: nat, previous: Option<(nat, Screen)>, stalled: nat)
      returns (end: Option<Stop>, rounds: nat, key: Option<(nat, Screen)>, more: nat)
      requires BetweenRounds(start, maxRounds, world, n, previous, stalled)
      modifies this
      ensures end.None? ==> n < maxRounds && rounds == n + 1 && BetweenRounds(start, maxRounds, world, rounds, key, more)
      ensures end.Some? ==> Stopped(start, maxRounds, world, rounds, end.value)
    {
      end := ReadOn(maxRounds, world, n);
      if end.Some? { return end, n, None, 0; }
      rounds := n + 1;
      end, key, more := ScrollOnce(start, world, n, previous, stalled);
    }

    /**
     The whole loop. Unless a wall cut it short, the result is the specification's for all pages that have
     arrived; after a wall it is the specification's for the pages consumed so far. It scrolls on as long as no
     page ends the reading, nothing runs out, no wall appears and the page still moves.
     */
    method DrainChannel(maxRounds: nat, world: nat -> Round) returns (rounds: nat, stop: Stop)
      requires Valid() && consumed == 0
      modifies this
      ensures Stopped(old(buffer), maxRounds, world, rounds, stop)
    {
      ghost var start := buffer;
      rounds := 0;
      var stalled: nat := 0;
      var previous: Option<(nat, Screen)> := None;
      assert buffer[..0] == [] && buffer + [] == buffer;
      while true
        invariant BetweenRounds(start, maxRounds, world, rounds, previous, stalled)
        decreases maxRounds - rounds
      {
        var end;
        end, rounds, previous, stalled := OneRound(start, maxRounds, world, rounds, previous, stalled);
        if end.Some? { return rounds, end.value; }
      }
    }

    /** One scroll: pages arrive, and a wall or a page that stands still ends the loop. */
    method ScrollOnce(ghost start: seq<Page>, world: nat -> Round, n: nat, previous: Option<(nat, Screen)>, stalled: nat)
      returns (end: Option<Stop>, key: Option<(nat, Screen)>, more: nat)
      requires Valid() && Open(buffer[..consumed], cursor) && collected == Collected(buffer, cursor) && consumed == |buffer|
      requires buffer == start + ArrivedBy(world, n) && previous == Progress(start, world, n) && StillFor(world, n, stalled)
      modifies `buffer
      ensures Valid() && Open(buffer[..consumed], cursor) && buffer == start + ArrivedBy(world, n + 1)
      ensures end == if world(n).wall then Some(Wall) else if StalledAfter(world, n + 1) then Some(Stalled) else None
      ensures end.Some? ==> ReadTo(end.value)
      ensures end.None? ==> key == Progress(start, world, n + 1) && StillFor(world, n + 1, more)
    {
      key, more := None, 0;
      Arrive(world(n).arrived);
      OneRoundMore(start, world, n);
      ConsumedIsRead();
      if world(n).wall { return Some(Wall), None, 0; }
      key, more := Observe(start, world, n, previous, stalled);
      end := None;
      if more >= STALL_ROUNDS {
        assert buffer == start + ArrivedBy(world, n) && buffer[..consumed] == buffer;
        end := Some(Stalled);
      }
    }

    lemma ConsumedIsRead()
      requires Valid()
      ensures collected == Collected(buffer[..consumed], cursor)
    {
      TakenIsOnePass(buffer[..consumed], cursor);
    }

    /** Compares the progress of a round with that of the round before it. */
    method Observe(ghost start: seq<Page>, world: nat -> Round, n: nat, previous: Option<(nat, Screen)>, stalled: nat)
      returns (key: Option<(nat, Screen)>, more: nat)
      requires buffer == start + ArrivedBy(world, n + 1) && previous == Progress(start, world, n) && StillFor(world, n, stalled)
      ensures key == Progress(start, world, n + 1) && StillFor(world, n + 1, more)
      ensures more >= STALL_ROUNDS <==> StalledAfter(world, n + 1)
    {
      SameProgress(start, world, n);
      StillOneMore(world, n, stalled);
      key := Some((|buffer|, world(n).screen));
      more := if previous == key then stalled + 1 else 0;
      StalledIsThree(world, n + 1, more);
    }

    /** What is known once everything that arrived is consumed, or a page has ended the reading. */
    lemma Settled()
      requires Valid() && (consumed == |buffer| || !Open(buffer[..consumed], cursor))
      ensures collected == Collected(buffer[..consumed], cursor) && collected == Collected(buffer, cursor)
    {
      var front := buffer[..consumed];
      assert buffer == front + buffer[consumed..];
      if !Open(front, cursor) { TakenStops(front, buffer[consumed..], cursor); } else { assert front == buffer; }
      TakenIsOnePass(front, cursor);
      TakenIsOnePass(buffer, cursor);
    }
  }

  lemma ClosedStays(pages: seq<Page>, n: nat, cursor: Option<int>)
    requires n <= |pages| && !Open(pages[..n], cursor)
    ensures !Open(pages, cursor)
  {
    var i :| 0 <= i < n && !(pages[..n][i].hasMore && !HitsKnown(pages[..n][i].messages, cursor));
    assert pages[i] == pages[..n][i];
  }

  lemma OpenOneMore(pages: seq<Page>, n: nat, cursor: Option<int>)
    requires n < |pages| && Open(pages[..n], cursor)
    ensures Open(pages[..n + 1], cursor) <==> pages[n].hasMore && !HitsKnown(pages[n].messages, cursor)
  {
    assert forall i | 0 <= i < n :: pages[..n + 1][i] == pages[..n][i];
    assert pages[..n + 1][n] == pages[n];
  }

  lemma TakenOneMore(pages: seq<Page>, n: nat, cursor: Option<int>)
    requires n < |pages| && Open(pages[..n], cursor)
    ensures Taken(pages[..n + 1], cursor) == Taken(pages[..n], cursor) + Unread(pages[n].messages, cursor)
  {
    assert pages[..n + 1][..n] == pages[..n];
  }
}
