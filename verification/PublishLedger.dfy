/**
 The `publish_jobs` and `browser_jobs` tables, the guarded statements that account workers and the
 supervisor issue against them, and the pure verdict and gate rules. Times are microseconds.
 */
module PublishLedger {
  import opened Collections

  const SECOND := 1_000_000
  const DAY := 86_400 * SECOND
  /** The trailing window in which sessions of one account are counted: one hour. */
  const WINDOW := 3_600 * SECOND

  /** A running browser job whose heart has been still for longer is taken for dead. */
  const STALE_AFTER := 900 * SECOND

  datatype PublishStatus = Pending | Publishing | Published | Failed | Canceled

  datatype PublishRow = PublishRow(
    account: int, status: PublishStatus, startedAt: Option<int>, retries: nat, nextRetryAt: Option<int>)

  type PublishTable = map<int, PublishRow>

  datatype BrowserStatus = Queued | Running | Done | Error

  /** `rerunnable` says whether the job's kind is one of the idempotent kinds. */
  datatype BrowserRow = BrowserRow(
    account: int, rerunnable: bool, status: BrowserStatus, updatedAt: int, claimedBy: Option<nat>, heartbeat: Option<int>)

  type BrowserTable = map<string, BrowserRow>

  predicate Has(t: PublishTable, id: int, status: PublishStatus) {
    id in t && t[id].status == status
  }

  // ---- statements on publish_jobs: all but Cancel are UPDATEs guarded by the current status ----

  /** The write of the cancel endpoint, which looks at the status only in an earlier statement. */
  function Cancel(t: PublishTable, id: int): PublishTable {
    if id in t then t[id := t[id].(status := Canceled)] else t
  }

  function Defer(t: PublishTable, id: int, until: int): PublishTable {
    if Has(t, id, Pending) then t[id := t[id].(nextRetryAt := Some(until))] else t
  }

  function Claim(t: PublishTable, id: int, now: int): PublishTable {
    if Has(t, id, Pending) then t[id := t[id].(status := Publishing, startedAt := Some(now))] else t
  }

  function Finish(t: PublishTable, id: int): PublishTable {
    if Has(t, id, Publishing) then t[id := t[id].(status := Published)] else t
  }

  function Retry(t: PublishTable, id: int, at: int): PublishTable {
    if Has(t, id, Publishing)
    then t[id := t[id].(status := Pending, startedAt := None, retries := t[id].retries + 1, nextRetryAt := Some(at))]
    else t
  }

  function Fail(t: PublishTable, id: int): PublishTable {
    if Has(t, id, Publishing) then t[id := t[id].(status := Failed, startedAt := None)] else t
  }

  function Requeue(t: PublishTable, id: int, at: int): PublishTable {
    if Has(t, id, Publishing)
    then t[id := t[id].(status := Pending, startedAt := None, nextRetryAt := Some(at))]
    else t
  }

  predicate InHand(row: PublishRow) { row.status == Publishing || row.status == Published }

  /** A `publishing` row started at or before `cutoff` whose account has no live child. */
  predicate Stale(row: PublishRow, cutoff: int, live: set<int>) {
    row.status == Publishing && row.startedAt.Some? && row.startedAt.value <= cutoff && row.account !in live
  }

  function RecoverStale(t: PublishTable, cutoff: int, live: set<int>): PublishTable {
    map id | id in t :: if Stale(t[id], cutoff, live) then t[id].(status := Pending, startedAt := None) else t[id]
  }

  /** A running browser row without a heartbeat since `cutoff`. */
  predicate HeartStopped(row: BrowserRow, cutoff: int) {
    row.status == Running && (row.heartbeat.Some? ==> row.heartbeat.value < cutoff)
  }

  // ---- verdict and gate ----

  datatype Verdict = ToPublished | ToPending | ToFailed

  /** What `_execute_publish` hands back, or the exception it raises. */
  datatype ExecResult = Returned(success: bool, needManualLogin: bool, accountRestricted: bool) | Raised

  function DecideFinish(success: bool, needManualLogin: bool, accountRestricted: bool,
                        retries: nat, delays: nat): Verdict
  {
    if success then ToPublished
    else if needManualLogin || accountRestricted then ToFailed
    else if retries < delays then ToPending
    else ToFailed
  }

  /** The verdict of the exception branch: an ordinary failure. */
  function FallbackVerdict(retries: nat, delays: nat): Verdict {
    DecideFinish(false, false, false, retries, delays)
  }

  function ApplyVerdict(t: PublishTable, id: int, verdict: Verdict, at: int): PublishTable {
    match verdict
    case ToPublished => Finish(t, id)
    case ToPending => Retry(t, id, at)
    case ToFailed => Fail(t, id)
  }

  function CooldownRemaining(last: Option<int>, now: int, interval: int): int {
    if last.None? then 0 else interval - (now - last.value)
  }

  /** The rows that the cooldown query looks at: started rows of the account other than `self`. */
  predicate Started(t: PublishTable, account: int, id: int) {
    id in t && t[id].account == account && (t[id].status == Published || t[id].status == Publishing)
    && t[id].startedAt.Some?
  }

  function DayStart(now: int): int { now - now % DAY }

  function PublishedSince(t: PublishTable, account: int, from: int): set<int> {
    set id | id in t && t[id].account == account && t[id].status == Published
             && t[id].startedAt.Some? && t[id].startedAt.value >= from
  }

  /**
   The account may publish `self` at `now`: every other started row is at least `interval` old, and the
   UTC day has room under the cap.
   */
  predicate GateOpen(t: PublishTable, account: int, self: int, now: int, interval: int, cap: int) {
    && (forall id | id in t :: id != self && Started(t, account, id) ==> now - t[id].startedAt.value >= interval)
    && |PublishedSince(t, account, DayStart(now))| < cap
  }

  /** Midnight: the last multiple of a day that is not in the future. */
  lemma DayStartIsMidnight(now: int)
    ensures DayStart(now) <= now < DayStart(now) + 86_400_000_000 && DayStart(now) % 86_400_000_000 == 0
  {
  }

  /** The gate in terms of the rows: their age if they are started, and their number if they were published today. */
  lemma GateMeaning(t: PublishTable, account: int, self: int, now: int, interval: int, cap: int, midnight: int)
    requires midnight <= now < midnight + 86_400_000_000 && midnight % 86_400_000_000 == 0
    ensures GateOpen(t, account, self, now, interval, cap)
            <==> && (forall id | id in t && id != self && t[id].account == account && t[id].startedAt.Some?
                                && (t[id].status == Published || t[id].status == Publishing) ::
                       t[id].startedAt.value <= now - interval)
                 && |set id | id in t && t[id].account == account && t[id].status == Published
                              && t[id].startedAt.Some? && midnight <= t[id].startedAt.value| < cap
  {
    assert DayStart(now) == midnight by { OneMidnight(now, midnight); }
    assert PublishedSince(t, account, midnight)
           == set id | id in t && t[id].account == account && t[id].status == Published
                       && t[id].startedAt.Some? && midnight <= t[id].startedAt.value;
  }

  lemma OneMidnight(now: int, midnight: int)
    requires midnight <= now < midnight + 86_400_000_000 && midnight % 86_400_000_000 == 0
    ensures DayStart(now) == midnight
  {
    var days := midnight / 86_400_000_000;
    assert midnight == days * 86_400_000_000;
    assert now / 86_400_000_000 == days;
  }

  /** A row is reset exactly if it is `publishing`, started at or before the cutoff, and nobody works for its account. */
  lemma RecoveryMeaning(t: PublishTable, cutoff: int, live: set<int>, id: int)
    requires id in t
    ensures var row, r := t[id], RecoverStale(t, cutoff, live);
            && r.Keys == t.Keys
            && r[id] == if row.status == Publishing && row.startedAt.Some? && row.startedAt.value <= cutoff && row.account !in live
                        then PublishRow(row.account, Pending, None, row.retries, row.nextRetryAt) else row
  {
  }

  // ---- sessions ----

  predicate CountsAsPublishSession(row: PublishRow, cutoff: int) {
    || (row.status == Published && row.startedAt.Some? && row.startedAt.value >= cutoff)
    || row.status == Publishing
  }

  predicate CountsAsBrowserSession(row: BrowserRow, cutoff: int) {
    || ((row.status == Done || row.status == Error) && row.updatedAt >= cutoff)
    || row.status == Running
  }

  function PublishSessions(t: PublishTable, account: int, cutoff: int): set<int> {
    set id | id in t && t[id].account == account && CountsAsPublishSession(t[id], cutoff)
  }

  function BrowserSessions(t: BrowserTable, account: int, cutoff: int): set<string> {
    set id | id in t && t[id].account == account && CountsAsBrowserSession(t[id], cutoff)
  }

  function RecentSessions(p: PublishTable, b: BrowserTable, account: int, now: int): nat {
    |PublishSessions(p, account, now - WINDOW)| + |BrowserSessions(b, account, now - WINDOW)|
  }

  /** Counted are the rows in flight and those that ended or were published within the last hour. */
  lemma CountedRows(p: PublishTable, b: BrowserTable, account: int, now: int, id: int, key: string)
    ensures id in PublishSessions(p, account, now - WINDOW)
            <==> id in p && p[id].account == account
                 && (p[id].status == Publishing
                     || (p[id].status == Published && p[id].startedAt.Some? && now - p[id].startedAt.value <= 3_600_000_000))
    ensures key in BrowserSessions(b, account, now - WINDOW)
            <==> key in b && b[key].account == account
                 && (b[key].status == Running
                     || ((b[key].status == Done || b[key].status == Error) && now - b[key].updatedAt <= 3_600_000_000))
  {
  }

  // ---- the two-layer hourly cap ----

  /** A queued job as the dispatcher sees it. */
  datatype JobRef = Publish(id: int) | Browser(key: string)
  datatype Item = Item(created: int, job: JobRef, operator: int)

  datatype Caps = Caps(system: int, operator: int) {
    /** `cap_allows`: a layer with a non-positive cap is switched off, otherwise its budget must be positive. */
    predicate Allows(item: Item, used: int) {
      if item.operator > 0 then operator <= 0 || operator - used > 0 else system <= 0 || system - used > 0
    }

    /** The items of a batch that the cap lets through, when `used` sessions are already spent. */
    function Kept(items: seq<Item>, used: int): seq<Item> {
      if items == [] then []
      else if Allows(items[0], used) then [items[0]] + Kept(items[1..], used + 1)
      else Kept(items[1..], used)
    }

    lemma {:induction false} KeptFromBatch(items: seq<Item>, used: int, item: Item)
      requires item in Kept(items, used)
      ensures item in items
    {
      if Allows(items[0], used) {
        if item != items[0] { KeptFromBatch(items[1..], used + 1, item); }
      } else {
        KeptFromBatch(items[1..], used, item);
      }
    }

    /** Whether the next item starts depends on its own layer alone: that cap is off, or not yet used up. */
    lemma {:induction false} KeptOneMore(items: seq<Item>, used: int, item: Item)
      ensures var before := Kept(items, used);
              var starts := if item.operator > 0 then operator <= 0 || used + |before| < operator
                            else system <= 0 || used + |before| < system;
              Kept(items + [item], used) == if starts then before + [item] else before
    {
      if items == [] {
        assert items + [item] == [item] && [item][1..] == [];
      } else {
        assert (items + [item])[1..] == items[1..] + [item];
        if Allows(items[0], used) { KeptOneMore(items[1..], used + 1, item); } else { KeptOneMore(items[1..], used, item); }
      }
    }

    /** Every item that starts does so within the cap of its own layer, if that is on. */
    lemma {:induction false} KeptWithinOwnCap(items: seq<Item>, used: int, k: nat)
      requires k < |Kept(items, used)|
      ensures var item := Kept(items, used)[k];
              && (item.operator > 0 && operator > 0 ==> used + k < operator)
              && (item.operator <= 0 && system > 0 ==> used + k < system)
    {
      if Allows(items[0], used) {
        if k > 0 { KeptWithinOwnCap(items[1..], used + 1, k - 1); }
      } else {
        KeptWithinOwnCap(items[1..], used, k);
      }
    }

    /** With both layers on, whatever a batch starts stays within the wider cap. */
    lemma {:induction false} KeptWithinCap(items: seq<Item>, used: int)
      requires system > 0 && operator > 0 && Kept(items, used) != []
      ensures used + |Kept(items, used)| <= Max(system, operator)
    {
      if Allows(items[0], used) {
        if Kept(items[1..], used + 1) != [] { KeptWithinCap(items[1..], used + 1); }
      } else {
        KeptWithinCap(items[1..], used);
      }
    }
  }
}
