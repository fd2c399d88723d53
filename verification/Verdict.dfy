/** The verdict on an edited note: how confirmed and unconfirmed items become a status and a list of failures. */
module Verdict {
  import opened Collections
  import opened TopicPlan

  /** What a verdict is about: a requested step, a topic, or the topics that were all there already. */
  datatype Item = Step(name: string) | Topic(tag: string) | AllTopicsPresent

  datatype Unit = Unit(item: Item, confirmed: bool)

  datatype Status = Done | PartiallyApplied | Failed

  /** The items that were not confirmed, in order. */
  function Unconfirmed(units: seq<Unit>): seq<Item> {
    if units == [] then []
    else Unconfirmed(units[..|units| - 1]) + if units[|units| - 1].confirmed then [] else [units[|units| - 1].item]
  }

  function CountConfirmed(units: seq<Unit>): nat {
    if units == [] then 0
    else CountConfirmed(units[..|units| - 1]) + if units[|units| - 1].confirmed then 1 else 0
  }

  lemma {:induction false} CountsAddUp(units: seq<Unit>)
    ensures CountConfirmed(units) + |Unconfirmed(units)| == |units|
  {
    if units != [] { CountsAddUp(units[..|units| - 1]); }
  }

  lemma {:induction false} UnconfirmedConcat(a: seq<Unit>, b: seq<Unit>)
    ensures Unconfirmed(a + b) == Unconfirmed(a) + Unconfirmed(b)
    ensures CountConfirmed(a + b) == CountConfirmed(a) + CountConfirmed(b)
  {
    if b == [] {
      assert a + b == a;
    } else {
      UnconfirmedConcat(a, b[..|b| - 1]);
      assert (a + b)[..|a + b| - 1] == a + b[..|b| - 1];
    }
  }

  lemma {:induction false} AllOrNone(units: seq<Unit>)
    ensures Unconfirmed(units) == [] <==> forall i :: 0 <= i < |units| ==> units[i].confirmed
    ensures CountConfirmed(units) == 0 <==> forall i :: 0 <= i < |units| ==> !units[i].confirmed
  {
    if units != [] {
      var front := units[..|units| - 1];
      AllOrNone(front);
      assert forall i :: 0 <= i < |front| ==> front[i] == units[i];
    }
  }

  predicate Lists(units: seq<Unit>, u: Unit) { exists i :: 0 <= i < |units| && units[i] == u }

  lemma ListsOneMore(units: seq<Unit>, last: Unit, u: Unit)
    ensures Lists(units + [last], u) <==> Lists(units, u) || u == last
  {
    var all := units + [last];
    if i :| 0 <= i < |units| && units[i] == u { assert all[i] == u; }
    if u == last { assert all[|units|] == u; }
  }

  /** A failure is listed for an item exactly if the item is not confirmed. */
  lemma {:induction false} FailuresMatchUnits(units: seq<Unit>, item: Item)
    ensures item in Unconfirmed(units) <==> Lists(units, Unit(item, false))
  {
    if units != [] {
      var front, last := units[..|units| - 1], units[|units| - 1];
      FailuresMatchUnits(front, item);
      ListsOneMore(front, last, Unit(item, false));
      assert units == front + [last];
    }
  }

  // ---- the units of one result ----

  /** What the read-back said about a step: confirmed, refuted, or nothing. */
  datatype Applied = Applied(step: string, seen: Option<bool>)

  function AppliedOf(steps: seq<string>, verified: map<string, bool>): seq<Applied> {
    if steps == [] then []
    else
      var k := steps[|steps| - 1];
      AppliedOf(steps[..|steps| - 1], verified) + [Applied(k, if k in verified then Some(verified[k]) else None)]
  }

  /** A step counts as confirmed only if the read-back said so; nothing read is not a confirmation. */
  function StepUnits(applied: seq<Applied>): (u: seq<Unit>)
    ensures |u| == |applied|
  {
    if applied == [] then []
    else
      var last := applied[|applied| - 1];
      StepUnits(applied[..|applied| - 1]) + [Unit(Step(last.step), last.seen == Some(true))]
  }

  function TagUnits(tags: seq<string>, seen: set<string>): seq<Unit> {
    if tags == [] then []
    else TagUnits(tags[..|tags| - 1], seen) + [Unit(Topic(tags[|tags| - 1]), tags[|tags| - 1] in seen)]
  }

  function AsSet(tags: Option<seq<string>>): set<string> {
    if tags.None? then {} else set t | t in tags.value
  }

  /** Each planned topic, confirmed if it was read back; each cut-off topic, never confirmed; or one success. */
  function TopicUnits(plan: Plan, after: Option<seq<string>>): seq<Unit> {
    if plan.toAdd == [] && plan.truncated == [] then [Unit(AllTopicsPresent, true)]
    else TagUnits(plan.toAdd, AsSet(after)) + TagUnits(plan.truncated, {})
  }

  lemma OneMoreApplied(steps: seq<string>, verified: map<string, bool>, i: nat)
    requires i < |steps|
    ensures var k := steps[i];
            AppliedOf(steps[..i + 1], verified)
            == AppliedOf(steps[..i], verified) + [Applied(k, if k in verified then Some(verified[k]) else None)]
  {
    assert steps[..i + 1][..i] == steps[..i];
  }

  lemma OneMoreStep(applied: seq<Applied>, a: Applied)
    ensures var u, v := StepUnits(applied), StepUnits(applied + [a]);
            && Unconfirmed(v) == Unconfirmed(u) + (if a.seen == Some(true) then [] else [Step(a.step)])
            && CountConfirmed(v) == CountConfirmed(u) + if a.seen == Some(true) then 1 else 0
  {
    var u, v := StepUnits(applied), StepUnits(applied + [a]);
    assert (applied + [a])[..|applied|] == applied;
    assert v[..|applied|] == u;
  }

  lemma OneMoreTag(tags: seq<string>, seen: set<string>, t: string)
    ensures var u, v := TagUnits(tags, seen), TagUnits(tags + [t], seen);
            && Unconfirmed(v) == Unconfirmed(u) + (if t in seen then [] else [Topic(t)])
            && CountConfirmed(v) == CountConfirmed(u) + if t in seen then 1 else 0
  {
    var u, v := TagUnits(tags, seen), TagUnits(tags + [t], seen);
    assert (tags + [t])[..|tags|] == tags;
    assert v == u + [Unit(Topic(t), t in seen)] && v[..|u|] == u;
  }

  // ---- what the units say, in terms of the read-back ----

  /** The read-back named the step and saw it. */
  predicate Seen(verified: map<string, bool>, k: string) { k in verified && verified[k] }

  predicate ReadBack(after: Option<seq<string>>, t: string) { after.Some? && t in after.value }

  /** One entry a step, in order; a step that the read-back does not name is recorded as unread. */
  lemma {:induction false} AppliedMeaning(steps: seq<string>, verified: map<string, bool>)
    ensures var applied := AppliedOf(steps, verified);
            && |applied| == |steps|
            && (forall i | 0 <= i < |steps| :: applied[i].step == steps[i] && (applied[i].seen.None? <==> steps[i] !in verified))
            && (forall i | 0 <= i < |steps| && steps[i] in verified :: applied[i].seen == Some(verified[steps[i]]))
  {
    if steps != [] {
      var front := steps[..|steps| - 1];
      AppliedMeaning(front, verified);
      assert forall i | 0 <= i < |front| :: front[i] == steps[i];
    }
  }

  lemma {:induction false} StepUnitsMeaning(applied: seq<Applied>)
    ensures var u := StepUnits(applied);
            forall i | 0 <= i < |u| :: u[i].item == Step(applied[i].step) && (u[i].confirmed <==> applied[i].seen == Some(true))
  {
    if applied != [] {
      var front := applied[..|applied| - 1];
      StepUnitsMeaning(front);
      assert forall i | 0 <= i < |front| :: front[i] == applied[i];
    }
  }

  lemma {:induction false} TagUnitsMeaning(tags: seq<string>, seen: set<string>)
    ensures var u := TagUnits(tags, seen);
            |u| == |tags| && forall i | 0 <= i < |u| :: u[i].item == Topic(tags[i]) && (u[i].confirmed <==> tags[i] in seen)
  {
    if tags != [] {
      var front := tags[..|tags| - 1];
      TagUnitsMeaning(front, seen);
      assert forall i | 0 <= i < |front| :: front[i] == tags[i];
    }
  }

  lemma InOrder(a: seq<Unit>, b: seq<Unit>)
    ensures forall i | 0 <= i < |a| :: (a + b)[i] == a[i]
    ensures forall i | 0 <= i < |b| :: (a + b)[|a| + i] == b[i]
  {
  }

  lemma UnitAt(units: seq<Unit>, i: nat)
    requires i < |units|
    ensures Lists(units, units[i])
  {
  }

  lemma ListsConcat(a: seq<Unit>, b: seq<Unit>, u: Unit)
    ensures Lists(a + b, u) <==> Lists(a, u) || Lists(b, u)
  {
    InOrder(a, b);
    if i :| 0 <= i < |a| && a[i] == u { UnitAt(a + b, i); }
    if i :| 0 <= i < |b| && b[i] == u { UnitAt(a + b, |a| + i); }
  }

  lemma StepListed(steps: seq<string>, verified: map<string, bool>, u: Unit)
    ensures Lists(StepUnits(AppliedOf(steps, verified)), u)
            <==> u.item.Step? && u.item.name in steps && u.confirmed == Seen(verified, u.item.name)
  {
    var applied := AppliedOf(steps, verified);
    AppliedMeaning(steps, verified);
    StepUnitsMeaning(applied);
    if u.item.Step? && u.item.name in steps && u.confirmed == Seen(verified, u.item.name) {
      var i :| 0 <= i < |steps| && steps[i] == u.item.name;
      assert applied[i].step == steps[i];
      assert StepUnits(applied)[i] == u;
    }
  }

  lemma TagListed(tags: seq<string>, seen: set<string>, u: Unit)
    ensures Lists(TagUnits(tags, seen), u) <==> u.item.Topic? && u.item.tag in tags && u.confirmed == (u.item.tag in seen)
  {
    TagUnitsMeaning(tags, seen);
    if u.item.Topic? && u.item.tag in tags && u.confirmed == (u.item.tag in seen) {
      var i :| 0 <= i < |tags| && tags[i] == u.item.tag;
      assert TagUnits(tags, seen)[i] == u;
    }
  }

  lemma TopicListed(plan: Plan, after: Option<seq<string>>, u: Unit)
    ensures Lists(TopicUnits(plan, after), u)
            <==> || (u == Unit(AllTopicsPresent, true) && plan.toAdd == [] && plan.truncated == [])
                 || (u.item.Topic? && u.item.tag in plan.toAdd && u.confirmed == ReadBack(after, u.item.tag))
                 || (u.item.Topic? && u.item.tag in plan.truncated && !u.confirmed)
  {
    var present := [Unit(AllTopicsPresent, true)];
    var add, cut := TagUnits(plan.toAdd, AsSet(after)), TagUnits(plan.truncated, {});
    TagListed(plan.toAdd, AsSet(after), u);
    TagListed(plan.truncated, {}, u);
    ListsConcat(add, cut, u);
    if u == present[0] { UnitAt(present, 0); }
  }

  /**
   What fails is exactly: a step that the read-back does not name or did not see, a planned topic that was not
   read back, and every topic that was cut off.
   */
  lemma FailureMeaning(steps: seq<string>, verified: map<string, bool>, plan: Plan, after: Option<seq<string>>, item: Item)
    ensures item in Unconfirmed(StepUnits(AppliedOf(steps, verified)) + TopicUnits(plan, after))
            <==> || (item.Step? && item.name in steps && !(item.name in verified && verified[item.name]))
                 || (item.Topic? && item.tag in plan.truncated)
                 || (item.Topic? && item.tag in plan.toAdd && !(after.Some? && item.tag in after.value))
  {
    var a, b, u := StepUnits(AppliedOf(steps, verified)), TopicUnits(plan, after), Unit(item, false);
    FailuresMatchUnits(a + b, item);
    ListsConcat(a, b, u);
    StepListed(steps, verified, u);
    TopicListed(plan, after, u);
  }

  /** What succeeds is exactly: a step that was seen, a planned topic that was read back, and having no topic to add. */
  lemma SuccessMeaning(steps: seq<string>, verified: map<string, bool>, plan: Plan, after: Option<seq<string>>)
    ensures var all := StepUnits(AppliedOf(steps, verified)) + TopicUnits(plan, after);
            (exists i | 0 <= i < |all| :: all[i].confirmed)
            <==> || (exists k <- steps :: Seen(verified, k))
                 || (exists t <- plan.toAdd :: ReadBack(after, t))
                 || (plan.toAdd == [] && plan.truncated == [])
  {
    var a, b := StepUnits(AppliedOf(steps, verified)), TopicUnits(plan, after);
    var all := a + b;
    forall u ensures Lists(all, u) <==> Lists(a, u) || Lists(b, u) { ListsConcat(a, b, u); }
    if i :| 0 <= i < |all| && all[i].confirmed {
      UnitAt(all, i);
      StepListed(steps, verified, all[i]);
      TopicListed(plan, after, all[i]);
    }
    if k :| k in steps && Seen(verified, k) { StepListed(steps, verified, Unit(Step(k), true)); }
    if t :| t in plan.toAdd && ReadBack(after, t) { TopicListed(plan, after, Unit(Topic(t), true)); }
    if plan.toAdd == [] && plan.truncated == [] { TopicListed(plan, after, Unit(AllTopicsPresent, true)); }
  }

  class Report {
    var applied: seq<Applied>
    var failed: seq<Item>
    var status: Status
    var error: bool

    /** The verdict and its parts tell the same story about `units`. */
    ghost predicate Agrees(units: seq<Unit>)
      reads this
    {
      && failed == Unconfirmed(units)
      && (status == Done <==> units != [] && forall i :: 0 <= i < |units| ==> units[i].confirmed)
      && (status == Failed <==> forall i :: 0 <= i < |units| ==> !units[i].confirmed)
      && (units != [] ==> (status == Done <==> failed == []))
      && (error <==> status == Failed)
    }

    constructor ()
      ensures applied == [] && failed == [] && status == Failed && error
    {
      applied, failed, status, error := [], [], Failed, true;
    }

    /** The status, from the number of confirmed units. */
    method Settle(oks: nat, total: nat, ghost units: seq<Unit>)
      requires oks == CountConfirmed(units) && total == |units| && failed == Unconfirmed(units)
      modifies `status, `error
      ensures Agrees(units)
    {
      CountsAddUp(units);
      AllOrNone(units);
      if total > 0 && oks == total {
        status, error := Done, false;
      } else if oks > 0 {
        status, error := PartiallyApplied, false;
      } else {
        status, error := Failed, true;
      }
    }

    /** The steps of one edit, as far as the read-back confirmed them. */
    method Compose(steps: seq<string>, verified: map<string, bool>)
      modifies this
      ensures applied == AppliedOf(steps, verified) && Agrees(StepUnits(applied))
    {
      applied, failed := [], [];
      var oks := 0;
      for i := 0 to |steps|
        invariant applied == AppliedOf(steps[..i], verified) && oks == CountConfirmed(StepUnits(applied))
        invariant failed == Unconfirmed(StepUnits(applied))
      {
        var k := steps[i];
        var a := Applied(k, if k in verified then Some(verified[k]) else None);
        OneMoreApplied(steps, verified, i);
        OneMoreStep(applied, a);
        applied := applied + [a];
        if a.seen == Some(true) { oks := oks + 1; } else { failed := failed + [Step(k)]; }
      }
      assert steps[..|steps|] == steps;
      Settle(oks, |applied|, StepUnits(applied));
    }

    /** Appends a failure for every tag that was not seen; counts those that were. */
    method FailUnseen(tags: seq<string>, seen: set<string>) returns (oks: nat)
      modifies `failed
      ensures failed == old(failed) + Unconfirmed(TagUnits(tags, seen)) && oks == CountConfirmed(TagUnits(tags, seen))
    {
      oks := 0;
      var more: seq<Item> := [];
      for i := 0 to |tags|
        invariant failed == old(failed)
        invariant more == Unconfirmed(TagUnits(tags[..i], seen)) && oks == CountConfirmed(TagUnits(tags[..i], seen))
      {
        assert tags[..i + 1] == tags[..i] + [tags[i]];
        OneMoreTag(tags[..i], seen, tags[i]);
        if tags[i] in seen { oks := oks + 1; } else { more := more + [Topic(tags[i])]; }
      }
      assert tags[..|tags|] == tags;
      failed := failed + more;
    }

    method CountSteps() returns (oks: nat)
      ensures oks == CountConfirmed(StepUnits(applied))
    {
      var list := applied;
      oks := 0;
      for i := 0 to |list|
        invariant oks == CountConfirmed(StepUnits(list[..i]))
      {
        assert list[..i + 1] == list[..i] + [list[i]];
        OneMoreStep(list[..i], list[i]);
        if list[i].seen == Some(true) { oks := oks + 1; }
      }
      assert list[..|list|] == list;
    }

    /** Appends a failure for every topic that was not read back or was cut off. */
    method FailTopics(plan: Plan, after: Option<seq<string>>) returns (oks: nat)
      modifies `failed
      ensures failed == old(failed) + Unconfirmed(TopicUnits(plan, after)) && oks == CountConfirmed(TopicUnits(plan, after))
    {
      TopicTotals(plan, after);
      var added := FailUnseen(plan.toAdd, AsSet(after));
      var none := FailUnseen(plan.truncated, {});
      oks := added + none + if plan.toAdd == [] && plan.truncated == [] then 1 else 0;
    }

    /** Folds the topics into the verdict; what counts is the list read back, not what was clicked. */
    method FinalizeTopics(plan: Plan, after: Option<seq<string>>)
      requires Agrees(StepUnits(applied))
      modifies `failed, `status, `error
      ensures Agrees(StepUnits(applied) + TopicUnits(plan, after))
    {
      ghost var steps, topics := StepUnits(applied), TopicUnits(plan, after);
      assert failed == Unconfirmed(steps);
      UnconfirmedConcat(steps, topics);
      TopicTotals(plan, after);
      var confirmed := CountSteps();
      var readBack := FailTopics(plan, after);
      var present := if plan.toAdd == [] && plan.truncated == [] then 1 else 0;
      Settle(confirmed + readBack, |applied| + |plan.toAdd| + |plan.truncated| + present, steps + topics);
    }
  }

  lemma TopicTotals(plan: Plan, after: Option<seq<string>>)
    ensures var all, add, cut := TopicUnits(plan, after), TagUnits(plan.toAdd, AsSet(after)), TagUnits(plan.truncated, {});
            var present := if plan.toAdd == [] && plan.truncated == [] then 1 else 0;
            && Unconfirmed(all) == Unconfirmed(add) + Unconfirmed(cut)
            && CountConfirmed(all) == CountConfirmed(add) + CountConfirmed(cut) + present
            && |all| == |plan.toAdd| + |plan.truncated| + present
  {
    UnconfirmedConcat(TagUnits(plan.toAdd, AsSet(after)), TagUnits(plan.truncated, {}));
    TagUnitsLength(plan.toAdd, AsSet(after));
    TagUnitsLength(plan.truncated, {});
    if plan.toAdd == [] && plan.truncated == [] { OneSuccess(); }
  }

  lemma OneSuccess()
    ensures Unconfirmed([Unit(AllTopicsPresent, true)]) == [] && CountConfirmed([Unit(AllTopicsPresent, true)]) == 1
  {
    assert [Unit(AllTopicsPresent, true)][..0] == [];
  }

  lemma {:induction false} TagUnitsLength(tags: seq<string>, seen: set<string>)
    ensures |TagUnits(tags, seen)| == |tags|
  {
    if tags != [] { TagUnitsLength(tags[..|tags| - 1], seen); }
  }
}
