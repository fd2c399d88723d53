/** Which of the requested topics are still to be appended to a published note. */
module TopicPlan {
  import opened Collections
  import opened TopicText

  const MAX_TOPICS := 10

  function StripHashes(s: string): string {
    if s != "" && s[0] == '#' then StripHashes(s[1..]) else s
  }

  /** A topic as typed by a caller, reduced to its name. */
  function NameOf(topic: string): string { Strip(StripHashes(topic)) }

  /** The non-blank names, each at its first occurrence. */
  function NormalNames(topics: seq<string>): seq<string> {
    if topics == [] then []
    else
      var rest, name := NormalNames(topics[..|topics| - 1]), NameOf(topics[|topics| - 1]);
      if name == "" || name in rest then rest else rest + [name]
  }

  method NormalizeTopicNames(topics: seq<string>) returns (out: seq<string>)
    ensures out == NormalNames(topics)
  {
    out := [];
    var seen: set<string> := {};
    for i := 0 to |topics|
      invariant out == NormalNames(topics[..i])
      invariant forall x :: x in seen <==> x in out
    {
      assert topics[..i + 1][..i] == topics[..i];
      var name := NameOf(topics[i]);
      if name != "" && name !in seen {
        seen := seen + {name};
        out := out + [name];
      }
    }
    assert topics[..|topics|] == topics;
  }

  datatype Plan = Plan(existing: seq<string>, toAdd: seq<string>, truncated: seq<string>, already: seq<string>)

  /** How many more topics fit under the cap. */
  function Room(have: seq<string>, cap: int): nat { if cap > |have| then cap - |have| else 0 }

  function PlanAppends(existing: seq<string>, requested: seq<string>, cap: int): Plan {
    var have, names := NormalNames(existing), NormalNames(requested);
    var missing := Filter(names, x => x !in have);
    var available := Room(have, cap);
    var cut := if available <= |missing| then available else |missing|;
    Plan(have, missing[..cut], missing[cut..], Filter(names, x => x in have))
  }

  // ---- names ----

  /** Exactly the non-blank names of the topics, without repetition. */
  lemma {:induction false} NormalNamesMeaning(topics: seq<string>, x: string)
    ensures Distinct(NormalNames(topics))
    ensures x in NormalNames(topics) <==> x != "" && exists i | 0 <= i < |topics| :: NameOf(topics[i]) == x
  {
    if topics != [] {
      var front := topics[..|topics| - 1];
      NormalNamesMeaning(front, x);
      if x in NormalNames(front) {
        var i :| 0 <= i < |front| && NameOf(front[i]) == x;
        assert NameOf(topics[i]) == x;
      }
      forall i | 0 <= i < |topics| && NameOf(topics[i]) == x
        ensures x == NameOf(topics[|topics| - 1]) || exists j | 0 <= j < |front| :: NameOf(front[j]) == x
      {
        if i < |front| { assert NameOf(front[i]) == x; }
      }
    }
  }

  /** Later topics never move earlier names. */
  lemma {:induction false} NormalNamesGrow(topics: seq<string>, more: seq<string>)
    ensures NormalNames(topics) <= NormalNames(topics + more)
    decreases |more|
  {
    if more == [] {
      assert topics + more == topics;
    } else {
      NormalNamesGrow(topics, more[..|more| - 1]);
      assert (topics + more)[..|topics + more| - 1] == topics + more[..|more| - 1];
    }
  }

  predicate LeadsWithHash(name: string) { name != "" && name[0] == '#' }

  lemma {:induction false} StripHashesShortens(s: string)
    ensures if LeadsWithHash(s) then |StripHashes(s)| < |s| else StripHashes(s) == s
  {
    if LeadsWithHash(s) { StripHashesShortens(s[1..]); }
  }

  /** A topic is hashes in front, white space, its name, and white space; the name neither begins nor ends with any. */
  lemma NameWithin(topic: string) returns (hashes: string, left: string, right: string)
    ensures topic == hashes + (left + NameOf(topic) + right) && forall c <- hashes :: c == '#'
    ensures forall c <- left + right :: IsSpace(c)
    ensures left + NameOf(topic) + right == "" || (left + NameOf(topic) + right)[0] != '#'
    ensures NameOf(topic) == "" || (!IsSpace(NameOf(topic)[0]) && !IsSpace(NameOf(topic)[|NameOf(topic)| - 1]))
  {
    hashes := HashesInFront(topic);
    left, right := StripParts(StripHashes(topic));
  }

  lemma {:induction false} HashesInFront(s: string) returns (hashes: string)
    ensures s == hashes + StripHashes(s) && forall c <- hashes :: c == '#'
    ensures !LeadsWithHash(StripHashes(s))
  {
    hashes := "";
    if LeadsWithHash(s) {
      hashes := HashesInFront(s[1..]);
      hashes := "#" + hashes;
    }
  }

  /** Taking the name of a name gives it back exactly when it does not begin with `#`; otherwise it gets shorter. */
  lemma NameOfName(topic: string)
    ensures NameOf(NameOf(topic)) == NameOf(topic) <==> !LeadsWithHash(NameOf(topic))
    ensures LeadsWithHash(NameOf(topic)) ==> |NameOf(NameOf(topic))| < |NameOf(topic)|
  {
    var name := NameOf(topic);
    StripTwice(StripHashes(topic));
    StripHashesShortens(name);
    StripLeftShorter(StripHashes(name));
    StripRightShorter(StripLeft(StripHashes(name)));
  }

  /** `# #x` is reduced to `#x`, and that to `x`. */
  lemma HashedNameIsNotFixed()
    ensures NameOf("# #x") == "#x" && NameOf("#x") == "x"
  {
    assert "# #x"[1..] == " #x" && " #x"[1..] == "#x" && "#x"[1..] == "x";
    assert StripHashes("# #x") == " #x" && StripLeft(" #x") == "#x" && StripRight("#x") == "#x";
    assert StripHashes("#x") == "x" && StripLeft("x") == "x" && StripRight("x") == "x";
  }

  predicate HashFree(names: seq<string>) { forall x <- names :: !LeadsWithHash(x) }

  predicate AreNames(names: seq<string>) { forall x <- names :: x != "" && NameOf(x) == x }

  lemma NormalNamesAreNames(topics: seq<string>)
    requires HashFree(NormalNames(topics))
    ensures AreNames(NormalNames(topics))
  {
    forall x | x in NormalNames(topics) ensures x != "" && NameOf(x) == x {
      NormalNamesMeaning(topics, x);
      var i :| 0 <= i < |topics| && NameOf(topics[i]) == x;
      NameOfName(topics[i]);
    }
  }

  lemma {:induction false} NamesAreNormal(names: seq<string>)
    requires Distinct(names) && AreNames(names)
    ensures NormalNames(names) == names
  {
    if names != [] {
      var front, last := names[..|names| - 1], names[|names| - 1];
      assert last in names && last !in front;
      NamesAreNormal(front);
      assert names == front + [last];
    }
  }

  /** Topics read back from a body are names already. */
  lemma ExtractedTopicsAreNames(body: string)
    ensures AreNames(ExtractTopics(body)) && HashFree(NormalNames(ExtractTopics(body)))
  {
    forall x | x in ExtractTopics(body) ensures x != "" && NameOf(x) == x && !LeadsWithHash(x) {
      ExtractedNames(body, x);
      assert x[0] in x;
      StripHashesShortens(x);
    }
    forall x | x in NormalNames(ExtractTopics(body)) ensures !LeadsWithHash(x) {
      NormalNamesMeaning(ExtractTopics(body), x);
    }
  }

  // ---- the plan ----

  lemma {:induction false} FilterSplits<T>(s: seq<T>, keep: T -> bool, drop: T -> bool)
    requires forall x <- s :: keep(x) == !drop(x)
    ensures multiset(s) == multiset(Filter(s, keep)) + multiset(Filter(s, drop))
  {
    if s != [] {
      assert s == [s[0]] + s[1..];
      FilterSplits(s[1..], keep, drop);
    }
  }

  lemma SplitAt(s: seq<string>, n: nat)
    requires n <= |s|
    ensures s == s[..n] + s[n..] && multiset(s) == multiset(s[..n]) + multiset(s[n..])
  {
    assert s == s[..n] + s[n..];
  }

  /** Every requested name ends up in exactly one of the three lists, and the new ones keep their order. */
  lemma PlanSplitsRequest(existing: seq<string>, requested: seq<string>, cap: int)
    ensures var p, names := PlanAppends(existing, requested, cap), NormalNames(requested);
            && p.existing == NormalNames(existing)
            && multiset(names) == multiset(p.already) + multiset(p.toAdd) + multiset(p.truncated)
            && p.toAdd + p.truncated == Filter(names, x => x !in p.existing)
            && p.already == Filter(names, x => x in p.existing)
  {
    var p, names, have := PlanAppends(existing, requested, cap), NormalNames(requested), NormalNames(existing);
    var missing := Filter(names, x => x !in have);
    FilterSplits(names, x => x !in have, x => x in have);
    SplitAt(missing, |p.toAdd|);
  }

  lemma CutRespectsCap(have: seq<string>, missing: seq<string>, cap: int)
    requires Distinct(have) && Distinct(missing) && forall x <- missing :: x !in have
    ensures var cut := if Room(have, cap) <= |missing| then Room(have, cap) else |missing|;
            && Distinct(have + missing[..cut])
            && |have + missing[..cut]| <= Max(cap, |have|)
            && (missing[cut..] != [] ==> |have + missing[..cut]| == Max(cap, |have|))
  {
    var cut := if Room(have, cap) <= |missing| then Room(have, cap) else |missing|;
    forall a | a in have ensures a !in missing[..cut] {}
    DistinctConcat(have, missing[..cut]);
  }

  lemma MissingNames(have: seq<string>, names: seq<string>)
    requires Distinct(names)
    ensures var missing := Filter(names, x => x !in have); Distinct(missing) && forall x <- missing :: x !in have
  {
    FilterDistinct(names, x => x !in have);
    forall x | x in Filter(names, y => y !in have) ensures x !in have { FilterMember(names, y => y !in have, x); }
  }

  /** No topic is hung twice, the cap is passed only if it was passed before, and names are cut off only when it is reached. */
  lemma PlanRespectsCap(existing: seq<string>, requested: seq<string>, cap: int)
    ensures var p := PlanAppends(existing, requested, cap);
            && Distinct(p.existing + p.toAdd)
            && |p.existing + p.toAdd| <= Max(cap, |p.existing|)
            && (p.truncated != [] ==> |p.existing + p.toAdd| == Max(cap, |p.existing|))
  {
    var have, names := NormalNames(existing), NormalNames(requested);
    NormalNamesMeaning(existing, "");
    NormalNamesMeaning(requested, "");
    MissingNames(have, names);
    CutRespectsCap(have, Filter(names, x => x !in have), cap);
  }

  /** The note after its plan has been carried out, planned once more. */
  function Replan(existing: seq<string>, requested: seq<string>, cap: int): Plan {
    var p := PlanAppends(existing, requested, cap);
    PlanAppends(p.existing + p.toAdd, requested, cap)
  }

  lemma PlannedNames(existing: seq<string>, requested: seq<string>, cap: int, x: string)
    ensures var p := PlanAppends(existing, requested, cap);
            x in NormalNames(requested) && x !in p.existing <==> x in p.toAdd || x in p.truncated
  {
    var p := PlanAppends(existing, requested, cap);
    PlanSplitsRequest(existing, requested, cap);
    FilterMember(NormalNames(requested), y => y !in p.existing, x);
    assert x in p.toAdd + p.truncated <==> x in p.toAdd || x in p.truncated;
  }

  /** Without hashes a second plan adds nothing and cuts off the same names. */
  lemma ReplanAddsNothing(existing: seq<string>, requested: seq<string>, cap: int)
    requires HashFree(NormalNames(existing)) && HashFree(NormalNames(requested))
    ensures var p, q := PlanAppends(existing, requested, cap), Replan(existing, requested, cap);
            q.existing == p.existing + p.toAdd && q.toAdd == []
  {
    var p, q := PlanAppends(existing, requested, cap), Replan(existing, requested, cap);
    var now := p.existing + p.toAdd;
    PlanRespectsCap(existing, requested, cap);
    NormalNamesAreNames(existing);
    NormalNamesAreNames(requested);
    forall x | x in now ensures x != "" && NameOf(x) == x { PlannedNames(existing, requested, cap, x); }
    NamesAreNormal(now);
    if q.toAdd != [] {
      var x := q.toAdd[0];
      PlannedNames(now, requested, cap, x);
      PlannedNames(existing, requested, cap, x);
      assert false;
    }
  }

  lemma {:induction false} LongestHashed(names: seq<string>) returns (x: string)
    requires !HashFree(names)
    ensures x in names && LeadsWithHash(x) && forall y <- names :: LeadsWithHash(y) ==> |y| <= |x|
  {
    var front, last := names[..|names| - 1], names[|names| - 1];
    assert names == front + [last];
    if HashFree(front) {
      x := last;
    } else {
      x := LongestHashed(front);
      if LeadsWithHash(last) && |x| < |last| { x := last; }
    }
  }

  /** The longest requested name with a leading hash is never on the edited note. */
  lemma HashedNameIsMissing(existing: seq<string>, requested: seq<string>, cap: int)
    requires HashFree(NormalNames(existing)) && !HashFree(NormalNames(requested))
    ensures exists x :: x in NormalNames(requested) && x !in Replan(existing, requested, cap).existing
  {
    var p, q := PlanAppends(existing, requested, cap), Replan(existing, requested, cap);
    var x := LongestHashed(NormalNames(requested));
    var now := p.existing + p.toAdd;
    if x in q.existing {
      NormalNamesMeaning(now, x);
      var i :| 0 <= i < |now| && NameOf(now[i]) == x;
      HashedNameIsNoName(existing, requested, cap, now[i]);
      assert false;
    }
  }

  /** A second plan adds something if a requested name is missing on the edited note and there is room for it. */
  lemma MissingIsAdded(existing: seq<string>, requested: seq<string>, cap: int, x: string)
    requires x in NormalNames(requested) && x !in NormalNames(existing)
    ensures PlanAppends(existing, requested, cap).toAdd == [] <==> |NormalNames(existing)| >= cap
  {
    var have := NormalNames(existing);
    FilterMember(NormalNames(requested), y => y !in have, x);
  }

  /** No two topics have the same name, and none has a blank one. */
  ghost predicate Unmerged(topics: seq<string>) {
    && (forall i | 0 <= i < |topics| :: NameOf(topics[i]) != "")
    && (forall i, j | 0 <= i < j < |topics| :: NameOf(topics[i]) != NameOf(topics[j]))
  }

  lemma {:induction false} UnmergedKeepsAll(topics: seq<string>)
    ensures |NormalNames(topics)| <= |topics|
    ensures |NormalNames(topics)| == |topics| <==> Unmerged(topics)
  {
    if topics != [] {
      var front, last := topics[..|topics| - 1], topics[|topics| - 1];
      assert topics == front + [last];
      UnmergedKeepsAll(front);
      NormalNamesMeaning(front, NameOf(last));
      assert Unmerged(topics) <==> Unmerged(front) && NameOf(last) != ""
                                   && forall i | 0 <= i < |front| :: NameOf(front[i]) != NameOf(last) by {
        UnmergedOneMore(front, last);
      }
    }
  }

  lemma UnmergedOneMore(front: seq<string>, last: string)
    ensures Unmerged(front + [last]) <==>
            Unmerged(front) && NameOf(last) != "" && forall i | 0 <= i < |front| :: NameOf(front[i]) != NameOf(last)
  {
    var topics := front + [last];
    assert forall i | 0 <= i < |front| :: topics[i] == front[i];
    if Unmerged(topics) {
      assert NameOf(topics[|front|]) != "";
      forall i | 0 <= i < |front| ensures NameOf(front[i]) != "" && NameOf(front[i]) != NameOf(last) {
        assert NameOf(topics[i]) != "" && NameOf(topics[i]) != NameOf(topics[|front|]);
      }
      forall i, j | 0 <= i < j < |front| ensures NameOf(front[i]) != NameOf(front[j]) {
        assert NameOf(topics[i]) != NameOf(topics[j]);
      }
    }
  }

  /** The edited note is full: it was before, or it is now and no two of its topics share a name. */
  ghost predicate StaysFull(p: Plan, cap: int) {
    |p.existing| >= cap || (|p.existing + p.toAdd| == cap && Unmerged(p.existing + p.toAdd))
  }

  lemma FullAfterwards(existing: seq<string>, requested: seq<string>, cap: int)
    requires HashFree(NormalNames(existing))
    ensures |Replan(existing, requested, cap).existing| >= cap <==> StaysFull(PlanAppends(existing, requested, cap), cap)
  {
    var p := PlanAppends(existing, requested, cap);
    var now := p.existing + p.toAdd;
    PlanRespectsCap(existing, requested, cap);
    UnmergedKeepsAll(now);
    if |p.existing| >= cap {
      assert now == p.existing;
      NormalNamesAreNames(existing);
      NormalNamesMeaning(existing, "");
      NamesAreNormal(p.existing);
    }
  }

  /**
   A second plan adds nothing exactly when no requested name begins with a hash, or the note is full and stays
   so when its topics are read as names again.
   */
  lemma ReplanAddsNothingIff(existing: seq<string>, requested: seq<string>, cap: int)
    requires HashFree(NormalNames(existing))
    ensures Replan(existing, requested, cap).toAdd == []
            <==> HashFree(NormalNames(requested)) || StaysFull(PlanAppends(existing, requested, cap), cap)
  {
    if HashFree(NormalNames(requested)) {
      ReplanAddsNothing(existing, requested, cap);
    } else {
      var p := PlanAppends(existing, requested, cap);
      HashedNameIsMissing(existing, requested, cap);
      var x :| x in NormalNames(requested) && x !in Replan(existing, requested, cap).existing;
      MissingIsAdded(p.existing + p.toAdd, requested, cap, x);
      FullAfterwards(existing, requested, cap);
    }
  }

  /** The name of a planned topic is never longer, and keeps a leading hash only by getting shorter. */
  lemma HashedNameIsNoName(existing: seq<string>, requested: seq<string>, cap: int, y: string)
    requires HashFree(NormalNames(existing))
    requires var p := PlanAppends(existing, requested, cap); y in p.existing + p.toAdd
    ensures !LeadsWithHash(y) ==> NameOf(y) == y
    ensures LeadsWithHash(y) ==> y in NormalNames(requested) && |NameOf(y)| < |y|
  {
    PlannedNames(existing, requested, cap, y);
    var source := if y in NormalNames(existing) then existing else requested;
    NormalNamesMeaning(source, y);
    var i :| 0 <= i < |source| && NameOf(source[i]) == y;
    NameOfName(source[i]);
  }
}
