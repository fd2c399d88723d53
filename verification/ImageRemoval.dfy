/**
 Deleting images of a published note by position, on a page that renumbers its images after every deletion.
 An image is identified by a number that never changes; positions are 1-based.
 */
module ImageRemoval {
  import opened Collections

  const REMOVE_ATTEMPTS := 3

  /**
   What the page does with one click on a delete button: it shows the deletion before the wait ends, after
   the wait but before the next try, or never, in the last case perhaps with an unknown dialog.
   */
  datatype Click = InTime | Late | Ignored | Dialog

  /** One try at one image: it may not be found, be out of view or be covered, and is then not clicked. */
  datatype Attempt = Lost | Clicked(click: Click)

  // ---- the plan ----

  function Descending(s: set<int>): seq<int>
    decreases |s|
  {
    if s == {} then [] else [Greatest(s)] + Descending(s - {Greatest(s)})
  }

  function AsSet(s: seq<int>): set<int> { set x | x in s }

  /** The requested positions, each once, largest first. */
  function PlanRemoval(indexes: seq<int>): seq<int> { Descending(AsSet(indexes)) }

  predicate StrictlyDescending(s: seq<int>) { forall i, j :: 0 <= i < j < |s| ==> s[i] > s[j] }

  lemma {:induction false} DescendingMeaning(s: set<int>)
    ensures StrictlyDescending(Descending(s)) && |Descending(s)| == |s|
    ensures forall x :: x in Descending(s) <==> x in s
    decreases |s|
  {
    if s != {} {
      var g, r := Greatest(s), Descending(s - {Greatest(s)});
      DescendingMeaning(s - {g});
      forall j | 0 <= j < |r| ensures r[j] < g { assert r[j] in r; }
      forall i, j | 0 <= i < j < |r| + 1 ensures ([g] + r)[i] > ([g] + r)[j] {
        if i > 0 { assert r[i - 1] > r[j - 1]; }
      }
    }
  }

  // ---- positions ----

  function RemoveAt<T>(s: seq<T>, i: nat): seq<T>
    requires i < |s|
  {
    s[..i] + s[i + 1..]
  }

  /** The images at positions outside `gone`, in order. */
  function Keep(images: seq<int>, gone: set<int>): seq<int> {
    if images == [] then []
    else Keep(images[..|images| - 1], gone) + if |images| in gone then [] else [images[|images| - 1]]
  }

  lemma {:induction false} KeepAll(images: seq<int>, gone: set<int>)
    requires forall g | g in gone :: g > |images|
    ensures Keep(images, gone) == images
  {
    if images != [] {
      KeepAll(images[..|images| - 1], gone);
      assert images == images[..|images| - 1] + [images[|images| - 1]];
    }
  }

  /** Below every deleted position, positions on the page are still the original ones. */
  lemma {:induction false} KeepRemovesNext(images: seq<int>, gone: set<int>, k: int)
    requires 1 <= k <= |images| && forall g | g in gone :: g > k
    ensures k <= |Keep(images, gone)| && Keep(images, gone)[..k] == images[..k]
    ensures RemoveAt(Keep(images, gone), k - 1) == Keep(images, gone + {k})
  {
    var front := images[..|images| - 1];
    if k == |images| {
      KeepAll(images, gone);
      KeepAll(front, gone + {k});
      assert images[|images|..] == [];
    } else {
      KeepRemovesNext(front, gone, k);
      var kept, last := Keep(front, gone), if |images| in gone then [] else [images[|images| - 1]];
      assert Keep(images, gone) == kept + last;
      assert (kept + last)[..k] == kept[..k] && front[..k] == images[..k];
      assert RemoveAt(kept + last, k - 1) == RemoveAt(kept, k - 1) + last;
    }
  }

  // ---- one image ----

  /** Where the tries at one image end: the page, the answers left over, and the verdict. */
  datatype Tried = Tried(images: seq<int>, rest: seq<Attempt>, done: bool)

  /** Up to `attempts` clicks on the image labelled `ordinal`, until the page shows exactly `expected` images. */
  function Tries(images: seq<int>, ordinal: int, expected: int, script: seq<Attempt>, attempts: nat): Tried {
    if attempts == 0 then Tried(images, script, false)
    else if script == [] || script[0].Lost? || !(1 <= ordinal <= |images|) then Tried(images, script, false)
    else
      var click, hit := script[0].click, RemoveAt(images, ordinal - 1);
      var shown := if click.InTime? then hit else images;
      var later := if click.Late? then hit else shown;
      if |shown| == expected then Tried(later, script[1..], true)
      else if click.Dialog? then Tried(later, script[1..], false)
      else Tries(later, ordinal, expected, script[1..], attempts - 1)
  }

  /** No deletion is shown only after its wait. */
  predicate Prompt(script: seq<Attempt>) { forall a <- script :: a != Clicked(Late) }

  lemma {:induction false} PromptTries(images: seq<int>, ordinal: int, script: seq<Attempt>, attempts: nat)
    requires Prompt(script)
    ensures var t := Tries(images, ordinal, |images| - 1, script, attempts);
            && Prompt(t.rest)
            && if t.done then 1 <= ordinal <= |images| && t.images == RemoveAt(images, ordinal - 1) else t.images == images
  {
    if attempts > 0 && script != [] && script[0].Clicked? && 1 <= ordinal <= |images| {
      assert script[0] in script && forall a <- script[1..] :: a in script;
      PromptTries(images, ordinal, script[1..], attempts - 1);
    }
  }

  // ---- all images ----

  datatype Removal = Removal(images: seq<int>, removed: nat, done: bool, rest: seq<Attempt>)

  function RemoveAll(images: seq<int>, current: int, order: seq<int>, script: seq<Attempt>): Removal
    decreases |order|
  {
    if order == [] then Removal(images, 0, true, script)
    else
      var t := Tries(images, order[0], current - 1, script, REMOVE_ATTEMPTS);
      if !t.done then Removal(t.images, 0, false, t.rest)
      else
        var r := RemoveAll(t.images, current - 1, order[1..], t.rest);
        Removal(r.images, r.removed + 1, r.done, r.rest)
  }

  lemma {:induction false} PromptRemoval(images: seq<int>, gone: set<int>, order: seq<int>, script: seq<Attempt>)
    requires Prompt(script) && StrictlyDescending(order) && forall g, k | g in gone && k in order :: g > k
    ensures var page := Keep(images, gone);
            var r := RemoveAll(page, |page|, order, script);
            && r.removed <= |order| && (r.done ==> r.removed == |order|)
            && r.images == Keep(images, gone + AsSet(order[..r.removed]))
            && |page| == r.removed + |r.images|
    decreases |order|
  {
    var page := Keep(images, gone);
    if order == [] {
      assert gone + AsSet(order[..0]) == gone;
    } else {
      var k := order[0];
      var t := Tries(page, k, |page| - 1, script, REMOVE_ATTEMPTS);
      PromptTries(page, k, script, REMOVE_ATTEMPTS);
      if t.done {
        KeepShorter(images, gone);
        assert k in order;
        KeepRemovesNext(images, gone, k);
        RestOfOrder(order, gone);
        PromptRemoval(images, gone + {k}, order[1..], t.rest);
        FirstsOfOrder(order, gone, RemoveAll(t.images, |page| - 1, order[1..], t.rest).removed);
      } else {
        assert gone + AsSet(order[..0]) == gone;
      }
    }
  }

  lemma RestOfOrder(order: seq<int>, gone: set<int>)
    requires order != [] && StrictlyDescending(order) && forall g, k | g in gone && k in order :: g > k
    ensures StrictlyDescending(order[1..]) && forall g, k | g in gone + {order[0]} && k in order[1..] :: g > k
  {
    assert forall i, j :: 0 <= i < j < |order[1..]| ==> order[1..][i] == order[i + 1] && order[1..][j] == order[j + 1];
    forall g, x | g in gone + {order[0]} && x in order[1..] ensures g > x { assert x in order; }
  }

  lemma FirstsOfOrder(order: seq<int>, gone: set<int>, n: nat)
    requires n < |order|
    ensures gone + {order[0]} + AsSet(order[1..][..n]) == gone + AsSet(order[..n + 1])
  {
    assert order[..n + 1] == [order[0]] + order[1..][..n];
    forall x: int ensures x in gone + {order[0]} + AsSet(order[1..][..n]) <==> x in gone + AsSet(order[..n + 1]) {}
  }

  lemma {:induction false} KeepShorter(images: seq<int>, gone: set<int>)
    ensures |Keep(images, gone)| <= |images|
  {
    if images != [] { KeepShorter(images[..|images| - 1], gone); }
  }

  lemma PromptFromStart(images: seq<int>, order: seq<int>, script: seq<Attempt>)
    requires Prompt(script) && StrictlyDescending(order)
    ensures var r := RemoveAll(images, |images|, order, script);
            && r.removed <= |order| && (r.done ==> r.removed == |order|) && |images| == r.removed + |r.images|
            && r.images == Keep(images, AsSet(order[..r.removed]))
  {
    KeepAll(images, {});
    PromptRemoval(images, {}, order, script);
    var n := RemoveAll(images, |images|, order, script).removed;
    assert {} + AsSet(order[..n]) == AsSet(order[..n]);
  }

  lemma PlanHasAll(indexes: seq<int>)
    ensures StrictlyDescending(PlanRemoval(indexes))
    ensures AsSet(PlanRemoval(indexes)) == AsSet(indexes) && |PlanRemoval(indexes)| == |AsSet(indexes)|
  {
    DescendingMeaning(AsSet(indexes));
    forall x: int ensures x in AsSet(PlanRemoval(indexes)) <==> x in AsSet(indexes) {}
  }

  /**
   On a page that deletes in time or not at all: `done` leaves exactly the unrequested positions in order,
   and an error leaves exactly the `removed` largest requested positions deleted.
   */
  lemma RemovalIsSetDifference(images: seq<int>, indexes: seq<int>, script: seq<Attempt>)
    requires Prompt(script)
    ensures var r, order := RemoveAll(images, |images|, PlanRemoval(indexes), script), PlanRemoval(indexes);
            && r.removed <= |order| && |images| == r.removed + |r.images|
            && r.images == Keep(images, AsSet(order[..r.removed]))
            && (r.done ==> r.removed == |AsSet(indexes)| && r.images == Keep(images, AsSet(indexes)))
  {
    PlanHasAll(indexes);
    PromptFromStart(images, PlanRemoval(indexes), script);
    assert PlanRemoval(indexes)[..|PlanRemoval(indexes)|] == PlanRemoval(indexes);
  }

  /** On a page that always deletes in time, every list of existing positions is deleted. */
  lemma {:induction false} InTimeFinishes(images: seq<int>, order: seq<int>, script: seq<Attempt>)
    requires (forall a <- script :: a == Clicked(InTime)) && |script| >= |order|
    requires StrictlyDescending(order) && forall k <- order :: 1 <= k <= |images|
    ensures RemoveAll(images, |images|, order, script).done
    decreases |order|
  {
    if order != [] {
      assert order[0] in order && script[0] in script;
      forall k | k in order[1..] ensures 1 <= k <= |images| - 1 { assert k in order; }
      forall a | a in script[1..] ensures a == Clicked(InTime) { assert a in script; }
      InTimeFinishes(RemoveAt(images, order[0] - 1), order[1..], script[1..]);
    }
  }

  // ---- any page: when a deletion may still be under way ----

  lemma {:induction false} OvershotTries(images: seq<int>, ordinal: int, expected: int, script: seq<Attempt>, attempts: nat)
    requires |images| < expected
    ensures !Tries(images, ordinal, expected, script, attempts).done
  {
    if attempts > 0 && script != [] && script[0].Clicked? && 1 <= ordinal <= |images| {
      var hit := RemoveAt(images, ordinal - 1);
      OvershotTries(images, ordinal, expected, script[1..], attempts - 1);
      OvershotTries(hit, ordinal, expected, script[1..], attempts - 1);
    }
  }

  /** The answers that were used up when `rest` is left over. */
  function Used(script: seq<Attempt>, rest: seq<Attempt>): seq<Attempt> {
    if |rest| <= |script| then script[..|script| - |rest|] else []
  }

  /** Two deletions in a row came late. */
  ghost predicate LateTwice(used: seq<Attempt>) {
    exists i | 0 < i < |used| :: used[i - 1] == used[i] == Clicked(Late)
  }

  predicate EndsLate(used: seq<Attempt>) { used != [] && used[|used| - 1] == Clicked(Late) }

  predicate LeftOver(script: seq<Attempt>, rest: seq<Attempt>) {
    rest == script || (script != [] && LeftOver(script[1..], rest))
  }

  lemma {:induction false} LeftOverIsTail(script: seq<Attempt>, rest: seq<Attempt>)
    requires LeftOver(script, rest)
    ensures |rest| <= |script| && rest == script[|script| - |rest|..]
  {
    if rest != script { LeftOverIsTail(script[1..], rest); }
  }

  lemma {:induction false} LeftOverTwice(script: seq<Attempt>, middle: seq<Attempt>, rest: seq<Attempt>)
    requires LeftOver(script, middle) && LeftOver(middle, rest)
    ensures LeftOver(script, rest)
  {
    if middle != script { LeftOverTwice(script[1..], middle, rest); }
  }

  lemma {:induction false} TriesLeave(images: seq<int>, ordinal: int, expected: int, script: seq<Attempt>, attempts: nat)
    ensures LeftOver(script, Tries(images, ordinal, expected, script, attempts).rest)
  {
    if attempts > 0 && script != [] && script[0].Clicked? && 1 <= ordinal <= |images| {
      var click, hit := script[0].click, RemoveAt(images, ordinal - 1);
      var shown := if click.InTime? then hit else images;
      var later := if click.Late? then hit else shown;
      if |shown| != expected && !click.Dialog? { TriesLeave(later, ordinal, expected, script[1..], attempts - 1); }
    }
  }

  lemma UsedFirst(script: seq<Attempt>, rest: seq<Attempt>)
    requires script != [] && |rest| < |script|
    ensures Used(script, rest) == [script[0]] + Used(script[1..], rest)
  {
  }

  lemma LateTwiceFirst(first: Attempt, used: seq<Attempt>)
    ensures LateTwice([first] + used) <==> LateTwice(used) || (used != [] && first == used[0] == Clicked(Late))
  {
    var all := [first] + used;
    if LateTwice(used) {
      var i :| 0 < i < |used| && used[i - 1] == used[i] == Clicked(Late);
      assert all[i + 1 - 1] == all[i + 1] == Clicked(Late);
    }
    if used != [] && first == used[0] == Clicked(Late) { assert all[1 - 1] == all[1] == Clicked(Late); }
    if LateTwice(all) {
      var i :| 0 < i < |all| && all[i - 1] == all[i] == Clicked(Late);
      if i > 1 { assert used[i - 1 - 1] == used[i - 1] == Clicked(Late); }
    }
  }

  /** One deletion has come late already: the page is confirmed as it is, or loses a second image. */
  lemma {:induction false} RepeatedTries(images: seq<int>, ordinal: int, script: seq<Attempt>, attempts: nat)
    ensures var t := Tries(images, ordinal, |images|, script, attempts);
            t.done ==>
              && 1 <= ordinal <= |images| && |Used(script, t.rest)| == 1
              && t.images == if Used(script, t.rest)[0] == Clicked(Late) then RemoveAt(images, ordinal - 1) else images
  {
    if attempts > 0 && script != [] && script[0].Clicked? && 1 <= ordinal <= |images| {
      OvershotTries(RemoveAt(images, ordinal - 1), ordinal, |images|, script[1..], attempts - 1);
    }
  }

  /** The page lost the image and, after two late deletions, also the one that had moved to its position. */
  predicate OneOrTwoGone(images: seq<int>, ordinal: int, after: seq<int>, two: bool)
    requires 1 <= ordinal <= |images|
  {
    if two then ordinal < |images| && after == RemoveAt(RemoveAt(images, ordinal - 1), ordinal - 1)
    else after == RemoveAt(images, ordinal - 1)
  }

  /** What a confirmed image costs the page: that image, and the next one too if two deletions in a row came late. */
  lemma {:induction false} ConfirmedTries(images: seq<int>, ordinal: int, script: seq<Attempt>, attempts: nat)
    requires Tries(images, ordinal, |images| - 1, script, attempts).done
    ensures var t := Tries(images, ordinal, |images| - 1, script, attempts);
            var used := Used(script, t.rest);
            && 1 <= ordinal <= |images| && used != [] && OneOrTwoGone(images, ordinal, t.images, LateTwice(used))
            && (EndsLate(used) ==> LateTwice(used))
  {
    var t := Tries(images, ordinal, |images| - 1, script, attempts);
    var hit, rest := RemoveAt(images, ordinal - 1), script[1..];
    var used := Used(script, t.rest);
    match script[0].click
    case InTime =>
      assert used == [script[0]];
    case Late =>
      RepeatedTries(hit, ordinal, rest, attempts - 1);
      TriesLeave(hit, ordinal, |images| - 1, rest, attempts - 1);
      LeftOverIsTail(rest, t.rest);
      UsedFirst(script, t.rest);
      LateTwiceFirst(script[0], Used(rest, t.rest));
    case Ignored =>
      ConfirmedTries(images, ordinal, rest, attempts - 1);
      TriesLeave(images, ordinal, |images| - 1, rest, attempts - 1);
      LeftOverIsTail(rest, t.rest);
      UsedFirst(script, t.rest);
      LateTwiceFirst(script[0], Used(rest, t.rest));
    case Dialog =>
  }

  lemma {:induction false} TriesOnlyRemove(images: seq<int>, ordinal: int, expected: int, script: seq<Attempt>, attempts: nat, x: int)
    ensures x in Tries(images, ordinal, expected, script, attempts).images ==> x in images
  {
    if attempts > 0 && script != [] && script[0].Clicked? && 1 <= ordinal <= |images| {
      var hit := RemoveAt(images, ordinal - 1);
      assert forall y <- hit :: y in images;
      TriesOnlyRemove(images, ordinal, expected, script[1..], attempts - 1, x);
      TriesOnlyRemove(hit, ordinal, expected, script[1..], attempts - 1, x);
    }
  }

  lemma {:induction false} RemovalOnlyRemoves(images: seq<int>, current: int, order: seq<int>, script: seq<Attempt>, x: int)
    requires x in RemoveAll(images, current, order, script).images
    ensures x in images
    decreases |order|
  {
    if order != [] {
      var t := Tries(images, order[0], current - 1, script, REMOVE_ATTEMPTS);
      if t.done { RemovalOnlyRemoves(t.images, current - 1, order[1..], t.rest, x); }
      TriesOnlyRemove(images, order[0], current - 1, script, REMOVE_ATTEMPTS, x);
    }
  }

  lemma {:induction false} KeepMember(images: seq<int>, gone: set<int>, x: int)
    ensures x in Keep(images, gone) <==> exists p :: 1 <= p <= |images| && p !in gone && images[p - 1] == x
  {
    if images != [] {
      var front := images[..|images| - 1];
      KeepMember(front, gone, x);
      if x in Keep(front, gone) {
        var p :| 1 <= p <= |front| && p !in gone && front[p - 1] == x;
        assert images[p - 1] == x;
      }
      if p: int :| 1 <= p <= |images| && p !in gone && images[p - 1] == x {
        if p < |images| { assert front[p - 1] == x; }
      }
    }
  }

  lemma {:induction false} KeepDistinct(images: seq<int>, gone: set<int>)
    requires Distinct(images)
    ensures Distinct(Keep(images, gone))
  {
    if images != [] {
      var front, last := images[..|images| - 1], images[|images| - 1];
      KeepDistinct(front, gone);
      KeepMember(front, gone, last);
      assert forall i :: 0 <= i < |front| ==> front[i] == images[i] && images[i] != last;
      DistinctConcat(Keep(front, gone), if |images| in gone then [] else [last]);
    }
  }

  /** The image behind position `k` on the page is requested by none of the positions still to come. */
  lemma NextImageIsUnrequested(images: seq<int>, gone: set<int>, k: int, rest: set<int>)
    requires Distinct(images) && 1 <= k <= |images| && (forall g | g in gone :: g > k) && (forall r | r in rest :: r <= k)
    requires k < |Keep(images, gone)|
    ensures Keep(images, gone)[k] in Keep(images, gone + rest)
  {
    var page := Keep(images, gone);
    var x := page[k];
    KeepRemovesNext(images, gone, k);
    KeepDistinct(images, gone);
    KeepMember(images, gone, x);
    forall i | 0 <= i < k ensures images[i] != x { assert page[..k][i] == images[..k][i]; }
    var p :| 1 <= p <= |images| && p !in gone && images[p - 1] == x;
    KeepMember(images, gone + rest, x);
  }

  lemma LateTwiceConcat(a: seq<Attempt>, b: seq<Attempt>)
    requires a != [] && !EndsLate(a)
    ensures LateTwice(a + b) <==> LateTwice(a) || LateTwice(b)
    decreases |a|
  {
    assert a == [a[0]] + a[1..] && a + b == [a[0]] + (a[1..] + b);
    LateTwiceFirst(a[0], a[1..]);
    LateTwiceFirst(a[0], a[1..] + b);
    if |a| > 1 { LateTwiceConcat(a[1..], b); } else { assert a[1..] + b == b; }
  }

  lemma LateTwicePrefix(a: seq<Attempt>, b: seq<Attempt>)
    requires LateTwice(a)
    ensures LateTwice(a + b)
  {
    var i :| 0 < i < |a| && a[i - 1] == a[i] == Clicked(Late);
    assert (a + b)[i - 1] == (a + b)[i] == Clicked(Late);
  }

  lemma {:induction false} RemovalLeaves(images: seq<int>, current: int, order: seq<int>, script: seq<Attempt>)
    ensures LeftOver(script, RemoveAll(images, current, order, script).rest)
    decreases |order|
  {
    if order != [] {
      var t := Tries(images, order[0], current - 1, script, REMOVE_ATTEMPTS);
      TriesLeave(images, order[0], current - 1, script, REMOVE_ATTEMPTS);
      if t.done {
        RemovalLeaves(t.images, current - 1, order[1..], t.rest);
        LeftOverTwice(script, t.rest, RemoveAll(t.images, current - 1, order[1..], t.rest).rest);
      }
    }
  }

  lemma UsedTwice(script: seq<Attempt>, middle: seq<Attempt>, rest: seq<Attempt>)
    requires LeftOver(script, middle) && LeftOver(middle, rest)
    ensures Used(script, rest) == Used(script, middle) + Used(middle, rest)
  {
    LeftOverIsTail(script, middle);
    LeftOverIsTail(middle, rest);
  }

  /** Late deletions in a row belong to one image: no image is confirmed by its first late click. */
  lemma LateTwiceSplits(script: seq<Attempt>, middle: seq<Attempt>, rest: seq<Attempt>)
    requires LeftOver(script, middle) && LeftOver(middle, rest) && Used(script, middle) != []
    requires EndsLate(Used(script, middle)) ==> LateTwice(Used(script, middle))
    ensures LateTwice(Used(script, rest)) <==> LateTwice(Used(script, middle)) || LateTwice(Used(middle, rest))
  {
    UsedTwice(script, middle, rest);
    if LateTwice(Used(script, middle)) {
      LateTwicePrefix(Used(script, middle), Used(middle, rest));
    } else {
      LateTwiceConcat(Used(script, middle), Used(middle, rest));
    }
  }

  /** After two late deletions in a row the image that had moved to position `k` is gone, and was not asked for. */
  lemma TwoLateAreInexact(images: seq<int>, gone: set<int>, page: seq<int>, order: seq<int>, after: seq<int>, rest: seq<Attempt>)
    requires Distinct(images) && page == Keep(images, gone) && order != [] && StrictlyDescending(order) && Below(order, gone)
    requires 1 <= order[0] < |page| && after == RemoveAt(RemoveAt(page, order[0] - 1), order[0] - 1)
    ensures RemoveAll(after, |page| - 1, order[1..], rest).images != Keep(images, gone + AsSet(order))
  {
    MovedImageIsUnrequested(images, gone, page, order);
    NextImageIsGone(images, gone, order[0]);
    if page[order[0]] in RemoveAll(after, |page| - 1, order[1..], rest).images {
      RemovalOnlyRemoves(after, |page| - 1, order[1..], rest, page[order[0]]);
    }
  }

  lemma MovedImageIsUnrequested(images: seq<int>, gone: set<int>, page: seq<int>, order: seq<int>)
    requires Distinct(images) && page == Keep(images, gone) && order != [] && StrictlyDescending(order) && Below(order, gone)
    requires 1 <= order[0] < |page|
    ensures page[order[0]] in Keep(images, gone + AsSet(order))
  {
    KeepShorter(images, gone);
    assert order[0] in order;
    forall x | x in AsSet(order) ensures x <= order[0] { DescendingHead(order, x); }
    NextImageIsUnrequested(images, gone, order[0], AsSet(order));
  }

  /** All positions of `order` lie below those already deleted. */
  ghost predicate Below(order: seq<int>, gone: set<int>) { forall g, k | g in gone && k in order :: g > k }

  lemma {:induction false} ExactUnlessLateTwice(images: seq<int>, gone: set<int>, page: seq<int>, order: seq<int>, script: seq<Attempt>)
    requires Distinct(images) && page == Keep(images, gone) && StrictlyDescending(order) && Below(order, gone)
    requires RemoveAll(page, |page|, order, script).done
    ensures var r := RemoveAll(page, |page|, order, script);
            r.images == Keep(images, gone + AsSet(order)) <==> !LateTwice(Used(script, r.rest))
    decreases |order|
  {
    if order == [] {
      assert gone + AsSet(order) == gone;
    } else {
      var t := Tries(page, order[0], |page| - 1, script, REMOVE_ATTEMPTS);
      var r := RemoveAll(t.images, |page| - 1, order[1..], t.rest);
      ConfirmedTries(page, order[0], script, REMOVE_ATTEMPTS);
      UsedByBoth(page, order, script);
      if LateTwice(Used(script, t.rest)) {
        TwoLateAreInexact(images, gone, page, order, t.images, t.rest);
      } else {
        ExactNext(images, gone, page, order, t.images);
        ExactUnlessLateTwice(images, gone + {order[0]}, t.images, order[1..], t.rest);
      }
    }
  }

  lemma UsedByBoth(page: seq<int>, order: seq<int>, script: seq<Attempt>)
    requires order != [] && Tries(page, order[0], |page| - 1, script, REMOVE_ATTEMPTS).done
    ensures var t := Tries(page, order[0], |page| - 1, script, REMOVE_ATTEMPTS);
            var r := RemoveAll(t.images, |page| - 1, order[1..], t.rest);
            LateTwice(Used(script, r.rest)) <==> LateTwice(Used(script, t.rest)) || LateTwice(Used(t.rest, r.rest))
  {
    var t := Tries(page, order[0], |page| - 1, script, REMOVE_ATTEMPTS);
    ConfirmedTries(page, order[0], script, REMOVE_ATTEMPTS);
    TriesLeave(page, order[0], |page| - 1, script, REMOVE_ATTEMPTS);
    RemovalLeaves(t.images, |page| - 1, order[1..], t.rest);
    LateTwiceSplits(script, t.rest, RemoveAll(t.images, |page| - 1, order[1..], t.rest).rest);
  }

  /** Otherwise the page is that of the next position to be deleted. */
  lemma ExactNext(images: seq<int>, gone: set<int>, page: seq<int>, order: seq<int>, after: seq<int>)
    requires page == Keep(images, gone) && order != [] && StrictlyDescending(order) && Below(order, gone)
    requires 1 <= order[0] <= |page| && after == RemoveAt(page, order[0] - 1)
    ensures after == Keep(images, gone + {order[0]}) && |after| == |page| - 1
    ensures StrictlyDescending(order[1..]) && Below(order[1..], gone + {order[0]})
    ensures gone + {order[0]} + AsSet(order[1..]) == gone + AsSet(order)
  {
    KeepShorter(images, gone);
    assert order[0] in order;
    KeepRemovesNext(images, gone, order[0]);
    RestOfOrder(order, gone);
    FirstsOfOrder(order, gone, |order| - 1);
    assert order[1..][..|order| - 1] == order[1..] && order[..|order|] == order;
  }

  lemma DescendingHead(order: seq<int>, x: int)
    requires StrictlyDescending(order) && x in order
    ensures x <= order[0]
  {
    var i :| 0 <= i < |order| && order[i] == x;
  }

  lemma NextImageIsGone(images: seq<int>, gone: set<int>, k: int)
    requires Distinct(images) && 1 <= k < |Keep(images, gone)|
    ensures var page := Keep(images, gone); page[k] !in RemoveAt(RemoveAt(page, k - 1), k - 1)
  {
    var page := Keep(images, gone);
    KeepDistinct(images, gone);
    assert RemoveAt(RemoveAt(page, k - 1), k - 1) == page[..k - 1] + page[k + 1..];
  }

  /**
   Whatever the page answers, as long as a late deletion lands before the next try: a `done` is exact if and
   only if no two deletions in a row came late among the answers that were used.
   */
  lemma DoneIsExactIff(images: seq<int>, indexes: seq<int>, script: seq<Attempt>)
    requires Distinct(images) && RemoveAll(images, |images|, PlanRemoval(indexes), script).done
    ensures var r := RemoveAll(images, |images|, PlanRemoval(indexes), script);
            r.images == Keep(images, AsSet(indexes)) <==> !LateTwice(Used(script, r.rest))
  {
    var order := PlanRemoval(indexes);
    PlanHasAll(indexes);
    KeepAll(images, {});
    ExactUnlessLateTwice(images, {}, images, order, script);
    assert {} + AsSet(order) == AsSet(order);
  }

  // ---- the tries at one image, click by click ----

  /** How many images the clicks deleted, in time or late. */
  function Deleted(clicks: seq<Attempt>): nat {
    if clicks == [] then 0
    else Deleted(clicks[1..]) + if clicks[0] == Clicked(InTime) || clicks[0] == Clicked(Late) then 1 else 0
  }

  lemma DeletedFirst(script: seq<Attempt>, i: nat)
    requires i < |script|
    ensures Deleted(script[..i + 1])
            == Deleted(script[1..][..i]) + if script[0] == Clicked(InTime) || script[0] == Clicked(Late) then 1 else 0
  {
    assert script[..i + 1][1..] == script[1..][..i];
  }

  /** The wait after click `i` shows `expected` of `n` images: late deletions are seen only by the clicks that follow. */
  predicate Confirms(script: seq<Attempt>, i: nat, n: int, expected: int)
    requires i < |script|
  {
    n - Deleted(script[..i]) - (if script[i] == Clicked(InTime) then 1 else 0) == expected
  }

  /** `d` deletions at the same position take the image there and those that move up to it. */
  predicate LostAt(images: seq<int>, ordinal: int, d: nat, after: seq<int>) {
    if d == 0 then after == images
    else 1 <= ordinal && ordinal - 1 + d <= |images| && after == images[..ordinal - 1] + images[ordinal - 1 + d..]
  }

  lemma LostOneMore(images: seq<int>, ordinal: int, d: nat, after: seq<int>)
    requires 1 <= ordinal <= |images| && LostAt(RemoveAt(images, ordinal - 1), ordinal, d, after)
    ensures LostAt(images, ordinal, d + 1, after)
  {
    var hit := RemoveAt(images, ordinal - 1);
    if d > 0 {
      assert hit[..ordinal - 1] == images[..ordinal - 1] && hit[ordinal - 1 + d..] == images[ordinal + d..];
    }
  }

  /** What the first `k` answers make of one image: each is a click on an image that is there, and none but the last ends the tries. */
  ghost predicate TriedSo(images: seq<int>, ordinal: int, expected: int, script: seq<Attempt>, attempts: nat, k: nat, t: Tried) {
    && k <= attempts && k <= |script| && t.rest == script[k..] && LostAt(images, ordinal, Deleted(script[..k]), t.images)
    && (forall i | 0 <= i < k :: script[i].Clicked? && 1 <= ordinal <= |images| - Deleted(script[..i]))
    && (forall i | 0 <= i < k - 1 :: script[i] != Clicked(Dialog) && !Confirms(script, i, |images|, expected))
    && (t.done <==> k > 0 && Confirms(script, k - 1, |images|, expected))
    && (!t.done ==>
          || k == attempts || k == |script| || script[k].Lost? || !(1 <= ordinal <= |images| - Deleted(script[..k]))
          || (k > 0 && script[k - 1] == Clicked(Dialog)))
  }

  /** The counts of the tries after the first click, seen from before it. */
  lemma CountsShift(n: int, expected: int, script: seq<Attempt>, d: nat, k: nat)
    requires script != [] && k < |script|
    requires d == if script[0] == Clicked(InTime) || script[0] == Clicked(Late) then 1 else 0
    ensures forall i | 0 < i <= k + 1 :: Deleted(script[..i]) == Deleted(script[1..][..i - 1]) + d
    ensures forall i | 0 < i <= k :: Confirms(script, i, n, expected) <==> Confirms(script[1..], i - 1, n - d, expected)
  {
    forall i | 0 < i <= k + 1 ensures Deleted(script[..i]) == Deleted(script[1..][..i - 1]) + d { DeletedFirst(script, i - 1); }
  }

  lemma TriedSoFirst(images: seq<int>, ordinal: int, expected: int, script: seq<Attempt>, attempts: nat, k: nat, t: Tried)
    requires attempts > 0 && script != [] && script[0].Clicked? && 1 <= ordinal <= |images|
    requires script[0] != Clicked(Dialog) && !Confirms(script, 0, |images|, expected)
    requires var later := if script[0].click.Ignored? then images else RemoveAt(images, ordinal - 1);
             TriedSo(later, ordinal, expected, script[1..], attempts - 1, k, t)
    ensures TriedSo(images, ordinal, expected, script, attempts, k + 1, t)
  {
    var later := if script[0].click.Ignored? then images else RemoveAt(images, ordinal - 1);
    var d := if script[0].click.Ignored? then 0 else 1;
    CountsShift(|images|, expected, script, d, k);
    assert |later| == |images| - d;
    if d == 1 { LostOneMore(images, ordinal, Deleted(script[1..][..k]), t.images); }
    assert script[1..][k..] == script[k + 1..];
    assert forall i | 0 < i <= k :: script[i] == script[1..][i - 1];
  }

  /** One image is clicked up to three times, until the page shows the expected count; a dialog or a lost image ends it. */
  lemma {:induction false} TriesExactly(images: seq<int>, ordinal: int, expected: int, script: seq<Attempt>, attempts: nat)
    returns (k: nat)
    ensures TriedSo(images, ordinal, expected, script, attempts, k, Tries(images, ordinal, expected, script, attempts))
  {
    if attempts == 0 || script == [] || script[0].Lost? || !(1 <= ordinal <= |images|) {
      k := 0;
    } else {
      var hit := RemoveAt(images, ordinal - 1);
      assert script[..1] == [script[0]] && script[..1][1..] == [];
      if Confirms(script, 0, |images|, expected) || script[0].click.Dialog? {
        k := 1;
      } else {
        k := TriesExactly(if script[0].click.Ignored? then images else hit, ordinal, expected, script[1..], attempts - 1);
        TriedSoFirst(images, ordinal, expected, script, attempts, k, Tries(images, ordinal, expected, script, attempts));
        k := k + 1;
      }
    }
  }

  /** A page that ignores every click is clicked three times for an image, and then given up. */
  lemma ThreeIgnoredClicks(images: seq<int>, ordinal: int, expected: int, script: seq<Attempt>)
    requires 1 <= ordinal <= |images| && expected != |images| && |script| >= 3
    requires forall a <- script :: a == Clicked(Ignored)
    ensures Tries(images, ordinal, expected, script, REMOVE_ATTEMPTS) == Tried(images, script[3..], false)
  {
    assert script[0] in script && script[1] in script && script[2] in script;
    assert script[1..][0] == script[1] && script[1..][1..] == script[2..] && script[2..][0] == script[2] && script[2..][1..] == script[3..];
    assert Tries(images, ordinal, expected, script[2..], 1) == Tried(images, script[3..], false);
  }

  /** Two slow clicks on position 1 are reported as done and cost two images. */
  lemma LateClicksDeleteTwice()
    ensures var r := RemoveAll([10, 20, 30], 3, PlanRemoval([1]), [Clicked(Late), Clicked(Late)]);
            r.done && r.images == [30] && Keep([10, 20, 30], {1}) == [20, 30]
  {
    var order := PlanRemoval([1]);
    DescendingMeaning(AsSet([1]));
    assert AsSet([1]) == {1} && |order| == 1;
    assert order[0] in order;
    assert order == [1];
    var late := [Clicked(Late), Clicked(Late)];
    assert RemoveAt([10, 20, 30], 0) == [20, 30] && RemoveAt([20, 30], 0) == [30];
    assert late[1..] == [Clicked(Late)];
    assert Tries([20, 30], 1, 2, late[1..], 2) == Tried([30], late[1..][1..], true);
    assert [10, 20, 30][..2] == [10, 20] && [10, 20][..1] == [10];
    assert Keep([10], {1}) == [] && Keep([10, 20], {1}) == [20];
  }

  // ---- the page object ----

  /** The labels of `n` images after a complete redraw. */
  function Numbers(n: nat): seq<int> { seq(n, i => i + 1) }

  /** Both ways of counting agree, and there is something to count. */
  function CountOf(images: seq<int>, labels: seq<int>): Option<nat> {
    if labels != [] && |labels| == |images| && labels == Numbers(|images|) then Some(|images|) else None
  }

  datatype Report = Report(done: bool, removed: nat, countBefore: Option<int>, countAfter: Option<int>)

  class EditorPage {
    var images: seq<int>
    /** The text of each image's container. */
    var labels: seq<int>
    /** How the page will answer the tries to come. */
    var script: seq<Attempt>

    ghost predicate Redrawn() reads this { labels == Numbers(|images|) }

    constructor (images: seq<int>, labels: seq<int>, script: seq<Attempt>)
      ensures this.images == images && this.labels == labels && this.script == script
    {
      this.images, this.labels, this.script := images, labels, script;
    }

    method CountImages() returns (count: Option<nat>)
      ensures count == CountOf(images, labels)
      ensures count.Some? <==> labels != [] && |labels| == |images| && forall i | 0 <= i < |labels| :: labels[i] == i + 1
      ensures count.Some? ==> count.value == |images|
    {
      if |labels| != |images| || labels == [] { return None; }
      for i := 0 to |labels|
        invariant labels[..i] == Numbers(i)
      {
        if labels[i] != i + 1 { return None; }
      }
      assert labels[..|labels|] == labels;
      count := Some(|images|);
    }

    /** The container with this label, if there is exactly one. */
    method PickCard(ordinal: int) returns (hit: Option<nat>)
      ensures hit.Some? <==> exists i :: 0 <= i < |labels| && labels[i] == ordinal && forall j :: 0 <= j < |labels| && labels[j] == ordinal ==> j == i
      ensures hit.Some? ==> hit.value < |labels| && labels[hit.value] == ordinal
    {
      hit := None;
      var hits := 0;
      for i := 0 to |labels|
        invariant hits == 0 <==> forall j :: 0 <= j < i ==> labels[j] != ordinal
        invariant hits >= 0 && (hits > 0 ==> hit.Some? && hit.value < i && labels[hit.value] == ordinal)
        invariant hits == 1 ==> forall j :: 0 <= j < i && labels[j] == ordinal ==> j == hit.value
        invariant hits > 1 ==> exists j, k :: 0 <= j < k < i && labels[j] == ordinal && labels[k] == ordinal
      {
        if labels[i] == ordinal {
          if hits == 0 { hit := Some(i); }
          hits := hits + 1;
        }
      }
      if hits != 1 { hit := None; }
    }

    method RemoveOne(ordinal: int, expected: int) returns (done: bool)
      requires Redrawn()
      modifies this
      ensures Redrawn()
      ensures Tried(images, script, done) == Tries(old(images), ordinal, expected, old(script), REMOVE_ATTEMPTS)
    {
      for attempt := 0 to REMOVE_ATTEMPTS
        invariant Redrawn()
        invariant Tries(images, ordinal, expected, script, REMOVE_ATTEMPTS - attempt)
                  == Tries(old(images), ordinal, expected, old(script), REMOVE_ATTEMPTS)
      {
        var card := PickCard(ordinal);
        CardOfLabel(images, labels, ordinal);
        if script == [] || script[0].Lost? || card.None? { return false; }
        var click := script[0].click;
        script := script[1..];
        if click.InTime? {
          images := RemoveAt(images, card.value);
          labels := Numbers(|images|);
        }
        var confirmed := |images| == expected;
        if click.Late? {
          images := RemoveAt(images, card.value);
          labels := Numbers(|images|);
        }
        if confirmed { return true; }
        if click.Dialog? { return false; }
      }
      done := false;
    }

    /** The loop over the planned positions. */
    method RemoveEach(order: seq<int>, before: nat) returns (removed: nat, done: bool)
      requires Redrawn()
      modifies this
      ensures Redrawn() && Removal(images, removed, done, script) == RemoveAll(old(images), before, order, old(script))
    {
      ghost var all := RemoveAll(images, before, order, script);
      removed := 0;
      assert order[0..] == order;
      for i := 0 to |order|
        invariant Redrawn() && removed == i
        invariant all == Carried(RemoveAll(images, before - i, order[i..], script), removed)
      {
        assert order[i..][1..] == order[i + 1..];
        var one := RemoveOne(order[i], before - i - 1);
        if !one { return removed, false; }
        removed := removed + 1;
      }
      done := true;
    }

    /** A page whose images cannot be counted is not touched; otherwise the loop is the specification's. */
    method RemoveImages(indexes: seq<int>) returns (report: Report)
      modifies this
      ensures CountOf(old(images), old(labels)).None? ==>
                images == old(images) && script == old(script) && report == Report(false, 0, None, None)
      ensures CountOf(old(images), old(labels)).Some? ==>
                && Removal(images, report.removed, report.done, script)
                   == RemoveAll(old(images), |old(images)|, PlanRemoval(indexes), old(script))
                && report.countBefore == Some(|old(images)|)
                && report.countAfter == if report.done then Some(|old(images)| - report.removed) else CountOf(images, labels)
    {
      var before := CountImages();
      if before.None? { return Report(false, 0, None, None); }
      var removed, done := RemoveEach(PlanRemoval(indexes), before.value);
      var seen := CountImages();
      var after: Option<int> := seen;
      if done { after := Some(before.value as int - removed); }
      report := Report(done, removed, before, after);
    }
  }

  /** The removal of the rest, added to what was removed before. */
  function Carried(r: Removal, removed: nat): Removal { Removal(r.images, r.removed + removed, r.done, r.rest) }

  lemma CardOfLabel(images: seq<int>, labels: seq<int>, ordinal: int)
    requires labels == Numbers(|images|)
    ensures forall i :: 0 <= i < |labels| && labels[i] == ordinal ==> i == ordinal - 1
    ensures (exists i :: 0 <= i < |labels| && labels[i] == ordinal) <==> 1 <= ordinal <= |images|
  {
    if 1 <= ordinal <= |images| { assert labels[ordinal - 1] == ordinal; }
  }
}
