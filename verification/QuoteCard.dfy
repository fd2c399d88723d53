/**
 Choosing the card of the note to be quoted. The dialog renders only some of the account's notes, in
 order; which ones is not told, so the choice rests on titles and on arithmetic over positions.
 */
module QuoteCard {
  import opened Collections
  import opened Dedup
  import opened Text
  import opened TopicText

  datatype Note = Note(id: string, title: string)

  function IdOf(n: Note): string { Strip(n.id) }

  // ---- the candidates ----

  function After<T>(pages: seq<T>, seen: nat): (r: seq<T>)
    ensures |r| == (if seen <= |pages| then |pages| - seen else 0) && forall i | 0 <= i < |r| :: r[i] == pages[seen + i]
  {
    if seen <= |pages| then pages[seen..] else []
  }

  /** Adds one page to what was collected from the notes `before`. */
  method AddPage(merged: seq<Note>, seenIds: set<string>, page: seq<Note>, ghost before: seq<Note>)
    returns (more: seq<Note>, ids: set<string>)
    requires Collects(merged, seenIds, before, IdOf)
    ensures Collects(more, ids, before + page, IdOf)
  {
    more, ids := merged, seenIds;
    assert before + page[..0] == before;
    for j := 0 to |page|
      invariant Collects(more, ids, before + page[..j], IdOf)
    {
      var note := page[j];
      assert before + page[..j + 1] == (before + page[..j]) + [note];
      CollectsOneMore(more, ids, before + page[..j], IdOf, note);
      if IdOf(note) == "" || IdOf(note) in ids { continue; }
      more, ids := more + [note], ids + {IdOf(note)};
    }
    assert page[..|page|] == page;
  }

  /** The pages that arrived after the first `seen`, without repetition. */
  method MergeCandidateNotes(pages: seq<seq<Note>>, seen: nat) returns (merged: seq<Note>)
    ensures merged == Firsts(Concat(After(pages, seen)), IdOf)
  {
    merged := [];
    var ids: set<string> := {};
    var rest := After(pages, seen);
    for i := 0 to |rest|
      invariant Collects(merged, ids, Concat(rest[..i]), IdOf)
    {
      assert rest[..i + 1] == rest[..i] + [rest[i]];
      ConcatOneMore(rest[..i], rest[i]);
      merged, ids := AddPage(merged, ids, rest[i], Concat(rest[..i]));
    }
    assert rest[..|rest|] == rest;
  }

  /** The note asked for, by number; among merged candidates there is at most one. */
  function FindNote(notes: seq<Note>, id: string): Option<nat> {
    if notes == [] then None
    else if IdOf(notes[0]) == id then Some(0)
    else match FindNote(notes[1..], id) case None => None case Some(i) => Some(i + 1)
  }

  lemma {:induction false} FoundNote(notes: seq<Note>, id: string)
    ensures FindNote(notes, id).Some? <==> HasKey(notes, IdOf, id)
    ensures FindNote(notes, id).Some? ==> FindNote(notes, id).value < |notes| && IdOf(notes[FindNote(notes, id).value]) == id
  {
    if notes != [] {
      FoundNote(notes[1..], id);
      assert notes == [notes[0]] + notes[1..];
      if i :| 0 <= i < |notes| && IdOf(notes[i]) == id && i > 0 { assert IdOf(notes[1..][i - 1]) == id; }
    }
  }

  /** The note is found among the merged pages exactly if one of the new pages lists it, and then it is the only one with its number. */
  lemma CandidateIsUnique(pages: seq<seq<Note>>, seen: nat, id: string)
    requires id != ""
    ensures var all := Concat(After(pages, seen));
            var merged := Firsts(all, IdOf);
            && (FindNote(merged, id).Some? <==> exists i | 0 <= i < |all| :: Strip(all[i].id) == id)
            && forall i | 0 <= i < |merged| && Strip(merged[i].id) == id :: FindNote(merged, id) == Some(i)
  {
    var all := Concat(After(pages, seen));
    var merged := Firsts(all, IdOf);
    FirstsKeys(all, IdOf, id);
    FoundNote(merged, id);
    if i :| 0 <= i < |all| && Strip(all[i].id) == id { assert IdOf(all[i]) == id; }
    if i :| 0 <= i < |all| && IdOf(all[i]) == id { assert Strip(all[i].id) == id; }
    forall i | 0 <= i < |merged| && Strip(merged[i].id) == id ensures FindNote(merged, id) == Some(i) {
      assert IdOf(merged[i]) == id;
      OnePlacePerKey(merged, IdOf, i, FindNote(merged, id).value);
    }
  }

  // ---- the choice ----

  predicate Shown(cards: seq<string>, title: string) { exists r <- cards :: Contains(r, title) }

  /** A note that is certainly not rendered: it has a title and no card shows it. */
  predicate Absent(cards: seq<string>, note: Note) { note.title != "" && !Shown(cards, note.title) }

  function AbsentBefore(cards: seq<string>, notes: seq<Note>, n: nat): nat
    requires n <= |notes|
  {
    if n == 0 then 0 else AbsentBefore(cards, notes, n - 1) + if Absent(cards, notes[n - 1]) then 1 else 0
  }

  /** The card of an untitled note, by position, or nothing if the arithmetic does not come out. */
  function PickUntitledCard(cards: seq<string>, notes: seq<Note>, index: nat): Option<nat>
    requires index < |notes|
  {
    var excluded := |notes| - |cards|;
    if excluded < 0 || AbsentBefore(cards, notes, |notes|) != excluded then None
    else
      var i := index - AbsentBefore(cards, notes, index);
      if 0 <= i < |cards| then Some(i) else None
  }

  function Hits(cards: seq<string>, title: string, n: nat): seq<nat>
    requires n <= |cards|
  {
    if n == 0 then [] else Hits(cards, title, n - 1) + if Contains(cards[n - 1], title) then [n - 1] else []
  }

  function PickCard(cards: seq<string>, notes: seq<Note>, index: nat): Option<nat>
    requires index < |notes|
  {
    var title := notes[index].title;
    if title == "" then PickUntitledCard(cards, notes, index)
    else
      var hits := Hits(cards, title, |cards|);
      if |hits| == 1 then Some(hits[0]) else None
  }

  // ---- the truth about the dialog ----

  /** How many of the first `n` notes are rendered: the position of the card of note `n` if it is rendered. */
  function Rank(rendered: seq<bool>, n: nat): nat
    requires n <= |rendered|
  {
    if n == 0 then 0 else Rank(rendered, n - 1) + if rendered[n - 1] then 1 else 0
  }

  /** The cards are those of the rendered notes, in order, and each shows its note's title. */
  ghost predicate Faithful(cards: seq<string>, notes: seq<Note>, rendered: seq<bool>) {
    && |rendered| == |notes| && |cards| == Rank(rendered, |notes|)
    && forall i :: 0 <= i < |notes| && rendered[i] ==> Rank(rendered, i) < |cards| && Contains(cards[Rank(rendered, i)], notes[i].title)
  }

  predicate RightCard(rendered: seq<bool>, index: nat, card: nat)
    requires index < |rendered|
  {
    rendered[index] && card == Rank(rendered, index)
  }

  /** Every note that is not rendered has a title that no card shows. */
  predicate AllIdentified(cards: seq<string>, notes: seq<Note>, rendered: seq<bool>)
    requires |rendered| == |notes|
  {
    forall i :: 0 <= i < |notes| && !rendered[i] ==> Absent(cards, notes[i])
  }

  lemma RenderedIsNotAbsent(cards: seq<string>, notes: seq<Note>, rendered: seq<bool>, i: nat)
    requires Faithful(cards, notes, rendered) && i < |notes| && rendered[i]
    ensures !Absent(cards, notes[i])
  {
    assert cards[Rank(rendered, i)] in cards;
  }

  /** Absent notes are never more than unrendered ones, and exactly as many only if all are identified. */
  lemma {:induction false} AbsentCount(cards: seq<string>, notes: seq<Note>, rendered: seq<bool>, n: nat)
    requires Faithful(cards, notes, rendered) && n <= |notes|
    ensures AbsentBefore(cards, notes, n) <= n - Rank(rendered, n)
    ensures AbsentBefore(cards, notes, n) == n - Rank(rendered, n) <==> forall i :: 0 <= i < n && !rendered[i] ==> Absent(cards, notes[i])
  {
    if n > 0 {
      AbsentCount(cards, notes, rendered, n - 1);
      if rendered[n - 1] { RenderedIsNotAbsent(cards, notes, rendered, n - 1); }
    }
  }

  /** For an untitled note: a card is returned exactly if every note that is not rendered is identified, and it is the right one. */
  lemma UntitledChoiceIsRight(cards: seq<string>, notes: seq<Note>, rendered: seq<bool>, index: nat)
    requires Faithful(cards, notes, rendered) && index < |notes| && notes[index].title == ""
    ensures PickCard(cards, notes, index).Some? <==> AllIdentified(cards, notes, rendered)
    ensures PickCard(cards, notes, index).Some? ==> RightCard(rendered, index, PickCard(cards, notes, index).value)
  {
    AbsentCount(cards, notes, rendered, |notes|);
    AbsentCount(cards, notes, rendered, index);
    if AllIdentified(cards, notes, rendered) {
      assert rendered[index];
    }
  }

  lemma {:induction false} HitsMeaning(cards: seq<string>, title: string, n: nat)
    requires n <= |cards|
    ensures Distinct(Hits(cards, title, n)) && forall c :: c in Hits(cards, title, n) <==> 0 <= c < n && Contains(cards[c], title)
  {
    if n > 0 { HitsMeaning(cards, title, n - 1); }
  }

  lemma OtherHit(hits: seq<nat>, r: nat)
    requires Distinct(hits) && |hits| > 1
    ensures exists c :: c in hits && c != r
  {
    assert hits[0] in hits && hits[1] in hits && hits[0] != hits[1];
  }

  /** For a titled note: a card that is returned is the right one exactly if the note is rendered. */
  lemma TitledChoiceIsRightIffRendered(cards: seq<string>, notes: seq<Note>, rendered: seq<bool>, index: nat)
    requires Faithful(cards, notes, rendered) && index < |notes| && notes[index].title != ""
    ensures PickCard(cards, notes, index).Some? ==>
              (RightCard(rendered, index, PickCard(cards, notes, index).value) <==> rendered[index])
    ensures rendered[index] ==>
              (PickCard(cards, notes, index).Some?
               <==> forall c :: 0 <= c < |cards| && Contains(cards[c], notes[index].title) ==> c == Rank(rendered, index))
  {
    var title := notes[index].title;
    var hits := Hits(cards, title, |cards|);
    HitsMeaning(cards, title, |cards|);
    if rendered[index] {
      var r := Rank(rendered, index);
      assert r in hits;
      if |hits| == 1 { assert hits[0] == r; forall c | 0 <= c < |cards| && Contains(cards[c], title) ensures c == r { assert c in hits; } }
      if forall c :: 0 <= c < |cards| && Contains(cards[c], title) ==> c == r {
        if |hits| > 1 { OtherHit(hits, r); }
      }
    }
  }

  /** Whatever the dialog shows, a card that is returned exists; for a titled note it is the only one that shows the title. */
  lemma ChosenCardExists(cards: seq<string>, notes: seq<Note>, index: nat)
    requires index < |notes|
    ensures var card, title := PickCard(cards, notes, index), notes[index].title;
            card.Some? ==> card.value < |cards| && (title != "" ==> forall c | 0 <= c < |cards| :: Contains(cards[c], title) <==> c == card.value)
  {
    var title := notes[index].title;
    if title != "" {
      var hits := Hits(cards, title, |cards|);
      HitsMeaning(cards, title, |cards|);
      if |hits| == 1 {
        assert hits[0] in hits;
        forall c | 0 <= c < |cards| ensures Contains(cards[c], title) <==> c == hits[0] { assert c in hits <==> c == hits[0]; }
      }
    }
  }

  /** A titled note that is not rendered may be mistaken for one whose title contains its own. */
  lemma UnrenderedTitleMisleads()
    ensures var notes := [Note("1", "ab"), Note("2", "abc")];
            var cards, rendered := ["abc"], [false, true];
            Faithful(cards, notes, rendered) && PickCard(cards, notes, 0) == Some(0) && RightCard(rendered, 1, 0)
  {
    var cards := ["abc"];
    assert OccursAt("abc", "ab", 0) && OccursAt("abc", "abc", 0);
    assert Contains("abc", "ab") && Contains("abc", "abc");
    assert Rank([false, true], 1) == 0 && Rank([false, true], 2) == 1;
    assert Hits(cards, "ab", 0) == [] && Hits(cards, "ab", 1) == [0];
  }
}
