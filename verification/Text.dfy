/** Substrings, and cutting a string at the first of some characters. */
module Text {

  predicate OccursAt(text: string, part: string, k: nat) {
    k + |part| <= |text| && text[k..k + |part|] == part
  }

  /** `part` occurs somewhere in `text`. */
  predicate Contains(text: string, part: string) {
    exists k: nat | k <= |text| :: OccursAt(text, part, k)
  }

  lemma ContainsAt(text: string, part: string, k: nat)
    requires OccursAt(text, part, k)
    ensures Contains(text, part)
  {
  }

  /** What a piece of a text contains, the text contains. */
  lemma ContainsWithin(before: string, text: string, after: string, part: string)
    requires Contains(text, part)
    ensures Contains(before + text + after, part)
  {
    var k: nat :| k <= |text| && OccursAt(text, part, k);
    assert (before + text + after)[|before| + k..|before| + k + |part|] == part;
    ContainsAt(before + text + after, part, |before| + k);
  }

  /** A part that does not have the separating character lies on one side of it. */
  lemma ContainsApart(a: string, c: char, b: string, part: string)
    requires c !in part && Contains(a + [c] + b, part)
    ensures Contains(a, part) || Contains(b, part)
  {
    var s := a + [c] + b;
    var k: nat :| k <= |s| && OccursAt(s, part, k);
    forall j | k <= j < k + |part| ensures s[j] != c {
      assert s[j] == s[k..k + |part|][j - k] == part[j - k];
      assert part[j - k] in part;
    }
    assert s[|a|] == c;
    if k + |part| <= |a| {
      assert a[k..k + |part|] == s[k..k + |part|];
      ContainsAt(a, part, k);
    } else {
      assert b[k - |a| - 1..k - |a| - 1 + |part|] == s[k..k + |part|];
      ContainsAt(b, part, k - |a| - 1);
    }
  }

  /** The position of the first character that is one of `stops`, or the length. */
  function Until(s: string, stops: set<char>): (n: nat)
    ensures n <= |s| && (n < |s| ==> s[n] in stops) && forall i | 0 <= i < n :: s[i] !in stops
  {
    if s == "" || s[0] in stops then 0 else 1 + Until(s[1..], stops)
  }

  predicate Free(s: string, stops: set<char>) { forall i | 0 <= i < |s| :: s[i] !in stops }

  lemma UntilAt(a: string, b: string, stops: set<char>)
    requires Free(a, stops) && (b == "" || b[0] in stops)
    ensures Until(a + b, stops) == |a|
  {
    forall i | 0 <= i < |a| ensures (a + b)[i] !in stops { assert (a + b)[i] == a[i]; }
    if b != "" { assert (a + b)[|a|] == b[0]; }
  }
}
