/** Dropping blank and repeated keys from a list while it is being collected. */
module Dedup {
  import opened Collections

  predicate HasKey<T>(s: seq<T>, key: T -> string, k: string) { exists i | 0 <= i < |s| :: key(s[i]) == k }

  /** Each element with a non-blank key, at the first occurrence of that key. */
  function Firsts<T>(s: seq<T>, key: T -> string): seq<T> {
    if s == [] then []
    else
      var rest, last := Firsts(s[..|s| - 1], key), s[|s| - 1];
      if key(last) == "" || HasKey(rest, key, key(last)) then rest else rest + [last]
  }

  ghost predicate DistinctKeys<T>(s: seq<T>, key: T -> string) {
    forall i, j :: 0 <= i < j < |s| ==> key(s[i]) != key(s[j])
  }

  lemma FirstsOneMore<T>(s: seq<T>, key: T -> string, x: T)
    ensures Firsts(s + [x], key)
            == if key(x) == "" || HasKey(Firsts(s, key), key, key(x)) then Firsts(s, key) else Firsts(s, key) + [x]
  {
    assert (s + [x])[..|s|] == s;
  }

  /** Exactly the non-blank keys, none twice. */
  lemma {:induction false} FirstsKeys<T>(s: seq<T>, key: T -> string, k: string)
    ensures DistinctKeys(Firsts(s, key), key)
    ensures HasKey(Firsts(s, key), key, k) <==> k != "" && HasKey(s, key, k)
  {
    if s != [] {
      var front, last := s[..|s| - 1], s[|s| - 1];
      FirstsKeys(front, key, k);
      FirstsKeys(front, key, key(last));
      assert s == front + [last];
      var r := Firsts(front, key);
      assert Firsts(s, key) == r || Firsts(s, key) == r + [last];
      HasKeyOneMore(front, last, key, k);
      HasKeyOneMore(r, last, key, k);
    }
  }

  lemma HasKeyOneMore<T>(s: seq<T>, x: T, key: T -> string, k: string)
    ensures HasKey(s + [x], key, k) <==> HasKey(s, key, k) || key(x) == k
  {
    if HasKey(s, key, k) {
      var i :| 0 <= i < |s| && key(s[i]) == k;
      assert key((s + [x])[i]) == k;
    }
    if key(x) == k { assert key((s + [x])[|s|]) == k; }
  }

  /** Later elements never move or replace earlier ones. */
  lemma {:induction false} FirstsGrow<T>(s: seq<T>, t: seq<T>, key: T -> string)
    ensures Firsts(s, key) <= Firsts(s + t, key)
    decreases |t|
  {
    if t == [] {
      assert s + t == s;
    } else {
      FirstsGrow(s, t[..|t| - 1], key);
      assert s + t == (s + t[..|t| - 1]) + [t[|t| - 1]];
      FirstsOneMore(s + t[..|t| - 1], key, t[|t| - 1]);
    }
  }

  /** Of all elements with one key, the first is the one that is kept. */
  lemma FirstsKeepTheFirst<T>(s: seq<T>, key: T -> string, i: nat)
    requires i < |s| && key(s[i]) != "" && !HasKey(s[..i], key, key(s[i]))
    ensures exists j | 0 <= j < |Firsts(s, key)| :: Firsts(s, key)[j] == s[i]
  {
    var front := s[..i];
    FirstsKeys(front, key, key(s[i]));
    FirstsOneMore(front, key, s[i]);
    assert s[..i + 1] == front + [s[i]];
    FirstsGrow(s[..i + 1], s[i + 1..], key);
    assert s == s[..i + 1] + s[i + 1..];
    assert Firsts(s, key)[|Firsts(front, key)|] == s[i];
  }

  /** Distinct keys, distinct places. */
  lemma OnePlacePerKey<T>(s: seq<T>, key: T -> string, i: nat, j: nat)
    requires DistinctKeys(s, key) && i < |s| && j < |s| && key(s[i]) == key(s[j])
    ensures i == j
  {
  }

  /** A list without blank or repeated keys is kept whole. */
  lemma {:induction false} FirstsOfDistinct<T>(s: seq<T>, key: T -> string)
    requires DistinctKeys(s, key) && forall i | 0 <= i < |s| :: key(s[i]) != ""
    ensures Firsts(s, key) == s
  {
    if s != [] {
      var front, last := s[..|s| - 1], s[|s| - 1];
      assert s == front + [last];
      FirstsOfDistinct(front, key);
      forall i | 0 <= i < |front| ensures key(front[i]) != key(last) { assert front[i] == s[i]; }
    }
  }

  /** A collector that has seen `all`: what it keeps, and the keys it remembers. */
  ghost predicate Collects<T>(kept: seq<T>, ids: set<string>, all: seq<T>, key: T -> string) {
    kept == Firsts(all, key) && forall k :: k in ids <==> HasKey(kept, key, k)
  }

  lemma CollectsOneMore<T>(kept: seq<T>, ids: set<string>, all: seq<T>, key: T -> string, x: T)
    requires Collects(kept, ids, all, key)
    ensures if key(x) == "" || key(x) in ids then Collects(kept, ids, all + [x], key)
            else Collects(kept + [x], ids + {key(x)}, all + [x], key)
  {
    FirstsOneMore(all, key, x);
    if key(x) != "" && key(x) !in ids {
      forall k ensures k in ids + {key(x)} <==> HasKey(kept + [x], key, k) { HasKeyOneMore(kept, x, key, k); }
    }
  }

  /** Concatenation of pages. */
  function Concat<T>(pages: seq<seq<T>>): seq<T> {
    if pages == [] then [] else Concat(pages[..|pages| - 1]) + pages[|pages| - 1]
  }

  lemma ConcatOneMore<T>(pages: seq<seq<T>>, page: seq<T>)
    ensures Concat(pages + [page]) == Concat(pages) + page
  {
    assert (pages + [page])[..|pages|] == pages;
  }
}
