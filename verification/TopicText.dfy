/** Topic chips in a note body, and the normalisation that writes neighbouring chips without a gap. */
module TopicText {

  /** What the regular expression's white-space class and `strip` accept. */
  predicate IsSpace(c: char) {
    || '\U{9}' <= c <= '\U{D}' || '\U{1C}' <= c <= '\U{20}' || c == '\U{85}' || c == '\U{A0}' || c == '\U{1680}'
    || '\U{2000}' <= c <= '\U{200A}' || c == '\U{2028}' || c == '\U{2029}' || c == '\U{202F}' || c == '\U{205F}' || c == '\U{3000}'
  }

  predicate IsNameChar(c: char) { c != '#' && c != '[' && c != ']' }

  const MARKER := "[话题]#"
  /** The marker without its first character; no separator can begin inside it. */
  const MARKER_REST := "话题]#"

  // ---- chips ----

  /** `s` begins with name characters, possibly none, and then the marker. */
  predicate Closes(s: string) {
    MARKER <= s || (s != "" && IsNameChar(s[0]) && Closes(s[1..]))
  }

  /** A whole chip `#name[话题]#` stands at the front of `s`. */
  predicate HasChip(s: string) {
    |s| >= 2 && s[0] == '#' && IsNameChar(s[1]) && Closes(s[2..])
  }

  /** The length of the name in front of the marker. */
  function NameLength(s: string): (n: nat)
    requires Closes(s)
    ensures n + |MARKER| <= |s| && MARKER <= s[n..]
  {
    if MARKER <= s then 0 else 1 + NameLength(s[1..])
  }

  function ChipName(s: string): string
    requires HasChip(s)
  {
    s[1..2 + NameLength(s[2..])]
  }

  function AfterChip(s: string): (r: string)
    requires HasChip(s)
    ensures |r| < |s|
  {
    s[2 + NameLength(s[2..]) + |MARKER|..]
  }

  function StripLeft(s: string): string {
    if s != "" && IsSpace(s[0]) then StripLeft(s[1..]) else s
  }

  function StripRight(s: string): string {
    if s != "" && IsSpace(s[|s| - 1]) then StripRight(s[..|s| - 1]) else s
  }

  function Strip(s: string): string { StripRight(StripLeft(s)) }

  /** The chip names, leftmost first and without overlap, stripped, blank ones left out. */
  function ExtractTopics(body: string): seq<string>
    decreases |body|
  {
    if body == "" then []
    else if HasChip(body) then
      var name := Strip(ChipName(body));
      (if name == "" then [] else [name]) + ExtractTopics(AfterChip(body))
    else ExtractTopics(body[1..])
  }

  // ---- separators ----

  /** `s` after its leading white space. */
  function SkipSpace(s: string): (r: string)
    ensures |r| <= |s| && (r == s <==> s == "" || !IsSpace(s[0]))
    ensures r != "" ==> !IsSpace(r[0])
  {
    if s != "" && IsSpace(s[0]) then SkipSpace(s[1..]) else s
  }

  /** White space, at least one character, and then a whole chip. */
  predicate GapThenChip(s: string) {
    SkipSpace(s) != s && HasChip(SkipSpace(s))
  }

  /** The end of a chip, a gap, and a whole chip: the place where the substitution applies. */
  predicate HasSeparator(s: string) {
    MARKER <= s && GapThenChip(s[|MARKER|..])
  }

  function NormalizeSeparators(body: string): string
    decreases |body|
  {
    if body == "" then ""
    else if HasSeparator(body) then MARKER + NormalizeSeparators(SkipSpace(body[|MARKER|..]))
    else [body[0]] + NormalizeSeparators(body[1..])
  }

  // ---- normalisation keeps everything that is not a gap ----

  lemma NormKeepsHead(s: string)
    requires s != ""
    ensures NormalizeSeparators(s) != "" && NormalizeSeparators(s)[0] == s[0]
  {
  }

  /** A front part without `[` is left alone. */
  lemma {:induction false} NormKeepsPlain(p: string, t: string)
    requires '[' !in p
    ensures NormalizeSeparators(p + t) == p + NormalizeSeparators(t)
  {
    if p == "" {
      assert p + t == t;
    } else {
      assert (p + t)[0] == p[0] && (p + t)[1..] == p[1..] + t;
      assert p[0] in p;
      NormKeepsPlain(p[1..], t);
    }
  }

  /** A front part without `[` is there after normalisation exactly when it was there before. */
  lemma {:induction false} NormReflectsPlain(p: string, s: string)
    requires '[' !in p
    ensures p <= NormalizeSeparators(s) <==> p <= s
  {
    if p != "" && s != "" {
      assert p[0] in p;
      NormKeepsHead(s);
      if s[0] == p[0] {
        assert NormalizeSeparators(s)[1..] == NormalizeSeparators(s[1..]);
        NormReflectsPlain(p[1..], s[1..]);
        PrefixStep(p, s);
        PrefixStep(p, NormalizeSeparators(s));
      }
    }
  }

  lemma PrefixStep(p: string, s: string)
    requires p != "" && s != "" && p[0] == s[0]
    ensures p <= s <==> p[1..] <= s[1..]
  {
    if p[1..] <= s[1..] {
      forall i | 0 <= i < |p| ensures p[i] == s[i] {
        if i > 0 { assert p[i] == p[1..][i - 1] && s[i] == s[1..][i - 1]; }
      }
    }
  }

  /** The text behind a marker, without the gap if a chip follows it. */
  function Closed(t: string): (r: string)
    ensures |r| <= |t|
  {
    if GapThenChip(t) then SkipSpace(t) else t
  }

  lemma NormAfterMarker(t: string)
    ensures NormalizeSeparators(MARKER + t) == MARKER + NormalizeSeparators(Closed(t))
  {
    var s := MARKER + t;
    assert s[|MARKER|..] == t;
    if !GapThenChip(t) {
      assert s[1..] == MARKER_REST + t;
      NormKeepsPlain(MARKER_REST, t);
      assert ['['] + (MARKER_REST + NormalizeSeparators(t)) == MARKER + NormalizeSeparators(t);
    }
  }

  lemma {:induction false} NormKeepsMarker(s: string)
    ensures MARKER <= NormalizeSeparators(s) <==> MARKER <= s
  {
    if MARKER <= s {
      assert s == MARKER + s[|MARKER|..];
      NormAfterMarker(s[|MARKER|..]);
    } else if s != "" && s[0] == '[' {
      NormReflectsPlain(MARKER_REST, s[1..]);
      assert MARKER[1..] == MARKER_REST && NormalizeSeparators(s)[1..] == NormalizeSeparators(s[1..]);
      PrefixStep(MARKER, s);
      PrefixStep(MARKER, NormalizeSeparators(s));
    } else if s != "" {
      NormKeepsHead(s);
    }
  }

  lemma {:induction false} NormKeepsClosing(s: string)
    ensures Closes(NormalizeSeparators(s)) <==> Closes(s)
  {
    NormKeepsMarker(s);
    if s != "" {
      NormKeepsHead(s);
      if IsNameChar(s[0]) { NormKeepsClosing(s[1..]); }
    }
  }

  /** Whether a chip stands at the front does not change. */
  lemma NormKeepsChips(s: string)
    ensures HasChip(NormalizeSeparators(s)) <==> HasChip(s)
  {
    if s != "" {
      NormKeepsHead(s);
      if s[0] == '#' {
        var u, n := s[1..], NormalizeSeparators(s[1..]);
        assert NormalizeSeparators(s) == ['#'] + n && n == NormalizeSeparators(s)[1..];
        if u != "" {
          NormKeepsHead(u);
          if IsNameChar(u[0]) {
            NormKeepsClosing(u[1..]);
            assert n[1..] == NormalizeSeparators(u[1..]) && u[1..] == s[2..] && n[1..] == NormalizeSeparators(s)[2..];
          }
        }
      }
    }
  }

  // ---- reading topics from a chip, a marker and a gap ----

  predicate IsName(name: string) { name != "" && forall c <- name :: IsNameChar(c) }

  lemma HeadApart(s: string, name: string, after: string)
    requires s != "" && s[1..] == name + MARKER + after
    ensures s == [s[0]] + name + MARKER + after
  {
    assert s == [s[0]] + s[1..];
  }

  lemma {:induction false} ClosingSplit(s: string)
    requires Closes(s)
    ensures var n := NameLength(s); s == s[..n] + MARKER + s[n + |MARKER|..] && forall c <- s[..n] :: IsNameChar(c)
  {
    if !(MARKER <= s) {
      var tail := s[1..];
      var n := NameLength(tail);
      ClosingSplit(tail);
      HeadApart(s, tail[..n], tail[n + |MARKER|..]);
      assert s[..n + 1] == [s[0]] + tail[..n];
      assert tail[n + |MARKER|..] == s[n + 1 + |MARKER|..];
    }
  }

  lemma {:induction false} ClosingJoin(name: string, t: string)
    requires forall c <- name :: IsNameChar(c)
    ensures Closes(name + MARKER + t) && NameLength(name + MARKER + t) == |name|
  {
    var s := name + MARKER + t;
    if name == "" {
      assert MARKER <= s;
    } else {
      assert s[0] == name[0] && name[0] in name && s[1..] == name[1..] + MARKER + t;
      ClosingJoin(name[1..], t);
    }
  }

  /** Two characters in front of a split. */
  lemma HeadsApart(s: string, name: string, after: string, n: nat)
    requires |s| >= 2 && n <= |s[2..]| && s[2..] == s[2..][..n] + MARKER + after && name == [s[1]] + s[2..][..n]
    ensures s == [s[0]] + name + MARKER + after
  {
    assert s == [s[0]] + [s[1]] + s[2..];
  }

  lemma ChipSplit(s: string)
    requires HasChip(s)
    ensures IsName(ChipName(s)) && s == "#" + ChipName(s) + MARKER + AfterChip(s)
  {
    var tail := s[2..];
    ClosingSplit(tail);
    HeadsApart(s, ChipName(s), AfterChip(s), NameLength(tail));
  }

  lemma ChipJoin(name: string, t: string)
    requires IsName(name)
    ensures var s := "#" + name + MARKER + t; HasChip(s) && ChipName(s) == name && AfterChip(s) == t
  {
    var s := "#" + name + MARKER + t;
    assert s[1] == name[0] && name[0] in name;
    assert s[2..] == name[1..] + MARKER + t;
    ClosingJoin(name[1..], t);
  }

  function TopicOf(name: string): seq<string> { if Strip(name) == "" then [] else [Strip(name)] }

  lemma ExtractFromChip(name: string, t: string)
    requires IsName(name)
    ensures ExtractTopics("#" + name + MARKER + t) == TopicOf(name) + ExtractTopics(t)
  {
    ChipJoin(name, t);
  }

  lemma {:induction false} ExtractSkipsSpace(t: string)
    ensures ExtractTopics(SkipSpace(t)) == ExtractTopics(t)
  {
    if t != "" && IsSpace(t[0]) { ExtractSkipsSpace(t[1..]); }
  }

  lemma ExtractSkips(c: char, t: string)
    requires !HasChip([c] + t)
    ensures ExtractTopics([c] + t) == ExtractTopics(t)
  {
    assert ([c] + t)[1..] == t;
  }

  /** A marker whose last character does not begin a chip yields nothing itself. */
  lemma ExtractFromMarker(t: string)
    requires t == "" || !IsNameChar(t[0]) || !Closes(t[1..])
    ensures ExtractTopics(MARKER + t) == ExtractTopics(t)
  {
    assert (['#'] + t)[1..] == t;
    if t != "" { assert (['#'] + t)[2..] == t[1..]; }
    var rest := ['#'] + t;
    ExtractSkips('#', t);
    ExtractSkips(']', rest);
    ExtractSkips('题', [']'] + rest);
    ExtractSkips('话', ['题'] + ([']'] + rest));
    ExtractSkips('[', ['话'] + (['题'] + ([']'] + rest)));
    assert MARKER + t == ['['] + (['话'] + (['题'] + ([']'] + rest)));
  }

  lemma {:induction false} GapDoesNotClose(g: string)
    requires HasChip(SkipSpace(g))
    ensures !Closes(g)
  {
    if IsSpace(g[0]) { GapDoesNotClose(g[1..]); }
  }

  // ---- main results ----

  lemma SeparatorKeepsTopics(body: string)
    requires HasSeparator(body)
    ensures var rest := SkipSpace(body[|MARKER|..]);
            && ExtractTopics(body) == ExtractTopics(rest)
            && ExtractTopics(NormalizeSeparators(body)) == ExtractTopics(NormalizeSeparators(rest))
  {
    var gap := body[|MARKER|..];
    var rest := SkipSpace(gap);
    assert body == MARKER + gap;
    GapDoesNotClose(gap[1..]);
    ExtractFromMarker(gap);
    ExtractSkipsSpace(gap);
    NormKeepsHead(rest);
    ExtractFromMarker(NormalizeSeparators(rest));
  }

  lemma NormOfChip(name: string, t: string)
    requires IsName(name)
    ensures NormalizeSeparators("#" + name + MARKER + t) == "#" + name + MARKER + NormalizeSeparators(Closed(t))
  {
    var front := "#" + name;
    NormKeepsPlain(front, MARKER + t);
    NormAfterMarker(t);
    Grouped(front, MARKER, t);
    Grouped(front, MARKER, NormalizeSeparators(Closed(t)));
  }

  lemma Grouped(a: string, b: string, c: string)
    ensures a + b + c == a + (b + c)
  {
  }

  lemma ChipKeepsTopics(body: string)
    requires HasChip(body)
    ensures var topic, t := TopicOf(ChipName(body)), AfterChip(body);
            && ExtractTopics(body) == topic + ExtractTopics(Closed(t))
            && ExtractTopics(NormalizeSeparators(body)) == topic + ExtractTopics(NormalizeSeparators(Closed(t)))
  {
    var name, t := ChipName(body), AfterChip(body);
    ChipSplit(body);
    NormOfChip(name, t);
    ExtractFromChip(name, t);
    ExtractFromChip(name, NormalizeSeparators(Closed(t)));
    ExtractSkipsSpace(t);
  }

  lemma OtherKeepsTopics(body: string)
    requires body != "" && !HasSeparator(body) && !HasChip(body)
    ensures ExtractTopics(body) == ExtractTopics(body[1..])
    ensures ExtractTopics(NormalizeSeparators(body)) == ExtractTopics(NormalizeSeparators(body[1..]))
  {
    NormKeepsChips(body);
    assert NormalizeSeparators(body)[1..] == NormalizeSeparators(body[1..]);
  }

  /** Normalisation keeps the list of topics. */
  lemma {:induction false} NormKeepsTopics(body: string)
    ensures ExtractTopics(NormalizeSeparators(body)) == ExtractTopics(body)
    decreases |body|
  {
    if body == "" {
    } else if HasSeparator(body) {
      SeparatorKeepsTopics(body);
      NormKeepsTopics(SkipSpace(body[|MARKER|..]));
    } else if HasChip(body) {
      ChipKeepsTopics(body);
      NormKeepsTopics(Closed(AfterChip(body)));
    } else {
      OtherKeepsTopics(body);
      NormKeepsTopics(body[1..]);
    }
  }

  /** `b` is `a` without some of its white space. */
  predicate OnlySpaceDeleted(a: string, b: string) {
    if a == "" then b == ""
    else (b != "" && a[0] == b[0] && OnlySpaceDeleted(a[1..], b[1..])) || (IsSpace(a[0]) && OnlySpaceDeleted(a[1..], b))
  }

  lemma {:induction false} DeletedInFront(a: string, p: string, b: string)
    requires OnlySpaceDeleted(a, b)
    ensures OnlySpaceDeleted(p + a, p + b)
  {
    if p == "" {
      assert p + a == a && p + b == b;
    } else {
      assert (p + a)[1..] == p[1..] + a && (p + b)[1..] == p[1..] + b;
      DeletedInFront(a, p[1..], b);
    }
  }

  lemma {:induction false} DeletedGap(g: string, b: string)
    requires OnlySpaceDeleted(SkipSpace(g), b)
    ensures OnlySpaceDeleted(g, b)
  {
    if g != "" && IsSpace(g[0]) { DeletedGap(g[1..], b); }
  }

  lemma {:induction false} DeletedIsShorter(a: string, b: string)
    requires OnlySpaceDeleted(a, b)
    ensures |b| <= |a|
  {
    if a != "" {
      if b != "" && a[0] == b[0] && OnlySpaceDeleted(a[1..], b[1..]) { DeletedIsShorter(a[1..], b[1..]); } else { DeletedIsShorter(a[1..], b); }
    }
  }

  /** Nothing but white space is deleted, and nothing is added. */
  lemma {:induction false} NormDeletesOnlySpace(body: string)
    ensures OnlySpaceDeleted(body, NormalizeSeparators(body)) && |NormalizeSeparators(body)| <= |body|
    decreases |body|
  {
    if body != "" {
      if HasSeparator(body) {
        var gap := body[|MARKER|..];
        NormDeletesOnlySpace(SkipSpace(gap));
        DeletedGap(gap, NormalizeSeparators(SkipSpace(gap)));
        DeletedInFront(gap, MARKER, NormalizeSeparators(SkipSpace(gap)));
        assert body == MARKER + gap;
      } else {
        NormDeletesOnlySpace(body[1..]);
      }
    }
    DeletedIsShorter(body, NormalizeSeparators(body));
  }

  lemma {:induction false} NormKeepsGaps(t: string)
    ensures GapThenChip(NormalizeSeparators(t)) <==> GapThenChip(t)
    ensures SkipSpace(NormalizeSeparators(t)) == NormalizeSeparators(SkipSpace(t))
  {
    if t != "" {
      NormKeepsHead(t);
      if IsSpace(t[0]) {
        assert NormalizeSeparators(t)[1..] == NormalizeSeparators(t[1..]);
        NormKeepsGaps(t[1..]);
        NormKeepsChips(SkipSpace(t));
      }
    }
  }

  lemma NormKeepsSeparators(s: string)
    requires !HasSeparator(s)
    ensures !HasSeparator(NormalizeSeparators(s))
  {
    NormKeepsMarker(s);
    if MARKER <= s {
      var t := s[|MARKER|..];
      assert s == MARKER + t;
      NormAfterMarker(t);
      assert NormalizeSeparators(s)[|MARKER|..] == NormalizeSeparators(t);
      NormKeepsGaps(t);
    }
  }

  /** Normalising twice is normalising once. */
  lemma {:induction false} NormTwice(body: string)
    ensures NormalizeSeparators(NormalizeSeparators(body)) == NormalizeSeparators(body)
    decreases |body|
  {
    if body != "" {
      var n := NormalizeSeparators(body);
      if HasSeparator(body) {
        var rest := SkipSpace(body[|MARKER|..]);
        NormKeepsHead(rest);
        NormAfterMarker(NormalizeSeparators(rest));
        NormTwice(rest);
      } else {
        NormKeepsSeparators(body);
        assert n[0] == body[0] && n[1..] == NormalizeSeparators(body[1..]);
        NormTwice(body[1..]);
      }
    }
  }

  /** A body is its own normal form exactly when it has no gap between two chips. */
  lemma {:induction false} NormalExactlyWithoutSeparators(body: string)
    ensures NormalizeSeparators(body) == body <==> forall i | 0 <= i <= |body| :: !HasSeparator(body[i..])
    decreases |body|
  {
    assert body[0..] == body;
    if body == "" {
    } else if HasSeparator(body) {
      NormDeletesOnlySpace(SkipSpace(body[|MARKER|..]));
    } else {
      NormalExactlyWithoutSeparators(body[1..]);
      assert NormalizeSeparators(body) == [body[0]] + NormalizeSeparators(body[1..]);
      forall i | 0 <= i <= |body| ensures i > 0 ==> body[i..] == body[1..][i - 1..] {}
      if forall i | 0 <= i <= |body[1..]| :: !HasSeparator(body[1..][i..]) {
        forall i | 0 <= i <= |body| ensures !HasSeparator(body[i..]) {
          if i > 0 { assert body[i..] == body[1..][i - 1..]; }
        }
      } else {
        var i :| 0 <= i <= |body[1..]| && HasSeparator(body[1..][i..]);
        assert body[i + 1..] == body[1..][i..];
      }
    }
  }

  // ---- extracted names ----

  lemma {:induction false} StripLeftShorter(s: string)
    ensures |StripLeft(s)| <= |s| && forall c <- StripLeft(s) :: c in s
  {
    if s != "" && IsSpace(s[0]) { StripLeftShorter(s[1..]); }
  }

  lemma {:induction false} StripRightShorter(s: string)
    ensures |StripRight(s)| <= |s| && forall c <- StripRight(s) :: c in s
  {
    if s != "" && IsSpace(s[|s| - 1]) { StripRightShorter(s[..|s| - 1]); }
  }

  /** An extracted topic is a non-blank name without any of the delimiting characters. */
  lemma {:induction false} ExtractedNames(body: string, name: string)
    requires name in ExtractTopics(body)
    ensures name != "" && Strip(name) == name && '#' !in name && '[' !in name && ']' !in name
    decreases |body|
  {
    if HasChip(body) {
      var raw := ChipName(body);
      ChipSplit(body);
      StripTwice(raw);
      StripLeftShorter(raw);
      StripRightShorter(StripLeft(raw));
      if name !in TopicOf(raw) { ExtractedNames(AfterChip(body), name); }
    } else {
      ExtractedNames(body[1..], name);
    }
  }

  lemma {:induction false} StripRightKeepsFront(s: string)
    ensures StripRight(s) == "" || (s != "" && StripRight(s)[0] == s[0])
    ensures StripRight(s) == "" || !IsSpace(StripRight(s)[|StripRight(s)| - 1])
  {
    if s != "" && IsSpace(s[|s| - 1]) { StripRightKeepsFront(s[..|s| - 1]); }
  }

  lemma {:induction false} StripLeftFront(s: string)
    ensures StripLeft(s) == "" || !IsSpace(StripLeft(s)[0])
  {
    if s != "" && IsSpace(s[0]) { StripLeftFront(s[1..]); }
  }

  lemma StripTwice(s: string)
    ensures Strip(Strip(s)) == Strip(s)
    ensures Strip(s) == "" || !IsSpace(Strip(s)[0])
  {
    StripLeftFront(s);
    StripRightKeepsFront(StripLeft(s));
  }

  /** What is stripped is white space at both ends, and nothing of it is left there. */
  lemma StripParts(s: string) returns (left: string, right: string)
    ensures s == left + Strip(s) + right && forall c <- left + right :: IsSpace(c)
    ensures Strip(s) == "" || (!IsSpace(Strip(s)[0]) && !IsSpace(Strip(s)[|Strip(s)| - 1]))
  {
    left := StripLeftPart(s);
    right := StripRightPart(StripLeft(s));
    StripTwice(s);
    StripRightKeepsFront(StripLeft(s));
  }

  lemma {:induction false} StripLeftPart(s: string) returns (left: string)
    ensures s == left + StripLeft(s) && forall c <- left :: IsSpace(c)
  {
    left := "";
    if s != "" && IsSpace(s[0]) {
      left := StripLeftPart(s[1..]);
      left := [s[0]] + left;
    }
  }

  lemma {:induction false} StripRightPart(s: string) returns (right: string)
    ensures s == StripRight(s) + right && forall c <- right :: IsSpace(c)
  {
    right := "";
    if s != "" && IsSpace(s[|s| - 1]) {
      right := StripRightPart(s[..|s| - 1]);
      right := right + [s[|s| - 1]];
    }
  }

  // ---- written chips are read back ----

  /** A name that can be hung on a note: not blank at its ends and without the delimiters. */
  predicate Hangs(name: string) { name != "" && Strip(name) == name && '#' !in name && '[' !in name && ']' !in name }

  /** Each name as a chip, with its text behind it. */
  function Written(names: seq<string>, texts: seq<string>): string
    requires |names| == |texts|
  {
    if names == [] then "" else "#" + names[0] + "[话题]#" + (texts[0] + Written(names[1..], texts[1..]))
  }

  /** Text without `#` holds no topic. */
  lemma {:induction false} PlainHasNoTopics(p: string, t: string)
    requires '#' !in p
    ensures ExtractTopics(p + t) == ExtractTopics(t)
  {
    if p == "" {
      assert p + t == t;
    } else {
      assert p + t == [p[0]] + (p[1..] + t) && p[0] in p;
      ExtractSkips(p[0], p[1..] + t);
      PlainHasNoTopics(p[1..], t);
    }
  }

  /** The names that were written are read back, in their order, whatever plain text stands between and around them. */
  lemma {:induction false} WrittenIsReadBack(before: string, names: seq<string>, texts: seq<string>)
    requires |names| == |texts| && '#' !in before
    requires forall i | 0 <= i < |names| :: Hangs(names[i]) && '#' !in texts[i]
    ensures ExtractTopics(before + Written(names, texts)) == names
    decreases |names|
  {
    PlainHasNoTopics(before, Written(names, texts));
    if names != [] {
      ExtractFromChip(names[0], texts[0] + Written(names[1..], texts[1..]));
      WrittenIsReadBack(texts[0], names[1..], texts[1..]);
      assert names == [names[0]] + names[1..];
    }
  }

  /** Normalising written chips closes up exactly the gaps that are white space, and leaves the last text alone. */
  lemma {:induction false} WrittenCloseUp(names: seq<string>, texts: seq<string>)
    requires |names| == |texts| > 0
    requires forall i | 0 <= i < |names| :: Hangs(names[i]) && '#' !in texts[i] && '[' !in texts[i]
    ensures NormalizeSeparators(Written(names, texts)) == Written(names, ClosedUp(texts))
    decreases |names|
  {
    var rest := Written(names[1..], texts[1..]);
    NormOfChip(names[0], texts[0] + rest);
    if |names| == 1 {
      assert texts[0] + rest == texts[0] && ClosedUp(texts) == texts && texts[1..] == [] && names[1..] == [];
      SkipWithin(texts[0]);
      NormKeepsPlain(texts[0], "");
      NormKeepsPlain(SkipSpace(texts[0]), "");
      assert !HasChip(SkipSpace(texts[0]));
    } else {
      WrittenCloseUp(names[1..], texts[1..]);
      ChipJoin(names[1], texts[1] + Written(names[2..], texts[2..]));
      assert names[1..][0] == names[1] && texts[1..][0] == texts[1] && names[1..][1..] == names[2..] && texts[1..][1..] == texts[2..];
      SkipInFront(texts[0], rest);
      if IsBlank(texts[0]) {
        assert Closed(texts[0] + rest) == rest;
        assert "" + Written(names[1..], ClosedUp(texts[1..])) == Written(names[1..], ClosedUp(texts[1..]));
      } else {
        assert Closed(texts[0] + rest) == texts[0] + rest;
        NormKeepsPlain(texts[0], rest);
      }
      assert ClosedUp(texts)[1..] == ClosedUp(texts[1..]);
    }
  }

  predicate IsBlank(s: string) { forall c <- s :: IsSpace(c) }

  /** Every text but the last is dropped if it is blank. */
  function ClosedUp(texts: seq<string>): (r: seq<string>)
    ensures |r| == |texts|
  {
    if |texts| <= 1 then texts else [if IsBlank(texts[0]) then "" else texts[0]] + ClosedUp(texts[1..])
  }

  lemma {:induction false} SkipWithin(s: string)
    ensures |SkipSpace(s)| <= |s| && forall c <- SkipSpace(s) :: c in s
  {
    if s != "" && IsSpace(s[0]) { SkipWithin(s[1..]); }
  }

  /** The white space in front of a text that begins otherwise. */
  lemma {:induction false} SkipInFront(s: string, t: string)
    requires t != "" && t[0] == '#' && '#' !in s
    ensures if IsBlank(s) then SkipSpace(s + t) == t else SkipSpace(s + t) != "" && SkipSpace(s + t)[0] != '#'
  {
    if s == "" {
      assert s + t == t;
    } else {
      assert s + t == [s[0]] + (s[1..] + t) && (s + t)[1..] == s[1..] + t && s[0] in s;
      if IsSpace(s[0]) {
        SkipInFront(s[1..], t);
        assert IsBlank(s) <==> IsBlank(s[1..]);
      }
    }
  }
}
