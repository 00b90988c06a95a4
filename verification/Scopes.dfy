/** Scope vocabulary: normal form, the "covers" order, the two delegation filters
    and the catalogue policy. Text is ASCII. */
module Scopes {

  const SEPARATOR := ':'
  const WILDCARD: string := ['*']
  const MAX_SCOPE_LENGTH := 128

  // ------------------------------------------------------------------
  // Normal form
  // ------------------------------------------------------------------

  predicate IsSpace(c: char) {
    9 <= c as int <= 13 || 28 <= c as int <= 32
  }

  function LowerChar(c: char): char {
    if 'A' <= c <= 'Z' then (c as int + 32) as char else c
  }

  function Lower(s: string): (r: string)
    ensures |r| == |s|
    ensures forall i :: 0 <= i < |s| ==> r[i] == LowerChar(s[i])
  {
    if s == "" then "" else [LowerChar(s[0])] + Lower(s[1..])
  }

  function StripLeft(s: string): (r: string)
    ensures r == "" || !IsSpace(r[0])
    ensures s != "" && !IsSpace(s[0]) ==> r == s
    ensures s != "" && !IsSpace(s[|s| - 1]) ==> r != "" && r[|r| - 1] == s[|s| - 1]
  {
    if s != "" && IsSpace(s[0]) then StripLeft(s[1..]) else s
  }

  function StripRight(s: string): (r: string)
    ensures r == "" || !IsSpace(r[|r| - 1])
    ensures s != "" && !IsSpace(s[|s| - 1]) ==> r == s
    ensures r <= s
  {
    if s != "" && IsSpace(s[|s| - 1]) then StripRight(s[..|s| - 1]) else s
  }

  function Normalise(scope: string): string {
    Lower(StripLeft(StripRight(scope)))
  }

  /** A scope in canonical form: nothing left for `Normalise` to change. */
  predicate Canonical(s: string) {
    && (s != "" ==> !IsSpace(s[0]) && !IsSpace(s[|s| - 1]))
    && forall i :: 0 <= i < |s| ==> LowerChar(s[i]) == s[i]
  }

  lemma CanonicalFixed(s: string)
    requires Canonical(s)
    ensures Normalise(s) == s
  {
  }

  lemma NormaliseIdempotent(scope: string)
    ensures Normalise(Normalise(scope)) == Normalise(scope)
  {
  }

  /** The same letter of the alphabet in either case, or the same character. */
  predicate SameLetter(a: char, b: char) {
    || a == b
    || ('A' <= a <= 'Z' && 'a' <= b <= 'z' && a as int - 'A' as int == b as int - 'a' as int)
    || ('A' <= b <= 'Z' && 'a' <= a <= 'z' && b as int - 'A' as int == a as int - 'a' as int)
  }

  predicate SameLetters(a: string, b: string) {
    |a| == |b| && forall i :: 0 <= i < |a| ==> SameLetter(a[i], b[i])
  }

  /** What is left of a name without the white space around it. */
  predicate IsCore(core: string, s: string) {
    && (core != "" ==> !IsSpace(core[0]) && !IsSpace(core[|core| - 1]))
    && exists i | 0 <= i <= |s| :: IsCoreAt(core, s, i)
  }

  predicate IsCoreAt(core: string, s: string, i: nat) {
    && i + |core| <= |s| && s[i..i + |core|] == core
    && (forall k :: 0 <= k < i ==> IsSpace(s[k])) && (forall k :: i + |core| <= k < |s| ==> IsSpace(s[k]))
  }

  lemma {:induction false} StripRightIsCore(s: string)
    ensures forall k :: |StripRight(s)| <= k < |s| ==> IsSpace(s[k])
  {
    if s != "" && IsSpace(s[|s| - 1]) {
      StripRightIsCore(s[..|s| - 1]);
      assert forall k :: 0 <= k < |s| - 1 ==> s[k] == s[..|s| - 1][k];
    }
  }

  lemma {:induction false} StripLeftIsCore(s: string)
    ensures |StripLeft(s)| <= |s| && s[|s| - |StripLeft(s)|..] == StripLeft(s)
    ensures forall k :: 0 <= k < |s| - |StripLeft(s)| ==> IsSpace(s[k])
  {
    if s != "" && IsSpace(s[0]) {
      StripLeftIsCore(s[1..]);
      assert forall k :: 1 <= k < |s| ==> s[k] == s[1..][k - 1];
    }
  }

  lemma TakesCore(s: string, right: string, core: string)
    requires right <= s && |core| <= |right| && right[|right| - |core|..] == core
    requires forall k :: 0 <= k < |right| - |core| ==> IsSpace(right[k])
    requires forall k :: |right| <= k < |s| ==> IsSpace(s[k])
    ensures IsCoreAt(core, s, |right| - |core|)
  {
    assert s[|right| - |core|..|right|] == right[|right| - |core|..];
    assert forall k :: 0 <= k < |right| ==> s[k] == right[k];
  }

  lemma StripsToCore(s: string)
    ensures IsCore(StripLeft(StripRight(s)), s)
  {
    var right := StripRight(s);
    StripRightIsCore(s);
    StripLeftIsCore(right);
    TakesCore(s, right, StripLeft(right));
  }

  lemma CoreIsUnique(a: string, b: string, s: string)
    requires IsCore(a, s) && IsCore(b, s)
    ensures a == b
  {
    var i :| 0 <= i <= |s| && IsCoreAt(a, s, i);
    var j :| 0 <= j <= |s| && IsCoreAt(b, s, j);
    assert a != "" ==> s[i] == a[0] && s[i + |a| - 1] == a[|a| - 1];
    assert b != "" ==> s[j] == b[0] && s[j + |b| - 1] == b[|b| - 1];
  }

  /** Two names have one normal form exactly when, white space around them aside, they
      differ in the case of letters alone. */
  lemma {:induction false} SameNormalExactly(a: string, b: string, coreA: string, coreB: string)
    requires IsCore(coreA, a) && IsCore(coreB, b)
    ensures Normalise(a) == Normalise(b) <==> SameLetters(coreA, coreB)
  {
    StripsToCore(a);
    StripsToCore(b);
    CoreIsUnique(coreA, StripLeft(StripRight(a)), a);
    CoreIsUnique(coreB, StripLeft(StripRight(b)), b);
    LowerExactly(coreA, coreB);
  }

  lemma LowerCharExactly(a: char, b: char)
    ensures LowerChar(a) == LowerChar(b) <==> SameLetter(a, b)
  {
  }

  lemma LowerExactly(a: string, b: string)
    ensures Lower(a) == Lower(b) <==> SameLetters(a, b)
  {
    if |a| == |b| {
      forall i | 0 <= i < |a| ensures Lower(a)[i] == Lower(b)[i] <==> SameLetter(a[i], b[i]) {
        LowerCharExactly(a[i], b[i]);
      }
      PointwiseEqual(Lower(a), Lower(b));
    }
  }

  lemma PointwiseEqual(a: string, b: string)
    requires |a| == |b|
    ensures a == b <==> forall i :: 0 <= i < |a| ==> a[i] == b[i]
  {
  }

  /** The normal form is in lower case. */
  lemma NormalIsLower(s: string, core: string)
    requires IsCore(core, s)
    ensures SameLetters(Normalise(s), core) && forall c :: c in Normalise(s) ==> !('A' <= c <= 'Z')
  {
    StripsToCore(s);
    CoreIsUnique(core, StripLeft(StripRight(s)), s);
  }

  // ------------------------------------------------------------------
  // Covers
  // ------------------------------------------------------------------

  /** `s` ends in ":*". */
  predicate EndsInWildcard(s: string) {
    |s| >= 2 && s[|s| - 2] == SEPARATOR && s[|s| - 1] == '*'
  }

  /** The string test, on names already in normal form. */
  predicate CoversNormal(granted: string, requested: string) {
    if granted == "" || requested == "" then false
    else if granted == requested then true
    else if granted == WILDCARD then true
    else if EndsInWildcard(granted) then granted[..|granted| - |WILDCARD|] <= requested
    else false
  }

  predicate Covers(granted: string, requested: string) {
    CoversNormal(Normalise(granted), Normalise(requested))
  }

  predicate CoveredByAny(granted: seq<string>, requested: string) {
    exists i :: 0 <= i < |granted| && Covers(granted[i], requested)
  }

  /** Covering does not look at the case of letters or at white space around a name. */
  lemma {:induction false} CoversIgnoresCase(a: string, b: string, coreA: string, coreB: string, other: string)
    requires IsCore(coreA, a) && IsCore(coreB, b) && SameLetters(coreA, coreB)
    ensures Covers(a, other) == Covers(b, other) && Covers(other, a) == Covers(other, b)
  {
    SameNormalExactly(a, b, coreA, coreB);
  }

  lemma CoversReflexive(s: string)
    ensures Covers(s, s) <==> Normalise(s) != ""
  {
  }

  lemma {:induction false} CoversAntisymmetric(a: string, b: string)
    requires Covers(a, b) && Covers(b, a)
    ensures Normalise(a) == Normalise(b)
  {
    NormalAntisymmetric(Normalise(a), Normalise(b));
  }

  lemma NormalAntisymmetric(g: string, r: string)
    requires CoversNormal(g, r) && CoversNormal(r, g)
    ensures g == r
  {
  }

  lemma {:induction false} CoversTransitive(a: string, b: string, c: string)
    requires Covers(a, b) && Covers(b, c)
    ensures Covers(a, c)
  {
    var g, r, s := Normalise(a), Normalise(b), Normalise(c);
    if g != r && r != s && g != WILDCARD && r != WILDCARD {
      StemInStem(g, r);
      assert g[..|g| - 1] <= r[..|r| - 1] <= s;
    }
  }

  /** A stem ends in the separator, so as a prefix of another wildcard grant it
      is a prefix of that grant's stem. */
  lemma StemInStem(g: string, r: string)
    requires EndsInWildcard(g) && EndsInWildcard(r) && g[..|g| - 1] <= r
    ensures g[..|g| - 1] <= r[..|r| - 1]
  {
  }

  /** The grants that cover one scope are pairwise comparable. */
  lemma {:induction false} CoveringGrantsFormChain(a: string, b: string, s: string)
    requires Covers(a, s) && Covers(b, s)
    ensures Covers(a, b) || Covers(b, a)
  {
    var g, r, t := Normalise(a), Normalise(b), Normalise(s);
    if g != r && g != WILDCARD && r != WILDCARD && g != t && r != t {
      if |g| <= |r| {
        PrefixOfLonger(g[..|g| - 1], r, t);
      } else {
        PrefixOfLonger(r[..|r| - 1], g, t);
      }
    }
  }

  lemma PrefixOfLonger(p: string, r: string, t: string)
    requires p <= t && r != "" && r[..|r| - 1] <= t && |p| <= |r| - 1
    ensures p <= r
  {
  }

  // ------------------------------------------------------------------
  // The segment reading of a scope
  // ------------------------------------------------------------------

  function Split(s: string): (segments: seq<string>)
    ensures |segments| >= 1
  {
    if s == "" then [""]
    else
      var rest := Split(s[1..]);
      if s[0] == SEPARATOR then [""] + rest else [[s[0]] + rest[0]] + rest[1..]
  }

  function Join(segments: seq<string>): string
    requires |segments| >= 1
  {
    if |segments| == 1 then segments[0] else segments[0] + [SEPARATOR] + Join(segments[1..])
  }

  lemma {:induction false} JoinSplit(s: string)
    ensures Join(Split(s)) == s
  {
    if s != "" {
      JoinSplit(s[1..]);
      var rest := Split(s[1..]);
      if s[0] == SEPARATOR {
        assert ([""] + rest)[1..] == rest;
      } else {
        assert ([[s[0]] + rest[0]] + rest[1..])[1..] == rest[1..];
      }
    }
  }

  lemma {:induction false} SplitConcat(a: string, b: string)
    ensures Split(a + [SEPARATOR] + b) == Split(a) + Split(b)
  {
    var w := a + [SEPARATOR] + b;
    if a == "" {
      assert w == [SEPARATOR] + b && w[1..] == b;
    } else {
      assert w[1..] == a[1..] + [SEPARATOR] + b;
      SplitConcat(a[1..], b);
    }
  }

  lemma {:induction false} JoinConcat(a: seq<string>, b: seq<string>)
    requires |a| >= 1 && |b| >= 1
    ensures Join(a + b) == Join(a) + [SEPARATOR] + Join(b)
  {
    assert (a + b)[1..] == a[1..] + b;
    if |a| > 1 {
      JoinConcat(a[1..], b);
    }
  }

  /** Equality, or a wildcard grant whose other segments are a proper prefix of
      the requested scope's segments. */
  predicate SegmentCovers(granted: string, requested: string) {
    var g, r := Split(granted), Split(requested);
    || granted == requested
    || (g[|g| - 1] == WILDCARD && g[..|g| - 1] < r)
  }

  lemma WildcardAlone()
    ensures Split(WILDCARD) == [WILDCARD]
  {
    assert WILDCARD[1..] == "";
    assert Split("") == [""];
    assert [WILDCARD[0]] + "" == WILDCARD;
  }

  lemma {:induction false} SplitWildcard(g: string)
    requires EndsInWildcard(g)
    ensures Split(g) == Split(g[..|g| - 2]) + [WILDCARD]
  {
    var p := g[..|g| - 2];
    assert g == p + [SEPARATOR] + WILDCARD;
    assert Split(g) == Split(p) + Split(WILDCARD) by { SplitConcat(p, WILDCARD); }
    WildcardAlone();
  }

  lemma WildcardSegment(g: string)
    requires Split(g)[|Split(g)| - 1] == WILDCARD
    ensures g == WILDCARD || EndsInWildcard(g)
  {
  }

  /** "p:" is a prefix of `r` exactly when p's segments are a proper prefix of r's. */
  lemma PrefixIsSegmentPrefix(p: string, r: string)
    ensures p + [SEPARATOR] <= r <==> Split(p) < Split(r)
  {
    if p + [SEPARATOR] <= r {
      assert r == p + [SEPARATOR] + r[|p| + 1..];
      SplitConcat(p, r[|p| + 1..]);
    }
    if Split(p) < Split(r) {
      var tail := Split(r)[|Split(p)|..];
      assert Split(r) == Split(p) + tail;
      JoinConcat(Split(p), tail);
      JoinSplit(p);
      JoinSplit(r);
    }
  }

  /** The string prefix test is exactly the segment definition, for every pair
      of names that are not blank. */
  lemma {:induction false} CoversIsSegmentPrefix(granted: string, requested: string)
    requires Normalise(granted) != "" && Normalise(requested) != ""
    ensures Covers(granted, requested) <==> SegmentCovers(Normalise(granted), Normalise(requested))
  {
    SegmentTest(Normalise(granted), Normalise(requested));
  }

  lemma SegmentTest(g: string, r: string)
    requires g != "" && r != ""
    ensures CoversNormal(g, r) <==> SegmentCovers(g, r)
  {
    if g == WILDCARD {
      WildcardAlone();
    } else if EndsInWildcard(g) {
      var p := g[..|g| - 2];
      assert g[..|g| - 1] == p + [SEPARATOR];
      SplitWildcard(g);
      PrefixIsSegmentPrefix(p, r);
    } else if Split(g)[|Split(g)| - 1] == WILDCARD {
      WildcardSegment(g);
    }
  }

  // ------------------------------------------------------------------
  // Shape checks and the hierarchy
  // ------------------------------------------------------------------

  predicate AllowedChar(c: char) {
    'a' <= c <= 'z' || 'A' <= c <= 'Z' || '0' <= c <= '9' || c in "-_."
  }

  predicate PlainSegment(segment: string) {
    segment != "" && forall i :: 0 <= i < |segment| ==> AllowedChar(segment[i])
  }

  /** What a storable scope name is: at most 128 characters of plain segments,
      the last of which may be the wildcard. */
  predicate WellFormed(scope: string) {
    var segments := Split(Normalise(scope));
    && |Normalise(scope)| <= MAX_SCOPE_LENGTH
    && (forall i :: 0 <= i < |segments| - 1 ==> PlainSegment(segments[i]))
    && (segments[|segments| - 1] == WILDCARD || PlainSegment(segments[|segments| - 1]))
  }

  predicate SegmentsOk(segments: seq<string>)
    requires segments != []
  {
    && (forall i :: 0 <= i < |segments| - 1 ==> PlainSegment(segments[i]))
    && (segments[|segments| - 1] == WILDCARD || PlainSegment(segments[|segments| - 1]))
  }

  predicate IsNameChar(c: char) {
    'a' <= c <= 'z' || 'A' <= c <= 'Z' || '0' <= c <= '9' || c == '-' || c == '_' || c == '.'
  }

  /** A colon stands between two names, never beside another; a star only at the very end,
      alone or after a colon; and everything else is a letter, a digit, or one of "-_.". */
  predicate CharOk(s: string, i: nat)
    requires i < |s|
  {
    if s[i] == ':' then 0 < i < |s| - 1 && s[i - 1] != ':'
    else if s[i] == '*' then i == |s| - 1 && (i == 0 || s[i - 1] == ':')
    else IsNameChar(s[i])
  }

  predicate CharsOk(s: string) {
    s != "" && forall i :: 0 <= i < |s| ==> CharOk(s, i)
  }

  lemma SegmentAlone(c: char, rest: string)
    requires c != ':'
    ensures CharsOk([c] + ":" + rest) <==> AllowedChar(c) && CharsOk(rest)
  {
    var s := [c] + ":" + rest;
    forall j | 0 <= j < |rest| ensures CharOk(s, j + 2) <==> CharOk(rest, j) {
      assert s[j + 2] == rest[j] && (j > 0 ==> s[j + 1] == rest[j - 1]);
    }
    assert s[0] == c && s[1] == ':';
    if CharsOk(s) {
      assert CharOk(s, 0) && CharOk(s, 1);
      forall j | 0 <= j < |rest| ensures CharOk(rest, j) { assert CharOk(s, j + 2); }
    }
    if AllowedChar(c) && CharsOk(rest) {
      forall i | 0 <= i < |s| ensures CharOk(s, i) {
        if i >= 2 { assert CharOk(rest, i - 2); }
      }
    }
  }

  lemma SegmentGoesOn(c: char, rest: string)
    requires c != ':' && rest != "" && rest[0] != ':'
    ensures CharsOk([c] + rest) <==> AllowedChar(c) && rest[0] != '*' && CharsOk(rest)
  {
    var s := [c] + rest;
    forall j | 0 < j < |rest| ensures CharOk(s, j + 1) <==> CharOk(rest, j) {
      assert s[j + 1] == rest[j] && s[j] == rest[j - 1];
    }
    assert s[0] == c && s[1] == rest[0];
    if CharsOk(s) {
      assert CharOk(s, 0) && CharOk(s, 1);
      forall j | 0 <= j < |rest| ensures CharOk(rest, j) { assert CharOk(s, j + 1); }
    }
    if AllowedChar(c) && rest[0] != '*' && CharsOk(rest) {
      assert CharOk(rest, 0);
      forall i | 0 <= i < |s| ensures CharOk(s, i) {
        if i >= 2 { assert CharOk(rest, i - 1); }
      }
    }
  }

  lemma {:induction false} SegmentsOkExactly(s: string)
    ensures SegmentsOk(Split(s)) <==> CharsOk(s)
  {
    if s != "" && s[0] == ':' {
      assert !CharOk(s, 0) && Split(s)[0] == "" && |Split(s)| >= 2 && !PlainSegment(Split(s)[0]);
    } else if s != "" {
      var c, rest := s[0], s[1..];
      assert s == [c] + rest;
      if rest == "" {
        assert s == [c];
        OneCharacter(c);
      } else if rest[0] == ':' {
        assert s == [c] + ":" + rest[1..];
        assert Split(rest) == [""] + Split(rest[1..]) && [c] + "" == [c];
        assert Split(s) == [[c]] + Split(rest[1..]);
        SegmentAlone(c, rest[1..]);
        SegmentsOkExactly(rest[1..]);
        ConsSegment([c], Split(rest[1..]));
      } else {
        SegmentGoesOn(c, rest);
        SegmentsOkExactly(rest);
        LongerSegment(c, rest);
      }
    }
  }

  lemma OneCharacter(c: char)
    requires c != ':'
    ensures SegmentsOk(Split([c])) <==> CharsOk([c])
  {
    var s := [c];
    assert s[1..] == "" && Split("") == [""] && [c] + "" == [c] && [""][1..] == [];
    assert Split(s) == [[c]];
    assert CharsOk(s) <==> CharOk(s, 0);
    assert AllowedChar(c) <==> forall i :: 0 <= i < |s| ==> AllowedChar(s[i]) by { assert s[0] == c; }
  }

  lemma ConsSegment(segment: string, rest: seq<string>)
    requires rest != []
    ensures SegmentsOk([segment] + rest) <==> PlainSegment(segment) && SegmentsOk(rest)
  {
    var all := [segment] + rest;
    assert forall i :: 0 <= i < |rest| ==> all[i + 1] == rest[i];
    assert all[0] == segment && all[|all| - 1] == rest[|rest| - 1];
    if SegmentsOk(all) {
      assert PlainSegment(all[0]);
      forall i | 0 <= i < |rest| - 1 ensures PlainSegment(rest[i]) { assert PlainSegment(all[i + 1]); }
    }
    if PlainSegment(segment) && SegmentsOk(rest) {
      forall i | 0 <= i < |all| - 1 ensures PlainSegment(all[i]) {
        if i > 0 { assert PlainSegment(rest[i - 1]); }
      }
    }
  }

  lemma PlainCons(c: char, segment: string)
    requires segment != ""
    ensures PlainSegment([c] + segment) <==> AllowedChar(c) && PlainSegment(segment)
  {
    var longer := [c] + segment;
    assert longer[0] == c && forall i :: 0 <= i < |segment| ==> longer[i + 1] == segment[i];
    if PlainSegment(longer) {
      assert AllowedChar(longer[0]);
      forall i | 0 <= i < |segment| ensures AllowedChar(segment[i]) { assert AllowedChar(longer[i + 1]); }
    }
  }

  lemma LongerSegment(c: char, rest: string)
    requires c != ':' && rest != "" && rest[0] != ':'
    ensures SegmentsOk(Split([c] + rest)) <==> AllowedChar(c) && rest[0] != '*' && SegmentsOk(Split(rest))
  {
    var s, segments := [c] + rest, Split(rest);
    assert s[1..] == rest;
    var first := [c] + segments[0];
    assert Split(s) == [first] + segments[1..] && segments[0] != "" && segments[0][0] == rest[0];
    PlainCons(c, segments[0]);
    assert PlainSegment(segments[0]) ==> AllowedChar(segments[0][0]);
    if |segments| == 1 {
      assert Split(s) == [first];
    } else {
      ConsSegment(first, segments[1..]);
      ConsSegment(segments[0], segments[1..]);
      assert segments == [segments[0]] + segments[1..];
    }
  }

  /** A usable name, character by character: at most 128 of them, colons between names, a
      star only as the last name, and letters, digits, "-", "_" and "." otherwise. */
  lemma {:induction false} WellFormedExactly(scope: string)
    ensures WellFormed(scope) <==> |Normalise(scope)| <= 128 && CharsOk(Normalise(scope))
  {
    SegmentsOkExactly(Normalise(scope));
  }

  /** What Python strips in ASCII: tab to carriage return, the separators, and space. */
  lemma SpaceExactly(c: char)
    ensures IsSpace(c) <==> c in ['\t', '\n', '\U{0B}', '\U{0C}', '\r', '\U{1C}', '\U{1D}', '\U{1E}', '\U{1F}', ' ']
  {
  }

  method IsWellFormed(scope: string) returns (ok: bool)
    ensures ok == WellFormed(scope)
  {
    var s := Normalise(scope);
    if s == "" || |s| > MAX_SCOPE_LENGTH {
      return false;
    }
    if s == WILDCARD {
      WildcardAlone();
      return true;
    }
    ok := AreSegmentsOk(Split(s));
  }

  method AreSegmentsOk(segments: seq<string>) returns (ok: bool)
    requires segments != []
    ensures ok == SegmentsOk(segments)
  {
    var index := 0;
    while index < |segments|
      invariant 0 <= index <= |segments|
      invariant forall i :: 0 <= i < index && i < |segments| - 1 ==> PlainSegment(segments[i])
      invariant index == |segments| ==> segments[index - 1] == WILDCARD || PlainSegment(segments[index - 1])
    {
      var segment := segments[index];
      if segment == "" {
        return false;
      }
      if segment == WILDCARD {
        if index != |segments| - 1 {
          assert !AllowedChar(segment[0]);
          return false;
        }
      } else {
        var plain := AllAllowed(segment);
        if !plain {
          return false;
        }
      }
      index := index + 1;
    }
    return true;
  }

  method AllAllowed(segment: string) returns (ok: bool)
    ensures ok <==> forall i :: 0 <= i < |segment| ==> AllowedChar(segment[i])
  {
    for k := 0 to |segment|
      invariant forall j :: 0 <= j < k ==> AllowedChar(segment[j])
    {
      if !AllowedChar(segment[k]) {
        return false;
      }
    }
    return true;
  }

  function ParentOf(scope: string): string {
    var segments := Split(Normalise(scope));
    if |segments| == 1 then "" else Join(segments[..|segments| - 1])
  }

  /** Going up one level drops exactly the last segment, and the wildcard under
      the parent covers the scope it came from. */
  lemma ParentGovernsChild(scope: string)
    requires ParentOf(scope) != ""
    ensures Normalise(scope) ==
      ParentOf(scope) + [SEPARATOR] + Split(Normalise(scope))[|Split(Normalise(scope))| - 1]
    ensures CoversNormal(ParentOf(scope) + [SEPARATOR] + WILDCARD, Normalise(scope))
  {
    SplitsAtLast(Normalise(scope));
  }

  lemma SplitsAtLast(s: string)
    requires |Split(s)| > 1
    ensures var segments := Split(s);
      var parent, last := Join(segments[..|segments| - 1]), segments[|segments| - 1];
      s == parent + [SEPARATOR] + last && CoversNormal(parent + [SEPARATOR] + WILDCARD, s)
  {
    var segments := Split(s);
    var init, last := segments[..|segments| - 1], segments[|segments| - 1];
    assert segments == init + [last];
    JoinConcat(init, [last]);
    JoinSplit(s);
    StemCovers(Join(init), last);
  }

  lemma StemCovers(p: string, tail: string)
    ensures CoversNormal(p + [SEPARATOR] + WILDCARD, p + [SEPARATOR] + tail)
  {
  }

  // ------------------------------------------------------------------
  // Delegation filters
  // ------------------------------------------------------------------

  /** The scopes of `requested` that some grant covers, in their order. */
  function Selected(requested: seq<string>, grants: seq<string>): (r: seq<string>)
    ensures forall s :: s in r <==> s in requested && CoveredByAny(grants, s)
  {
    if requested == [] then []
    else (if CoveredByAny(grants, requested[0]) then [requested[0]] else []) + Selected(requested[1..], grants)
  }

  /** The scopes no grant covers, in their order. */
  function Outside(scopes: seq<string>, grants: seq<string>): seq<string> {
    if scopes == [] then []
    else
      var rest := Outside(scopes[1..], grants);
      if CoveredByAny(grants, scopes[0]) then rest else [scopes[0]] + rest
  }

  lemma {:induction false} OutsideExact(scopes: seq<string>, grants: seq<string>, scope: string)
    ensures scope in Outside(scopes, grants) <==> scope in scopes && !CoveredByAny(grants, scope)
  {
    if scopes != [] { OutsideExact(scopes[1..], grants, scope); }
  }

  /** An empty ceiling expresses no limit. */
  function Narrow(requested: seq<string>, ceiling: seq<string>): seq<string> {
    if ceiling == [] then requested else Selected(requested, ceiling)
  }

  /** An empty grant grants nothing. */
  function Intersect(requested: seq<string>, granted: seq<string>): seq<string> {
    if granted == [] then [] else Selected(requested, granted)
  }

  /** How often each scope is left by the two filters: an empty ceiling takes nothing
      away, an empty grant everything, and otherwise what some entry covers is kept. */
  lemma {:induction false} FiltersExact(requested: seq<string>, entries: seq<string>, s: string)
    ensures Narrow(requested, []) == requested && Intersect(requested, []) == []
    ensures entries != [] ==>
      multiset(Narrow(requested, entries))[s] == (if CoveredByAny(entries, s) then multiset(requested)[s] else 0)
    ensures multiset(Intersect(requested, entries))[s] ==
      if CoveredByAny(entries, s) then multiset(requested)[s] else 0
  {
    SelectedExact(requested, entries, s);
  }

  lemma {:induction false} SelectedExact(requested: seq<string>, entries: seq<string>, s: string)
    ensures multiset(Selected(requested, entries))[s] ==
      if CoveredByAny(entries, s) then multiset(requested)[s] else 0
  {
    if requested != [] {
      SelectedExact(requested[1..], entries, s);
      assert requested == [requested[0]] + requested[1..];
    }
  }

  /** `sub` is `whole` with some elements left out, order kept. */
  predicate SelectionOf(sub: seq<string>, whole: seq<string>)
    decreases |whole|
  {
    || sub == []
    || (whole != [] &&
        if sub[0] == whole[0] then SelectionOf(sub[1..], whole[1..]) else SelectionOf(sub, whole[1..]))
  }

  /** Every scope `inner` covers is covered by `outer`. */
  ghost predicate Within(inner: seq<string>, outer: seq<string>) {
    forall i :: 0 <= i < |inner| && Normalise(inner[i]) != "" ==> CoveredByAny(outer, inner[i])
  }

  lemma {:induction false} CoverageCarriesThrough(inner: seq<string>, outer: seq<string>, s: string)
    requires Within(inner, outer) && CoveredByAny(inner, s)
    ensures CoveredByAny(outer, s)
  {
    var i :| 0 <= i < |inner| && Covers(inner[i], s);
    var j :| 0 <= j < |outer| && Covers(outer[j], inner[i]);
    CoversTransitive(outer[j], inner[i], s);
  }

  lemma {:induction false} SelectionDropHead(sub: seq<string>, whole: seq<string>)
    requires sub != [] && SelectionOf(sub, whole)
    ensures SelectionOf(sub[1..], whole)
    decreases |whole|
  {
    if sub[0] == whole[0] {
      if |sub| > 1 && sub[1] == whole[0] {
        SelectionDropHead(sub[1..], whole[1..]);
      }
    } else {
      SelectionDropHead(sub, whole[1..]);
      if |sub| > 1 && sub[1] == whole[0] {
        if sub[1..] != [] { SelectionDropHead(sub[1..], whole[1..]); }
      }
    }
  }

  lemma {:induction false} SelectionSkip(sub: seq<string>, whole: seq<string>, w: string)
    requires SelectionOf(sub, whole)
    ensures SelectionOf(sub, [w] + whole)
  {
    assert ([w] + whole)[1..] == whole;
    if sub != [] && sub[0] == w {
      SelectionDropHead(sub, whole);
    }
  }

  lemma {:induction false} SelectionTransitive(a: seq<string>, b: seq<string>, c: seq<string>)
    requires SelectionOf(a, b) && SelectionOf(b, c)
    ensures SelectionOf(a, c)
    decreases |c|
  {
    if a != [] {
      if b[0] == c[0] {
        if a[0] == b[0] {
          SelectionTransitive(a[1..], b[1..], c[1..]);
        } else {
          SelectionTransitive(a, b[1..], c[1..]);
        }
      } else {
        SelectionTransitive(a, b, c[1..]);
        assert [c[0]] + c[1..] == c;
        SelectionSkip(a, c[1..], c[0]);
      }
    }
  }

  lemma {:induction false} SelectedIsSelection(requested: seq<string>, grants: seq<string>)
    ensures SelectionOf(Selected(requested, grants), requested)
  {
    if requested != [] {
      SelectedIsSelection(requested[1..], grants);
      var rest := Selected(requested[1..], grants);
      if CoveredByAny(grants, requested[0]) {
        assert ([requested[0]] + rest)[1..] == rest;
      } else {
        assert Selected(requested, grants) == rest;
        SelectionSkip(rest, requested[1..], requested[0]);
        assert [requested[0]] + requested[1..] == requested;
      }
    }
  }

  /** Filtering by `inner` makes filtering by anything wider a no-op; with
      `inner == outer` this is idempotence. */
  lemma {:induction false} SelectedAbsorbs(requested: seq<string>, inner: seq<string>, outer: seq<string>)
    requires Within(inner, outer)
    ensures Selected(Selected(requested, inner), outer) == Selected(requested, inner)
    ensures Selected(Selected(requested, outer), inner) == Selected(requested, inner)
  {
    if requested != [] {
      var s, rest := requested[0], requested[1..];
      SelectedAbsorbs(rest, inner, outer);
      SelectedCons(s, Selected(rest, inner), outer);
      SelectedCons(s, Selected(rest, outer), inner);
      if CoveredByAny(inner, s) {
        CoverageCarriesThrough(inner, outer, s);
      }
      assert [] + Selected(rest, inner) == Selected(rest, inner);
      assert [] + Selected(rest, outer) == Selected(rest, outer);
    }
  }

  lemma SelectedCons(s: string, rest: seq<string>, grants: seq<string>)
    ensures Selected([s] + rest, grants) ==
            (if CoveredByAny(grants, s) then [s] else []) + Selected(rest, grants)
  {
  }

  lemma {:induction false} SelectedCommutes(requested: seq<string>, a: seq<string>, b: seq<string>)
    ensures Selected(Selected(requested, a), b) == Selected(Selected(requested, b), a)
  {
    if requested != [] {
      var s, rest := requested[0], requested[1..];
      SelectedCommutes(rest, a, b);
      SelectedCons(s, Selected(rest, a), b);
      SelectedCons(s, Selected(rest, b), a);
      assert [] + Selected(rest, a) == Selected(rest, a);
      assert [] + Selected(rest, b) == Selected(rest, b);
    }
  }

  lemma WithinReflexive(grants: seq<string>)
    ensures Within(grants, grants)
  {
  }

  /** The two filters of the delegation chain can be applied in either order,
      applying either of them twice changes nothing, and a wider ceiling never
      removes a scope. */
  lemma {:induction false} FiltersCommuteAndAreIdempotent(requested: seq<string>, ceiling: seq<string>,
                                                          granted: seq<string>)
    ensures Intersect(Narrow(requested, ceiling), granted) == Narrow(Intersect(requested, granted), ceiling)
    ensures Narrow(Narrow(requested, ceiling), ceiling) == Narrow(requested, ceiling)
    ensures Intersect(Intersect(requested, granted), granted) == Intersect(requested, granted)
  {
    SelectedCommutes(requested, ceiling, granted);
    WithinReflexive(ceiling);
    WithinReflexive(granted);
    SelectedAbsorbs(requested, ceiling, ceiling);
    SelectedAbsorbs(requested, granted, granted);
  }

  lemma FiltersAreMonotone(requested: seq<string>, inner: seq<string>, outer: seq<string>)
    requires Within(inner, outer)
    ensures SelectionOf(Intersect(requested, inner), Intersect(requested, outer))
    ensures inner != [] ==> SelectionOf(Narrow(requested, inner), Narrow(requested, outer))
  {
    SelectedAbsorbs(requested, inner, outer);
    SelectedIsSelection(Selected(requested, outer), inner);
    SelectedIsSelection(requested, inner);
    if outer == [] {
      forall s ensures !CoveredByAny(inner, s) {
        if CoveredByAny(inner, s) {
          CoverageCarriesThrough(inner, outer, s);
        }
      }
      assert forall s :: s !in Selected(requested, inner);
    }
  }

  // ------------------------------------------------------------------
  // Catalogue policy
  // ------------------------------------------------------------------

  datatype Decision = Decision(recognised: seq<string>, unrecognised: seq<string>,
                               catalogued: seq<string>, malformed: seq<string>)

  function NormalForms(names: seq<string>): (r: seq<string>)
    ensures |r| == |names| && forall i :: 0 <= i < |r| ==> r[i] == Normalise(names[i])
  {
    if names == [] then [] else NormalForms(names[..|names| - 1]) + [Normalise(names[|names| - 1])]
  }

  /** Each name once, where it comes first. */
  function Distinct(names: seq<string>): seq<string> {
    if names == [] then []
    else
      var init, last := Distinct(names[..|names| - 1]), names[|names| - 1];
      if last in init then init else init + [last]
  }

  lemma {:induction false} DistinctExact(names: seq<string>, s: string)
    ensures s in Distinct(names) <==> s in names
  {
    if names != [] { DistinctExact(names[..|names| - 1], s); }
  }

  /** Each name stands where it is first in the list, and the names in that order. */
  ghost predicate FirstOnes(names: seq<string>, at: seq<nat>, r: seq<string>) {
    && |at| == |r| && (forall i, j :: 0 <= i < j < |at| ==> at[i] < at[j])
    && (forall i :: 0 <= i < |at| ==> at[i] < |names| && IsFirst(names, at[i], r[i]))
  }

  predicate IsFirst(names: seq<string>, k: nat, name: string)
    requires k < |names|
  {
    names[k] == name && name !in names[..k]
  }

  lemma {:induction false} DistinctInOrder(names: seq<string>) returns (at: seq<nat>)
    ensures FirstOnes(names, at, Distinct(names))
  {
    at := [];
    if names != [] {
      var k := |names| - 1;
      at := DistinctInOrder(names[..k]);
      FirstStays(names, at, Distinct(names[..k]));
      if names[k] !in Distinct(names[..k]) {
        DistinctExact(names[..k], names[k]);
        FirstAppend(names, at, Distinct(names[..k]), k);
        at := at + [k];
      }
    }
  }

  lemma FirstAppend(names: seq<string>, at: seq<nat>, r: seq<string>, k: nat)
    requires FirstOnes(names, at, r) && k < |names| && IsFirst(names, k, names[k])
    requires forall i :: 0 <= i < |at| ==> at[i] < k
    ensures FirstOnes(names, at + [k], r + [names[k]])
  {
  }

  lemma FirstStays(names: seq<string>, at: seq<nat>, r: seq<string>)
    requires names != [] && FirstOnes(names[..|names| - 1], at, r)
    ensures FirstOnes(names, at, r) && forall i :: 0 <= i < |at| ==> at[i] < |names| - 1
  {
    forall i | 0 <= i < |at| ensures at[i] < |names| - 1 && IsFirst(names, at[i], r[i]) {
      assert IsFirst(names[..|names| - 1], at[i], r[i]) && names[..|names| - 1][..at[i]] == names[..at[i]];
    }
  }

  datatype Standing = Recognised | Catalogued | Unrecognised | Malformed

  function StandingOf(enforced: bool, catalogue: seq<string>, scope: string): Standing {
    if !WellFormed(scope) then Malformed
    else if CoveredByAny(catalogue, scope) then Recognised
    else if enforced then Unrecognised
    else Catalogued
  }

  /** The names of `names` whose standing is one of `wanted`, in order. */
  function WithStanding(enforced: bool, catalogue: seq<string>, names: seq<string>,
                        wanted: set<Standing>): seq<string> {
    if names == [] then []
    else
      var init, last := WithStanding(enforced, catalogue, names[..|names| - 1], wanted), names[|names| - 1];
      if StandingOf(enforced, catalogue, last) in wanted then init + [last] else init
  }

  /** The lists `Resolve` builds, as filters of the distinct declared names. */
  ghost predicate Partitions(d: Decision, enforced: bool, catalogue: seq<string>, names: seq<string>) {
    && d.recognised == WithStanding(enforced, catalogue, names, {Recognised, Catalogued})
    && d.unrecognised == WithStanding(enforced, catalogue, names, {Unrecognised})
    && d.catalogued == WithStanding(enforced, catalogue, names, {Catalogued})
    && var malformed := WithStanding(enforced, catalogue, names, {Malformed});
       && |d.malformed| == |malformed|
       && forall k :: 0 <= k < |malformed| ==> Normalise(d.malformed[k]) == malformed[k]
  }

  lemma StandingStep(enforced: bool, catalogue: seq<string>, names: seq<string>, scope: string, wanted: set<Standing>)
    ensures WithStanding(enforced, catalogue, names + [scope], wanted) ==
      WithStanding(enforced, catalogue, names, wanted)
        + (if StandingOf(enforced, catalogue, scope) in wanted then [scope] else [])
  {
  }

  /** Where one new name goes. */
  lemma {:induction false} WithStandingExact(enforced: bool, catalogue: seq<string>, names: seq<string>,
                                             wanted: set<Standing>, s: string)
    ensures s in WithStanding(enforced, catalogue, names, wanted) <==>
      s in names && StandingOf(enforced, catalogue, s) in wanted
  {
    if names != [] { WithStandingExact(enforced, catalogue, names[..|names| - 1], wanted, s); }
  }

  lemma {:induction false} WithStandingInOrder(enforced: bool, catalogue: seq<string>, names: seq<string>,
                                               wanted: set<Standing>)
    ensures SelectionOf(WithStanding(enforced, catalogue, names, wanted), names)
  {
    if names != [] {
      var init, last := names[..|names| - 1], names[|names| - 1];
      WithStandingInOrder(enforced, catalogue, init, wanted);
      assert names == init + [last];
      SelectionSnoc(WithStanding(enforced, catalogue, init, wanted), init, last);
    }
  }

  lemma {:induction false} SelectionSnoc(sub: seq<string>, whole: seq<string>, w: string)
    requires SelectionOf(sub, whole)
    ensures SelectionOf(sub + [w], whole + [w]) && SelectionOf(sub, whole + [w])
    decreases |whole|
  {
    if whole == [] {
      assert sub == [] && sub + [w] == [w] && whole + [w] == [w];
    } else {
      assert (whole + [w])[1..] == whole[1..] + [w];
      if sub == [] {
        SelectionSnoc(sub, whole[1..], w);
        assert sub + [w] == [w] && [w][1..] == [];
      } else {
        assert (sub + [w])[1..] == sub[1..] + [w];
        SelectionSnoc(if sub[0] == whole[0] then sub[1..] else sub, whole[1..], w);
      }
    }
  }

  /** Where a declared name ends up. One that is not well-formed is reported as it was
      written; one the catalogue covers is recognised; and one it does not is refused
      under enforcement, and otherwise recognised and noted as new. */
  lemma {:induction false} ResolvedExactly(d: Decision, enforced: bool, declared: seq<string>, catalogue: seq<string>,
                                           s: string)
    requires Partitions(d, enforced, catalogue, Distinct(NormalForms(declared)))
    ensures var isDeclared := s in NormalForms(declared);
      var usable, known := isDeclared && WellFormed(s), CoveredByAny(catalogue, s);
      && (s in d.recognised <==> usable && (known || !enforced))
      && (s in d.unrecognised <==> usable && !known && enforced)
      && (s in d.catalogued <==> usable && !known && !enforced)
      && ((exists k :: 0 <= k < |d.malformed| && Normalise(d.malformed[k]) == s) <==> isDeclared && !WellFormed(s))
    ensures var names := Distinct(NormalForms(declared));
      SelectionOf(d.recognised, names) && SelectionOf(d.unrecognised, names) && SelectionOf(d.catalogued, names)
  {
    var names := Distinct(NormalForms(declared));
    DistinctExact(NormalForms(declared), s);
    WithStandingExact(enforced, catalogue, names, {Recognised, Catalogued}, s);
    WithStandingExact(enforced, catalogue, names, {Unrecognised}, s);
    WithStandingExact(enforced, catalogue, names, {Catalogued}, s);
    WithStandingExact(enforced, catalogue, names, {Malformed}, s);
    WithStandingInOrder(enforced, catalogue, names, {Recognised, Catalogued});
    WithStandingInOrder(enforced, catalogue, names, {Unrecognised});
    WithStandingInOrder(enforced, catalogue, names, {Catalogued});
    var malformed := WithStanding(enforced, catalogue, names, {Malformed});
    if s in malformed {
      var k :| 0 <= k < |malformed| && malformed[k] == s;
      assert Normalise(d.malformed[k]) == s;
    }
  }

  function Place(d: Decision, standing: Standing, raw: string, scope: string): Decision {
    match standing
    case Malformed => d.(malformed := d.malformed + [raw])
    case Recognised => d.(recognised := d.recognised + [scope])
    case Catalogued => d.(catalogued := d.catalogued + [scope], recognised := d.recognised + [scope])
    case Unrecognised => d.(unrecognised := d.unrecognised + [scope])
  }

  lemma PlaceExtendsPartition(d: Decision, enforced: bool, catalogue: seq<string>, names: seq<string>, raw: string)
    requires Partitions(d, enforced, catalogue, names)
    ensures var scope := Normalise(raw);
      Partitions(Place(d, StandingOf(enforced, catalogue, scope), raw, scope), enforced, catalogue, names + [scope])
  {
    var scope := Normalise(raw);
    StandingStep(enforced, catalogue, names, scope, {Recognised, Catalogued});
    StandingStep(enforced, catalogue, names, scope, {Unrecognised});
    StandingStep(enforced, catalogue, names, scope, {Catalogued});
    StandingStep(enforced, catalogue, names, scope, {Malformed});
  }

  /** Every distinct name a registration declares lands in exactly one of
      recognised, unrecognised and malformed (the last keeps the raw spelling),
      in order of first appearance; only a permissive catalogue is extended. */
  method Resolve(enforced: bool, declared: seq<string>, catalogue: seq<string>) returns (d: Decision)
    ensures Partitions(d, enforced, catalogue, Distinct(NormalForms(declared)))
    ensures enforced ==> d.catalogued == []
  {
    d := Decision([], [], [], []);
    var seen: seq<string> := [];
    ghost var names := NormalForms(declared);
    for n := 0 to |declared|
      invariant seen == Distinct(names[..n])
      invariant Partitions(d, enforced, catalogue, seen)
    {
      DistinctStep(names, n);
      d, seen := Consider(enforced, catalogue, d, seen, declared[n]);
    }
    assert names[..|declared|] == names;
    NoneCatalogued(enforced, catalogue, Distinct(names));
  }

  lemma {:induction false} NoneCatalogued(enforced: bool, catalogue: seq<string>, names: seq<string>)
    ensures enforced ==> WithStanding(enforced, catalogue, names, {Catalogued}) == []
  {
    if names != [] { NoneCatalogued(enforced, catalogue, names[..|names| - 1]); }
  }

  /** One declared name; one whose normal form has been seen is passed over. */
  method Consider(enforced: bool, catalogue: seq<string>, before: Decision, seen: seq<string>, raw: string)
    returns (d: Decision, nowSeen: seq<string>)
    requires Partitions(before, enforced, catalogue, seen)
    ensures nowSeen == seen + if Normalise(raw) in seen then [] else [Normalise(raw)]
    ensures Partitions(d, enforced, catalogue, nowSeen)
  {
    var scope := Normalise(raw);
    if scope in seen {
      return before, seen;
    }
    d := Classify(enforced, catalogue, before, seen, raw, scope);
    nowSeen := seen + [scope];
  }

  lemma DistinctStep(names: seq<string>, n: nat)
    requires n < |names|
    ensures Distinct(names[..n + 1]) ==
      Distinct(names[..n]) + if names[n] in Distinct(names[..n]) then [] else [names[n]]
  {
    assert names[..n + 1][..n] == names[..n];
  }

  method Classify(enforced: bool, catalogue: seq<string>, before: Decision, ghost names: seq<string>,
                  raw: string, scope: string)
    returns (d: Decision)
    requires scope == Normalise(raw) && Partitions(before, enforced, catalogue, names)
    ensures d == Place(before, StandingOf(enforced, catalogue, scope), raw, scope)
    ensures Partitions(d, enforced, catalogue, names + [scope])
  {
    PlaceExtendsPartition(before, enforced, catalogue, names, raw);
    d := before;
    var ok := IsWellFormed(scope);
    if !ok {
      d := d.(malformed := d.malformed + [raw]);
    } else if CoveredByAny(catalogue, scope) {
      d := d.(recognised := d.recognised + [scope]);
    } else if !enforced {
      d := d.(catalogued := d.catalogued + [scope], recognised := d.recognised + [scope]);
    } else {
      d := d.(unrecognised := d.unrecognised + [scope]);
    }
  }
}
