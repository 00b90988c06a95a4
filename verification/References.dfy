/** What a reference means: the value found at a place in memory, projected row by row,
    said without the functions that compute it. */
module References {
  import opened Options
  import opened Json
  import opened StepInputs

  // ------------------------------------------------------------------
  // Paths
  // ------------------------------------------------------------------

  predicate DotFree(part: string) {
    forall i :: 0 <= i < |part| ==> part[i] != '.'
  }

  lemma {:induction false} PartsFromDotFree(part: string, current: string)
    requires DotFree(part)
    ensures PartsFrom(part, current) == if current + part == "" then [] else [current + part]
  {
    if part != "" {
      PartsFromDotFree(part[1..], current + [part[0]]);
      assert current + [part[0]] + part[1..] == current + part;
    } else {
      assert current + part == current;
    }
  }

  lemma {:induction false} PartsFromConcat(a: string, b: string, current: string)
    ensures PartsFrom(a + "." + b, current) == PartsFrom(a, current) + PartsFrom(b, "")
  {
    if a == "" {
      assert (a + "." + b)[1..] == b;
    } else {
      var rest := a[1..] + "." + b;
      assert (a + "." + b)[1..] == rest;
      if a[0] == '.' {
        PartsFromConcat(a[1..], b, "");
      } else {
        PartsFromConcat(a[1..], b, current + [a[0]]);
      }
    }
  }

  /** A path without dots is its only part, unless it is empty, and a dot separates:
      every path is one of the two. */
  lemma {:induction false} PartsExact(a: string, b: string)
    ensures DotFree(a) ==> Parts(a) == if a == "" then [] else [a]
    ensures Parts(a + "." + b) == Parts(a) + Parts(b)
  {
    if DotFree(a) {
      PartsFromDotFree(a, "");
      assert "" + a == a;
    }
    PartsFromConcat(a, b, "");
  }

  /** The first field with the key. */
  ghost predicate IsField(fields: seq<Field>, key: string, v: Json) {
    exists i :: 0 <= i < |fields| && IsFieldAt(fields, key, v, i)
  }

  predicate IsFieldAt(fields: seq<Field>, key: string, v: Json, i: nat)
    requires i < |fields|
  {
    fields[i] == Field(key, v) && forall j :: 0 <= j < i ==> fields[j].key != key
  }

  lemma IsFieldLater(fields: seq<Field>, key: string, v: Json)
    requires fields != [] && fields[0].key != key
    ensures IsField(fields, key, v) <==> IsField(fields[1..], key, v)
  {
    var rest := fields[1..];
    assert forall j :: 0 <= j < |rest| ==> rest[j] == fields[j + 1];
    if i :| 0 <= i < |fields| && IsFieldAt(fields, key, v, i) {
      assert IsFieldAt(rest, key, v, i - 1);
    }
    if i :| 0 <= i < |rest| && IsFieldAt(rest, key, v, i) {
      assert forall j :: 0 < j < i + 1 ==> fields[j] == rest[j - 1];
      assert IsFieldAt(fields, key, v, i + 1);
    }
  }

  lemma {:induction false} FindExact(fields: seq<Field>, key: string, v: Json)
    ensures Find(fields, key) == Some(v) <==> IsField(fields, key, v)
  {
    if fields != [] {
      if fields[0].key == key {
        assert fields[0] == Field(key, v) ==> IsFieldAt(fields, key, v, 0);
      } else {
        FindExact(fields[1..], key, v);
        IsFieldLater(fields, key, v);
      }
    }
  }

  /** The numeral of `n`, perhaps with zeros before it. */
  ghost predicate IsNumeral(part: string, n: nat) {
    exists zeros :: 0 <= zeros <= |part| && IsNumeralAt(part, n, zeros)
  }

  predicate IsNumeralAt(part: string, n: nat, zeros: nat)
    requires zeros <= |part|
  {
    part[zeros..] == Digits(n) && forall i :: 0 <= i < zeros ==> part[i] == '0'
  }

  lemma {:induction false} LeadingZeros(zeros: nat, part: string)
    requires AllDigits(part) && zeros <= |part| && forall i :: 0 <= i < zeros ==> part[i] == '0'
    ensures ParseDigits(part) == ParseDigits(part[zeros..])
  {
    if zeros == |part| {
      AllZeros(part);
    } else {
      var k := |part| - 1;
      if k > 0 {
        LeadingZeros(zeros, part[..k]);
      }
      assert part[zeros..][..k - zeros] == part[..k][zeros..];
    }
  }

  lemma {:induction false} AllZeros(part: string)
    requires forall i :: 0 <= i < |part| ==> part[i] == '0'
    ensures ParseDigits(part) == 0
  {
    if part != "" { AllZeros(part[..|part| - 1]); }
  }

  /** A part of digits alone is the numeral of the number it reads as. */
  lemma {:induction false} NumeralExact(part: string, n: nat)
    ensures AllDigits(part) && ParseDigits(part) == n <==> IsNumeral(part, n)
  {
    if AllDigits(part) && ParseDigits(part) == n {
      IsOwnNumeral(part);
    }
    if zeros :| 0 <= zeros <= |part| && IsNumeralAt(part, n, zeros) {
      forall i | 0 <= i < |part| ensures '0' <= part[i] <= '9' {
        if i >= zeros { assert part[i] == Digits(n)[i - zeros]; }
      }
      LeadingZeros(zeros, part);
      DigitsRoundTrip(n);
    }
  }

  lemma {:induction false} IsOwnNumeral(part: string)
    requires AllDigits(part)
    ensures IsNumeral(part, ParseDigits(part))
  {
    var k := |part| - 1;
    var init := part[..k];
    if k == 0 {
      OneDigit(part);
    } else {
      IsOwnNumeral(init);
      OneMoreDigit(part, ParseDigits(init));
    }
  }

  lemma OneDigit(part: string)
    requires AllDigits(part) && |part| == 1
    ensures IsNumeral(part, ParseDigits(part))
  {
    var last := part[0] as int - '0' as int;
    assert part[0..] == [part[0]] == Digits(last);
    assert part[..0] == "" && ParseDigits(part[..0]) == 0 && ParseDigits(part) == last;
    assert IsNumeralAt(part, last, 0);
  }

  lemma OneMoreDigit(part: string, n: nat)
    requires AllDigits(part) && |part| > 1 && IsNumeral(part[..|part| - 1], n)
    ensures IsNumeral(part, n * 10 + (part[|part| - 1] as int - '0' as int))
  {
    var zeros :| 0 <= zeros <= |part| - 1 && IsNumeralAt(part[..|part| - 1], n, zeros);
    if n == 0 {
      ZeroThenDigit(part, zeros);
    } else {
      NumeralThenDigit(part, n, zeros);
    }
  }

  lemma ZeroThenDigit(part: string, zeros: nat)
    requires AllDigits(part) && zeros < |part| && IsNumeralAt(part[..|part| - 1], 0, zeros)
    ensures IsNumeral(part, part[|part| - 1] as int - '0' as int)
  {
    var k := |part| - 1;
    assert part[..k][zeros..] == "0";
    assert forall i :: 0 <= i < k ==> part[i] == part[..k][i];
    assert part[k - 1] == part[..k][zeros..][0];
    assert part[k..] == [part[k]];
    assert IsNumeralAt(part, part[k] as int - '0' as int, k);
  }

  lemma NumeralThenDigit(part: string, n: nat, zeros: nat)
    requires AllDigits(part) && n > 0 && zeros < |part| && IsNumeralAt(part[..|part| - 1], n, zeros)
    ensures IsNumeral(part, n * 10 + (part[|part| - 1] as int - '0' as int))
  {
    var k := |part| - 1;
    var last := part[k] as int - '0' as int;
    assert part[zeros..] == part[..k][zeros..] + [part[k]];
    assert (n * 10 + last) / 10 == n && (n * 10 + last) % 10 == last;
    assert Digits(n * 10 + last) == Digits(n) + [part[k]];
    assert forall i :: 0 <= i < k ==> part[i] == part[..k][i];
    assert IsNumeralAt(part, n * 10 + last, zeros);
  }

  /** One step down: the field of an object, or the item of a list at a numeral. */
  ghost predicate IsChild(v: Json, part: string, child: Json) {
    || (v.JObj? && IsField(v.fields, part, child))
    || (v.JList? && exists i :: 0 <= i < |v.items| && v.items[i] == child && IsNumeral(part, i))
  }

  ghost predicate Located(v: Json, parts: seq<string>, at: Json) {
    if parts == [] then v == at else exists child :: IsChild(v, parts[0], child) && Located(child, parts[1..], at)
  }

  lemma {:induction false} StepExact(v: Json, part: string, path: string, child: Json)
    ensures Step(v, part, path) == Ok(child) <==> IsChild(v, part, child)
  {
    if v.JObj? {
      FindExact(v.fields, part, child);
    } else if v.JList? {
      if AllDigits(part) { NumeralExact(part, ParseDigits(part)); }
      forall i | 0 <= i < |v.items| && IsNumeral(part, i) ensures AllDigits(part) && ParseDigits(part) == i {
        NumeralExact(part, i);
      }
    }
  }

  /** A path leads to the value that lies there, and nowhere else. */
  lemma {:induction false} WalkExact(v: Json, parts: seq<string>, path: string, at: Json)
    ensures Walk(v, parts, path) == Ok(at) <==> Located(v, parts, at)
  {
    if parts != [] {
      var next := Step(v, parts[0], path);
      if next.Ok? {
        StepExact(v, parts[0], path, next.value);
        WalkExact(next.value, parts[1..], path, at);
      }
      forall child | IsChild(v, parts[0], child) ensures next == Ok(child) {
        StepExact(v, parts[0], path, child);
      }
    }
  }

  lemma {:induction false} LocatedConcat(v: Json, a: seq<string>, b: seq<string>, mid: Json, at: Json)
    requires Located(v, a, mid) && Located(mid, b, at)
    ensures Located(v, a + b, at)
  {
    if a == [] {
      assert a + b == b;
    } else {
      assert (a + b)[1..] == a[1..] + b;
      var child :| IsChild(v, a[0], child) && Located(child, a[1..], mid);
      LocatedConcat(child, a[1..], b, mid, at);
    }
  }

  /** Why a path leads nowhere: at the first part without a child, a key that an object
      lacks, an index past the end of a list, or a part that asks for neither. */
  lemma {:induction false} WalkFailsExactly(v: Json, parts: seq<string>, path: string)
    requires Walk(v, parts, path).Fail?
    ensures exists k, mid ::
      0 <= k < |parts| && Located(v, parts[..k], mid) && FailsAt(mid, parts[k], path, Walk(v, parts, path).failure)
  {
    var next := Step(v, parts[0], path);
    if next.Fail? {
      assert parts[..0] == [] && Located(v, parts[..0], v);
      if v.JList? && AllDigits(parts[0]) { NumeralExact(parts[0], ParseDigits(parts[0])); }
      forall n | IsNumeral(parts[0], n) ensures AllDigits(parts[0]) { NumeralExact(parts[0], n); }
      assert FailsAt(v, parts[0], path, next.failure);
    } else {
      WalkFailsExactly(next.value, parts[1..], path);
      var k, mid :| 0 <= k < |parts[1..]| && Located(next.value, parts[1..][..k], mid)
        && FailsAt(mid, parts[1..][k], path, Walk(next.value, parts[1..], path).failure);
      StepExact(v, parts[0], path, next.value);
      assert parts[..k + 1][1..] == parts[1..][..k];
      assert Located(v, parts[..k + 1], mid) && parts[k + 1] == parts[1..][k];
    }
  }

  ghost predicate FailsAt(v: Json, part: string, path: string, failure: Failure) {
    if v.JObj? then failure == KeyError(part) && forall i :: 0 <= i < |v.fields| ==> v.fields[i].key != part
    else if v.JList? && failure.IndexError? then IsNumeral(part, failure.index) && failure.index >= |v.items|
    else failure == KeyError(path) && (v.JList? ==> forall n: nat :: !IsNumeral(part, n))
  }

  // ------------------------------------------------------------------
  // Projection
  // ------------------------------------------------------------------

  ghost predicate HasField(fields: seq<Field>, key: string) {
    exists i :: 0 <= i < |fields| && fields[i].key == key
  }

  predicate Increasing(at: seq<nat>) {
    forall i, j :: 0 <= i < j < |at| ==> at[i] < at[j]
  }

  /** `row` has, in the order of the projection, one field for each entry whose source
      is there: it goes by the destination's name and holds the source's value. */
  ghost predicate IsRow(fields: seq<Field>, renames: seq<(string, string)>, row: seq<Field>) {
    exists at: seq<nat> :: IsRowBy(fields, renames, row, at)
  }

  ghost predicate IsRowBy(fields: seq<Field>, renames: seq<(string, string)>, row: seq<Field>, at: seq<nat>) {
    Increasing(at) && Entries(fields, renames, row, at) && AllSources(fields, renames, at)
  }

  ghost predicate Entries(fields: seq<Field>, renames: seq<(string, string)>, row: seq<Field>, at: seq<nat>) {
    |at| == |row| && forall j :: 0 <= j < |at| ==> at[j] < |renames| && IsEntry(fields, renames[at[j]], row[j])
  }

  ghost predicate AllSources(fields: seq<Field>, renames: seq<(string, string)>, at: seq<nat>) {
    forall k: nat :: k < |renames| && HasField(fields, renames[k].1) ==> k in at
  }

  ghost predicate IsEntry(fields: seq<Field>, rename: (string, string), entry: Field) {
    entry.key == rename.0 && IsField(fields, rename.1, entry.value)
  }

  ghost predicate IsProjectedOne(v: Json, renames: seq<(string, string)>, r: Json) {
    if v.JObj? then r.JObj? && IsRow(v.fields, renames, r.fields) else r == v
  }

  /** A list is projected item by item; what is no object stays as it is. */
  ghost predicate IsProjected(v: Json, renames: seq<(string, string)>, r: Json) {
    if v.JList?
    then r.JList? && |r.items| == |v.items|
         && forall i :: 0 <= i < |v.items| ==> IsProjectedOne(v.items[i], renames, r.items[i])
    else IsProjectedOne(v, renames, r)
  }

  function Shifted(at: seq<nat>): (r: seq<nat>)
    ensures |r| == |at| && forall i :: 0 <= i < |at| ==> r[i] == at[i] + 1
  {
    if at == [] then [] else [at[0] + 1] + Shifted(at[1..])
  }

  lemma {:induction false} RowsAre(fields: seq<Field>, renames: seq<(string, string)>) returns (at: seq<nat>)
    ensures IsRowBy(fields, renames, Rows(fields, renames), at)
  {
    at := [];
    if renames != [] {
      var rest := RowsAre(fields, renames[1..]);
      var source := Find(fields, renames[0].1);
      at := Shifted(rest);
      if source.Some? {
        FindExact(fields, renames[0].1, source.value);
        at := [0] + at;
        RowMore(fields, renames, Rows(fields, renames[1..]), rest, at, Field(renames[0].0, source.value));
      } else {
        RowLess(fields, renames, Rows(fields, renames[1..]), rest);
        assert [] + Rows(fields, renames[1..]) == Rows(fields, renames[1..]);
      }
    }
  }

  lemma RowLess(fields: seq<Field>, renames: seq<(string, string)>, row: seq<Field>, at: seq<nat>)
    requires renames != [] && IsRowBy(fields, renames[1..], row, at) && !HasField(fields, renames[0].1)
    ensures IsRowBy(fields, renames, row, Shifted(at))
  {
    LessEntries(fields, renames, row, at);
    LessSources(fields, renames, at);
    assert Increasing(Shifted(at));
  }

  lemma LessEntries(fields: seq<Field>, renames: seq<(string, string)>, row: seq<Field>, at: seq<nat>)
    requires renames != [] && Entries(fields, renames[1..], row, at)
    ensures Entries(fields, renames, row, Shifted(at))
  {
    forall j | 0 <= j < |at| ensures at[j] + 1 < |renames| && IsEntry(fields, renames[at[j] + 1], row[j]) {
      NextEntry(fields, renames, row[j], at[j]);
    }
  }

  lemma NextEntry(fields: seq<Field>, renames: seq<(string, string)>, entry: Field, k: nat)
    requires k + 1 < |renames| && IsEntry(fields, renames[1..][k], entry)
    ensures IsEntry(fields, renames[k + 1], entry)
  {
  }

  lemma LessSources(fields: seq<Field>, renames: seq<(string, string)>, at: seq<nat>)
    requires renames != [] && AllSources(fields, renames[1..], at) && !HasField(fields, renames[0].1)
    ensures AllSources(fields, renames, Shifted(at))
  {
    forall k: nat | k < |renames| && HasField(fields, renames[k].1) ensures k in Shifted(at) {
      assert renames[1..][k - 1] == renames[k];
      var j :| 0 <= j < |at| && at[j] == k - 1;
      assert Shifted(at)[j] == k;
    }
  }

  /** `more` is `at` moved by one place, after a zero. */
  predicate IsMoved(at: seq<nat>, more: seq<nat>) {
    |more| == |at| + 1 && more[0] == 0 && forall j :: 0 <= j < |at| ==> more[j + 1] == at[j] + 1
  }

  lemma RowMore(fields: seq<Field>, renames: seq<(string, string)>, row: seq<Field>, at: seq<nat>, more: seq<nat>,
                entry: Field)
    requires renames != [] && IsRowBy(fields, renames[1..], row, at) && IsEntry(fields, renames[0], entry)
    requires IsMoved(at, more)
    ensures IsRowBy(fields, renames, [entry] + row, more)
  {
    MoreEntries(fields, renames, row, at, more, entry);
    MoreSources(fields, renames, at, more);
    MoreIncreasing(at, more);
  }

  lemma MoreIncreasing(at: seq<nat>, more: seq<nat>)
    requires IsMoved(at, more) && Increasing(at)
    ensures Increasing(more)
  {
    forall i, j | 0 <= i < j < |more| ensures more[i] < more[j] {
      assert more[j] == at[j - 1] + 1;
      if i > 0 { assert more[i] == at[i - 1] + 1; }
    }
  }

  lemma MoreEntries(fields: seq<Field>, renames: seq<(string, string)>, row: seq<Field>, at: seq<nat>, more: seq<nat>,
                    entry: Field)
    requires renames != [] && Entries(fields, renames[1..], row, at) && IsEntry(fields, renames[0], entry)
    requires IsMoved(at, more)
    ensures Entries(fields, renames, [entry] + row, more)
  {
    forall j | 0 <= j < |more|
      ensures more[j] < |renames| && IsEntry(fields, renames[more[j]], ([entry] + row)[j])
    {
      if j > 0 {
        assert more[j] == at[j - 1] + 1;
        NextEntry(fields, renames, row[j - 1], at[j - 1]);
      }
    }
  }

  lemma MoreSources(fields: seq<Field>, renames: seq<(string, string)>, at: seq<nat>, more: seq<nat>)
    requires renames != [] && AllSources(fields, renames[1..], at) && IsMoved(at, more)
    ensures AllSources(fields, renames, more)
  {
    forall k: nat | k < |renames| && HasField(fields, renames[k].1) ensures k in more {
      if k == 0 {
        assert more[0] == 0;
      } else {
        assert renames[1..][k - 1] == renames[k];
        var j :| 0 <= j < |at| && at[j] == k - 1;
        assert more[j + 1] == k;
      }
    }
  }

  lemma OnlySources(fields: seq<Field>, renames: seq<(string, string)>, row: seq<Field>, at: seq<nat>)
    requires Entries(fields, renames, row, at)
    ensures forall k :: k in at ==> k < |renames| && HasField(fields, renames[k].1)
  {
    forall k | k in at ensures k < |renames| && HasField(fields, renames[k].1) {
      var j :| 0 <= j < |at| && at[j] == k;
      assert IsEntry(fields, renames[at[j]], row[j]);
    }
  }

  lemma SameMembers(fields: seq<Field>, renames: seq<(string, string)>, x: seq<nat>, y: seq<nat>)
    requires AllSources(fields, renames, x) && AllSources(fields, renames, y)
    requires forall k :: k in x ==> k < |renames| && HasField(fields, renames[k].1)
    requires forall k :: k in y ==> k < |renames| && HasField(fields, renames[k].1)
    ensures forall k :: k in x <==> k in y
  {
  }

  lemma SameEntry(fields: seq<Field>, rename: (string, string), a: Field, b: Field)
    requires IsEntry(fields, rename, a) && IsEntry(fields, rename, b)
    ensures a == b
  {
    FindExact(fields, rename.1, a.value);
    FindExact(fields, rename.1, b.value);
  }

  /** The row is the only one. */
  lemma {:induction false} RowIsUnique(fields: seq<Field>, renames: seq<(string, string)>,
                                       a: seq<Field>, b: seq<Field>, x: seq<nat>, y: seq<nat>)
    requires IsRowBy(fields, renames, a, x) && IsRowBy(fields, renames, b, y)
    ensures a == b
  {
    OnlySources(fields, renames, a, x);
    OnlySources(fields, renames, b, y);
    SameMembers(fields, renames, x, y);
    SameIncreasing(x, y);
    forall j | 0 <= j < |a| ensures a[j] == b[j] {
      SameEntry(fields, renames[x[j]], a[j], b[j]);
    }
  }

  lemma {:induction false} SameIncreasing(x: seq<nat>, y: seq<nat>)
    requires Increasing(x) && Increasing(y) && forall k :: k in x <==> k in y
    ensures x == y
  {
    assert y != [] ==> y[0] in x;
    if x != [] {
      assert x[0] in y;
      var i :| 0 <= i < |y| && y[i] == x[0];
      var j :| 0 <= j < |x| && x[j] == y[0];
      assert x[0] == y[0];
      forall k ensures k in x[1..] <==> k in y[1..] {
        assert k in x[1..] <==> k in x && k != x[0] by { TailOfIncreasing(x, k); }
        assert k in y[1..] <==> k in y && k != y[0] by { TailOfIncreasing(y, k); }
      }
      SameIncreasing(x[1..], y[1..]);
    }
  }

  lemma TailOfIncreasing(x: seq<nat>, k: nat)
    requires x != [] && Increasing(x)
    ensures k in x[1..] <==> k in x && k != x[0]
  {
  }

  lemma {:induction false} ProjectOneExact(v: Json, renames: seq<(string, string)>, r: Json)
    ensures ProjectOne(v, renames) == r <==> IsProjectedOne(v, renames, r)
  {
    if v.JObj? {
      var at := RowsAre(v.fields, renames);
      if r.JObj? && IsRow(v.fields, renames, r.fields) {
        var other :| IsRowBy(v.fields, renames, r.fields, other);
        RowIsUnique(v.fields, renames, Rows(v.fields, renames), r.fields, at, other);
      }
    }
  }

  lemma {:induction false} ProjectExact(v: Json, renames: seq<(string, string)>, r: Json)
    ensures Project(v, renames) == r <==> IsProjected(v, renames, r)
  {
    if v.JList? {
      var all := ProjectAll(v.items, renames);
      forall i | 0 <= i < |v.items| ensures IsProjectedOne(v.items[i], renames, all[i]) {
        ProjectOneExact(v.items[i], renames, all[i]);
      }
      if IsProjected(v, renames, r) {
        forall i | 0 <= i < |v.items| ensures all[i] == r.items[i] {
          ProjectOneExact(v.items[i], renames, r.items[i]);
        }
        assert all == r.items;
      }
    } else {
      ProjectOneExact(v, renames, r);
    }
  }

  // ------------------------------------------------------------------
  // References
  // ------------------------------------------------------------------

  /** What lies at the reference's path, if it has one, in the memory under its key. */
  ghost predicate IsFound(ref: Json, memory: Memory, show: Printer, v: Json)
    requires ref.JObj?
  {
    exists key :: IsField(ref.fields, "$from", JStr(key)) && key in memory && IsAtPath(ref, memory[key], show, v)
  }

  ghost predicate IsAtPath(ref: Json, stored: Json, show: Printer, v: Json)
    requires ref.JObj?
  {
    if HasField(ref.fields, "$path")
    then exists path :: IsField(ref.fields, "$path", path) && Located(stored, Parts(Text(path, show)), v)
    else v == stored
  }

  /** Projected, when the reference carries an object of destinations and sources. */
  ghost predicate IsSelected(ref: Json, show: Printer, v: Json, r: Json)
    requires ref.JObj?
  {
    || (exists fields :: IsField(ref.fields, "$fields", JObj(fields)) && IsProjected(v, Renames(fields, show), r))
    || ((forall fields :: !IsField(ref.fields, "$fields", JObj(fields))) && r == v)
  }

  ghost predicate IsFetched(ref: Json, memory: Memory, show: Printer, r: Json)
    requires ref.JObj?
  {
    exists v :: IsFound(ref, memory, show, v) && IsSelected(ref, show, v, r)
  }

  /** A tree with its references replaced, each by what it stands for, and everything
      else where it was. */
  ghost predicate IsResolved(v: Json, memory: Memory, show: Printer, r: Json)
    decreases v
  {
    if v.JObj? && HasField(v.fields, "$from") then IsFetched(v, memory, show, r)
    else match v
      case JObj(fields) =>
        && r.JObj? && |r.fields| == |fields|
        && forall i :: 0 <= i < |fields| ==>
             r.fields[i].key == fields[i].key && IsResolved(fields[i].value, memory, show, r.fields[i].value)
      case JList(items) =>
        && r.JList? && |r.items| == |items|
        && forall i :: 0 <= i < |items| ==> IsResolved(items[i], memory, show, r.items[i])
      case _ => r == v
  }

  lemma HasFieldExactly(fields: seq<Field>, key: string)
    ensures HasField(fields, key) <==> Find(fields, key).Some?
    ensures Find(fields, key).Some? ==> IsField(fields, key, Find(fields, key).value)
  {
    if Find(fields, key).Some? { FindExact(fields, key, Find(fields, key).value); }
  }

  lemma FieldIsUnique(fields: seq<Field>, key: string, v: Json)
    requires IsField(fields, key, v)
    ensures Find(fields, key) == Some(v)
  {
    FindExact(fields, key, v);
  }

  lemma {:induction false} AtPathExact(ref: Json, stored: Json, show: Printer, v: Json)
    requires ref.JObj?
    ensures var path := Find(ref.fields, PATH);
      IsAtPath(ref, stored, show, v) <==>
        Ok(v) == if path.Some? then Walk(stored, Parts(Text(path.value, show)), Text(path.value, show)) else Ok(stored)
  {
    HasFieldExactly(ref.fields, PATH);
    var path := Find(ref.fields, PATH);
    if path.Some? {
      WalkExact(stored, Parts(Text(path.value, show)), Text(path.value, show), v);
      forall other | IsField(ref.fields, PATH, other) ensures other == path.value {
        FieldIsUnique(ref.fields, PATH, other);
      }
    }
  }

  lemma {:induction false} SelectedExact(ref: Json, show: Printer, v: Json, r: Json)
    requires ref.JObj?
    ensures var fields := Find(ref.fields, FIELDS);
      IsSelected(ref, show, v, r) <==>
        r == if fields.Some? && fields.value.JObj? then Project(v, Renames(fields.value.fields, show)) else v
  {
    HasFieldExactly(ref.fields, FIELDS);
    forall fields | IsField(ref.fields, FIELDS, JObj(fields)) ensures Find(ref.fields, FIELDS) == Some(JObj(fields)) {
      FieldIsUnique(ref.fields, FIELDS, JObj(fields));
    }
    var found := Find(ref.fields, FIELDS);
    if found.Some? && found.value.JObj? {
      ProjectExact(v, Renames(found.value.fields, show), r);
      assert IsField(ref.fields, FIELDS, JObj(found.value.fields));
    }
  }

  /** A reference is replaced by a value exactly when that is the value it stands for. */
  lemma {:induction false} FetchValue(ref: Json, memory: Memory, show: Printer, r: Json)
    requires IsRef(ref)
    ensures Fetch(ref, memory, show) == Ok(r) <==> IsFetched(ref, memory, show, r)
  {
    HasFieldExactly(ref.fields, FROM);
    var key := Find(ref.fields, FROM).value;
    forall name | IsField(ref.fields, FROM, JStr(name)) ensures key == JStr(name) {
      FieldIsUnique(ref.fields, FROM, JStr(name));
    }
    if key.JStr? && key.s in memory {
      forall v ensures IsFound(ref, memory, show, v) <==> IsAtPath(ref, memory[key.s], show, v) {
        assert IsField(ref.fields, FROM, JStr(key.s));
      }
      FetchedFrom(ref, memory, show, r);
    }
  }

  lemma {:induction false} FetchedFrom(ref: Json, memory: Memory, show: Printer, r: Json)
    requires IsRef(ref) && Find(ref.fields, FROM).value.JStr? && Find(ref.fields, FROM).value.s in memory
    requires forall v :: IsFound(ref, memory, show, v) <==>
      IsAtPath(ref, memory[Find(ref.fields, FROM).value.s], show, v)
    ensures Fetch(ref, memory, show) == Ok(r) <==> IsFetched(ref, memory, show, r)
  {
    var stored, path := memory[Find(ref.fields, FROM).value.s], Find(ref.fields, PATH);
    var found :=
      if path.Some? then Walk(stored, Parts(Text(path.value, show)), Text(path.value, show)) else Ok(stored);
    forall v ensures IsAtPath(ref, stored, show, v) <==> found == Ok(v) {
      AtPathExact(ref, stored, show, v);
    }
    if found.Ok? {
      SelectedExact(ref, show, found.value, r);
      assert IsFound(ref, memory, show, found.value);
    }
  }

  /** Why a reference fails: a key that is a list or an object cannot be looked up at all,
      one that is not in memory is missing, and otherwise it is the path that fails. */
  lemma {:induction false} FetchFailsExactly(ref: Json, memory: Memory, show: Printer, key: Json)
    requires IsRef(ref) && Fetch(ref, memory, show).Fail? && IsField(ref.fields, "$from", key)
    ensures var failure := Fetch(ref, memory, show).failure;
      if key.JList? || key.JObj? then failure == TypeError
      else if !key.JStr? || key.s !in memory then failure == KeyError(Text(key, show))
      else exists path :: IsField(ref.fields, "$path", path)
                          && Walk(memory[key.s], Parts(Text(path, show)), Text(path, show)) == Fail(failure)
  {
    FieldIsUnique(ref.fields, FROM, key);
    HasFieldExactly(ref.fields, PATH);
  }

  lemma {:induction false} ResolveValue(v: Json, memory: Memory, show: Printer, r: Json)
    ensures Resolve(v, memory, show) == Ok(r) <==> IsResolved(v, memory, show, r)
    decreases v, 0
  {
    if v.JObj? { HasFieldExactly(v.fields, FROM); }
    if IsRef(v) {
      FetchValue(v, memory, show, r);
    } else if v.JObj? {
      if r.JObj? { ResolveFieldsValue(v.fields, memory, show, r.fields); }
    } else if v.JList? {
      if r.JList? { ResolveItemsValue(v.items, memory, show, r.items); }
    }
  }

  lemma {:induction false} ResolveItemsValue(items: seq<Json>, memory: Memory, show: Printer, r: seq<Json>)
    ensures ResolveItems(items, memory, show) == Ok(r) <==>
      |r| == |items| && forall i :: 0 <= i < |items| ==> IsResolved(items[i], memory, show, r[i])
    decreases items, 1
  {
    if items != [] && r != [] {
      ResolveValue(items[0], memory, show, r[0]);
      ResolveItemsValue(items[1..], memory, show, r[1..]);
      assert r == [r[0]] + r[1..];
      assert forall i :: 0 < i < |items| ==> items[i] == items[1..][i - 1];
      assert forall i :: 0 < i < |r| ==> r[i] == r[1..][i - 1];
    }
  }

  lemma {:induction false} ResolveFieldsValue(fields: seq<Field>, memory: Memory, show: Printer, r: seq<Field>)
    ensures ResolveFields(fields, memory, show) == Ok(r) <==>
      |r| == |fields| && forall i :: 0 <= i < |fields| ==>
        r[i].key == fields[i].key && IsResolved(fields[i].value, memory, show, r[i].value)
    decreases fields, 1
  {
    if fields != [] && r != [] {
      ResolveValue(fields[0].value, memory, show, r[0].value);
      ResolveFieldsValue(fields[1..], memory, show, r[1..]);
      assert r == [r[0]] + r[1..];
      assert forall i :: 0 < i < |fields| ==> fields[i] == fields[1..][i - 1];
      assert forall i :: 0 < i < |r| ==> r[i] == r[1..][i - 1];
    }
  }
}
