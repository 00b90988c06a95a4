/** Substituting references to shared memory into a step's composed parameters. */
module StepInputs {
  import opened Options
  import opened Json

  type Memory = map<string, Json>

  const FROM := "$from"
  const PATH := "$path"
  const FIELDS := "$fields"

  /** The three ways a reference fails: a missing key (the one the composer
      reports), a list index out of range, and a key that cannot be looked up. */
  datatype Failure = KeyError(key: string) | IndexError(index: nat) | TypeError

  datatype Resolved<+T> = Ok(value: T) | Fail(failure: Failure)

  predicate IsRef(v: Json) {
    v.JObj? && Find(v.fields, FROM).Some?
  }

  // ------------------------------------------------------------------
  // Paths
  // ------------------------------------------------------------------

  /** The non-empty parts of a dotted path. */
  function Parts(path: string): (parts: seq<string>)
    ensures forall i :: 0 <= i < |parts| ==> parts[i] != ""
  {
    PartsFrom(path, "")
  }

  function PartsFrom(path: string, current: string): (parts: seq<string>)
    ensures forall i :: 0 <= i < |parts| ==> parts[i] != ""
  {
    var done := if current == "" then [] else [current];
    if path == "" then done
    else if path[0] == '.' then done + PartsFrom(path[1..], "")
    else PartsFrom(path[1..], current + [path[0]])
  }

  predicate AllDigits(part: string) {
    part != "" && forall i :: 0 <= i < |part| ==> '0' <= part[i] <= '9'
  }

  function Step(value: Json, part: string, path: string): Resolved<Json> {
    if value.JObj? then
      var field := Find(value.fields, part);
      if field.Some? then Ok(field.value) else Fail(KeyError(part))
    else if value.JList? && AllDigits(part) then
      var index := ParseDigits(part);
      if index < |value.items| then Ok(value.items[index]) else Fail(IndexError(index))
    else Fail(KeyError(path))
  }

  function Walk(value: Json, parts: seq<string>, path: string): Resolved<Json> {
    if parts == [] then Ok(value)
    else
      var next := Step(value, parts[0], path);
      if next.Fail? then next else Walk(next.value, parts[1..], path)
  }

  method WalkPath(value: Json, path: string) returns (r: Resolved<Json>)
    ensures r == Walk(value, Parts(path), path)
  {
    var parts := Parts(path);
    var current := value;
    for i := 0 to |parts|
      invariant Walk(value, parts, path) == Walk(current, parts[i..], path)
    {
      var next := Step(current, parts[i], path);
      if next.Fail? {
        return next;
      }
      current := next.value;
      assert parts[i..][1..] == parts[i + 1..];
    }
    return Ok(current);
  }

  // ------------------------------------------------------------------
  // Projection
  // ------------------------------------------------------------------

  /** One (destination, source) pair per entry of the projection. */
  function Rows(fields: seq<Field>, renames: seq<(string, string)>): seq<Field> {
    if renames == [] then []
    else
      var source := Find(fields, renames[0].1);
      (if source.Some? then [Field(renames[0].0, source.value)] else []) + Rows(fields, renames[1..])
  }

  function ProjectOne(v: Json, renames: seq<(string, string)>): Json {
    if v.JObj? then JObj(Rows(v.fields, renames)) else v
  }

  function ProjectAll(items: seq<Json>, renames: seq<(string, string)>): (r: seq<Json>)
    ensures |r| == |items| && forall i :: 0 <= i < |items| ==> r[i] == ProjectOne(items[i], renames)
  {
    if items == [] then [] else [ProjectOne(items[0], renames)] + ProjectAll(items[1..], renames)
  }

  function Project(v: Json, renames: seq<(string, string)>): Json {
    if v.JList? then JList(ProjectAll(v.items, renames)) else ProjectOne(v, renames)
  }

  /** Python's `str`, known here only on strings. */
  type Printer = Json -> string

  function Text(v: Json, show: Printer): string {
    if v.JStr? then v.s else show(v)
  }

  function Renames(fields: seq<Field>, show: Printer): (r: seq<(string, string)>)
    ensures |r| == |fields|
    ensures forall i :: 0 <= i < |fields| ==> r[i] == (fields[i].key, Text(fields[i].value, show))
  {
    if fields == [] then [] else [(fields[0].key, Text(fields[0].value, show))] + Renames(fields[1..], show)
  }

  // ------------------------------------------------------------------
  // References and their substitution
  // ------------------------------------------------------------------

  /** What one reference stands for. */
  function Fetch(ref: Json, memory: Memory, show: Printer): Resolved<Json>
    requires IsRef(ref)
  {
    var key := Find(ref.fields, FROM).value;
    if key.JList? || key.JObj? then Fail(TypeError)
    else if !key.JStr? || key.s !in memory then Fail(KeyError(Text(key, show)))
    else
      var path := Find(ref.fields, PATH);
      var found := if path.Some? then Walk(memory[key.s], Parts(Text(path.value, show)), Text(path.value, show))
                   else Ok(memory[key.s]);
      var fields := Find(ref.fields, FIELDS);
      if found.Ok? && fields.Some? && fields.value.JObj?
      then Ok(Project(found.value, Renames(fields.value.fields, show)))
      else found
  }

  function Resolve(inputs: Json, memory: Memory, show: Printer): Resolved<Json>
    decreases inputs, 0
  {
    if IsRef(inputs) then Fetch(inputs, memory, show)
    else match inputs
      case JObj(fields) =>
        var r := ResolveFields(fields, memory, show);
        if r.Ok? then Ok(JObj(r.value)) else Fail(r.failure)
      case JList(items) =>
        var r := ResolveItems(items, memory, show);
        if r.Ok? then Ok(JList(r.value)) else Fail(r.failure)
      case _ => Ok(inputs)
  }

  function ResolveItems(items: seq<Json>, memory: Memory, show: Printer): Resolved<seq<Json>>
    decreases items, 1
  {
    if items == [] then Ok([])
    else
      var head := Resolve(items[0], memory, show);
      if head.Fail? then Fail(head.failure)
      else
        var tail := ResolveItems(items[1..], memory, show);
        if tail.Ok? then Ok([head.value] + tail.value) else tail
  }

  function ResolveFields(fields: seq<Field>, memory: Memory, show: Printer): Resolved<seq<Field>>
    decreases fields, 1
  {
    if fields == [] then Ok([])
    else
      var head := Resolve(fields[0].value, memory, show);
      if head.Fail? then Fail(head.failure)
      else
        var tail := ResolveFields(fields[1..], memory, show);
        if tail.Ok? then Ok([Field(fields[0].key, head.value)] + tail.value) else tail
  }

  /** The references in a value, left to right. Nothing inside a reference is one. */
  ghost function Refs(v: Json): (refs: seq<Json>)
    ensures forall i :: 0 <= i < |refs| ==> IsRef(refs[i])
    decreases v, 0
  {
    if IsRef(v) then [v]
    else match v
      case JObj(fields) => RefsOfFields(fields)
      case JList(items) => RefsOfItems(items)
      case _ => []
  }

  ghost function RefsOfItems(items: seq<Json>): (refs: seq<Json>)
    ensures forall i :: 0 <= i < |refs| ==> IsRef(refs[i])
    decreases items, 1
  {
    if items == [] then [] else Refs(items[0]) + RefsOfItems(items[1..])
  }

  ghost function RefsOfFields(fields: seq<Field>): (refs: seq<Json>)
    ensures forall i :: 0 <= i < |refs| ==> IsRef(refs[i])
    decreases fields, 1
  {
    if fields == [] then [] else Refs(fields[0].value) + RefsOfFields(fields[1..])
  }

  /** The first failure among references, if any fails. */
  ghost function FirstFailure(refs: seq<Json>, memory: Memory, show: Printer): Option<Failure>
    requires forall i :: 0 <= i < |refs| ==> IsRef(refs[i])
  {
    if refs == [] then None
    else
      var first := Fetch(refs[0], memory, show);
      if first.Fail? then Some(first.failure) else FirstFailure(refs[1..], memory, show)
  }

  lemma {:induction false} FirstFailureConcat(a: seq<Json>, b: seq<Json>, memory: Memory, show: Printer)
    requires forall i :: 0 <= i < |a| ==> IsRef(a[i])
    requires forall i :: 0 <= i < |b| ==> IsRef(b[i])
    ensures FirstFailure(a + b, memory, show) ==
      if FirstFailure(a, memory, show).Some? then FirstFailure(a, memory, show) else FirstFailure(b, memory, show)
  {
    if a == [] {
      assert a + b == b;
    } else {
      assert (a + b)[1..] == a[1..] + b;
      FirstFailureConcat(a[1..], b, memory, show);
    }
  }

  ghost predicate Agrees<T>(r: Resolved<T>, failure: Option<Failure>) {
    if failure.Some? then r == Fail(failure.value) else r.Ok?
  }

  /** Resolution succeeds exactly when every reference does, and otherwise fails
      with the failure of the first reference that does not. */
  lemma {:induction false} ResolveExact(v: Json, memory: Memory, show: Printer)
    ensures Agrees(Resolve(v, memory, show), FirstFailure(Refs(v), memory, show))
    decreases v, 0
  {
    if IsRef(v) {
      assert Refs(v)[1..] == [];
    } else if v.JObj? {
      ResolveFieldsExact(v.fields, memory, show);
    } else if v.JList? {
      ResolveItemsExact(v.items, memory, show);
    }
  }

  lemma {:induction false} ResolveItemsExact(items: seq<Json>, memory: Memory, show: Printer)
    ensures Agrees(ResolveItems(items, memory, show), FirstFailure(RefsOfItems(items), memory, show))
    decreases items, 1
  {
    if items != [] {
      ResolveExact(items[0], memory, show);
      ResolveItemsExact(items[1..], memory, show);
      FirstFailureConcat(Refs(items[0]), RefsOfItems(items[1..]), memory, show);
    }
  }

  lemma {:induction false} ResolveFieldsExact(fields: seq<Field>, memory: Memory, show: Printer)
    ensures Agrees(ResolveFields(fields, memory, show), FirstFailure(RefsOfFields(fields), memory, show))
    decreases fields, 1
  {
    if fields != [] {
      ResolveExact(fields[0].value, memory, show);
      ResolveFieldsExact(fields[1..], memory, show);
      FirstFailureConcat(Refs(fields[0].value), RefsOfFields(fields[1..]), memory, show);
    }
  }

  /** A reference is good exactly when its key is a name in memory and its path,
      if it has one, walks. */
  lemma FetchExact(ref: Json, memory: Memory, show: Printer)
    requires IsRef(ref)
    ensures var key, path := Find(ref.fields, FROM).value, Find(ref.fields, PATH);
      Fetch(ref, memory, show).Ok? <==>
        key.JStr? && key.s in memory &&
        (path.None? || Walk(memory[key.s], Parts(Text(path.value, show)), Text(path.value, show)).Ok?)
  {
  }

  // ------------------------------------------------------------------
  // Locality
  // ------------------------------------------------------------------

  ghost predicate SameOn(refs: seq<Json>, a: Memory, b: Memory)
    requires forall i :: 0 <= i < |refs| ==> IsRef(refs[i])
  {
    forall i :: 0 <= i < |refs| && IsRef(refs[i]) ==>
      var key := Find(refs[i].fields, FROM).value;
      key.JStr? ==> (key.s in a <==> key.s in b) && (key.s in a ==> a[key.s] == b[key.s])
  }

  lemma SameOnSplit(x: seq<Json>, y: seq<Json>, a: Memory, b: Memory)
    requires forall i :: 0 <= i < |x| ==> IsRef(x[i])
    requires forall i :: 0 <= i < |y| ==> IsRef(y[i])
    requires SameOn(x + y, a, b)
    ensures SameOn(x, a, b) && SameOn(y, a, b)
  {
    var z := x + y;
    assert forall i :: 0 <= i < |x| ==> z[i] == x[i];
    assert forall i :: 0 <= i < |y| ==> z[|x| + i] == y[i];
  }

  /** The result depends on memory only at the keys the inputs refer to. */
  lemma {:induction false} ResolveIsLocal(v: Json, a: Memory, b: Memory, show: Printer)
    requires SameOn(Refs(v), a, b)
    ensures Resolve(v, a, show) == Resolve(v, b, show)
    decreases v, 0
  {
    if IsRef(v) {
      assert Refs(v)[0] == v;
    } else if v.JObj? {
      ResolveFieldsIsLocal(v.fields, a, b, show);
    } else if v.JList? {
      ResolveItemsIsLocal(v.items, a, b, show);
    }
  }

  lemma {:induction false} ResolveItemsIsLocal(items: seq<Json>, a: Memory, b: Memory, show: Printer)
    requires SameOn(RefsOfItems(items), a, b)
    ensures ResolveItems(items, a, show) == ResolveItems(items, b, show)
    decreases items, 1
  {
    if items != [] {
      SameOnSplit(Refs(items[0]), RefsOfItems(items[1..]), a, b);
      ResolveIsLocal(items[0], a, b, show);
      ResolveItemsIsLocal(items[1..], a, b, show);
    }
  }

  lemma {:induction false} ResolveFieldsIsLocal(fields: seq<Field>, a: Memory, b: Memory, show: Printer)
    requires SameOn(RefsOfFields(fields), a, b)
    ensures ResolveFields(fields, a, show) == ResolveFields(fields, b, show)
    decreases fields, 1
  {
    if fields != [] {
      SameOnSplit(Refs(fields[0].value), RefsOfFields(fields[1..]), a, b);
      ResolveIsLocal(fields[0].value, a, b, show);
      ResolveFieldsIsLocal(fields[1..], a, b, show);
    }
  }

  // ------------------------------------------------------------------
  // Identity, closure, idempotence
  // ------------------------------------------------------------------

  /** Input without references comes back as it is. */
  lemma {:induction false} ResolveIdentity(v: Json, memory: Memory, show: Printer)
    requires Refs(v) == []
    ensures Resolve(v, memory, show) == Ok(v)
    decreases v, 0
  {
    if v.JObj? {
      ResolveFieldsIdentity(v.fields, memory, show);
    } else if v.JList? {
      ResolveItemsIdentity(v.items, memory, show);
    }
  }

  lemma {:induction false} ResolveItemsIdentity(items: seq<Json>, memory: Memory, show: Printer)
    requires RefsOfItems(items) == []
    ensures ResolveItems(items, memory, show) == Ok(items)
    decreases items, 1
  {
    if items != [] {
      ResolveIdentity(items[0], memory, show);
      ResolveItemsIdentity(items[1..], memory, show);
      assert [items[0]] + items[1..] == items;
    }
  }

  lemma {:induction false} ResolveFieldsIdentity(fields: seq<Field>, memory: Memory, show: Printer)
    requires RefsOfFields(fields) == []
    ensures ResolveFields(fields, memory, show) == Ok(fields)
    decreases fields, 1
  {
    if fields != [] {
      ResolveIdentity(fields[0].value, memory, show);
      ResolveFieldsIdentity(fields[1..], memory, show);
      assert [Field(fields[0].key, fields[0].value)] + fields[1..] == fields;
    }
  }

  /** No object anywhere in the value is a reference, including inside others. */
  ghost predicate Clean(v: Json)
    decreases v
  {
    && !IsRef(v)
    && (v.JObj? ==> forall i :: 0 <= i < |v.fields| ==> Clean(v.fields[i].value))
    && (v.JList? ==> forall i :: 0 <= i < |v.items| ==> Clean(v.items[i]))
  }

  ghost predicate CleanMemory(memory: Memory) {
    forall key :: key in memory ==> Clean(memory[key])
  }

  /** No projection renames a field to "$from". */
  ghost predicate SafeTargets(refs: seq<Json>)
    requires forall i :: 0 <= i < |refs| ==> IsRef(refs[i])
  {
    forall i :: 0 <= i < |refs| && IsRef(refs[i]) ==>
      var fields := Find(refs[i].fields, FIELDS);
      fields.Some? && fields.value.JObj? ==> Find(fields.value.fields, FROM).None?
  }

  lemma FindClean(fields: seq<Field>, key: string)
    requires forall i :: 0 <= i < |fields| ==> Clean(fields[i].value)
    ensures Find(fields, key).Some? ==> Clean(Find(fields, key).value)
  {
  }

  lemma {:induction false} WalkClean(v: Json, parts: seq<string>, path: string)
    requires Clean(v)
    ensures Walk(v, parts, path).Ok? ==> Clean(Walk(v, parts, path).value)
  {
    if parts != [] {
      if v.JObj? { FindClean(v.fields, parts[0]); }
      var next := Step(v, parts[0], path);
      if next.Ok? {
        WalkClean(next.value, parts[1..], path);
      }
    }
  }

  lemma {:induction false} RowsClean(fields: seq<Field>, renames: seq<(string, string)>)
    requires forall i :: 0 <= i < |fields| ==> Clean(fields[i].value)
    requires forall i :: 0 <= i < |renames| ==> renames[i].0 != FROM
    ensures forall i :: 0 <= i < |Rows(fields, renames)| ==>
      Clean(Rows(fields, renames)[i].value) && Rows(fields, renames)[i].key != FROM
  {
    if renames != [] {
      RowsClean(fields, renames[1..]);
      FindClean(fields, renames[0].1);
    }
  }

  lemma ProjectOneClean(v: Json, renames: seq<(string, string)>)
    requires Clean(v)
    requires forall i :: 0 <= i < |renames| ==> renames[i].0 != FROM
    ensures Clean(ProjectOne(v, renames))
  {
    if v.JObj? {
      RowsClean(v.fields, renames);
    }
  }

  lemma ProjectClean(v: Json, renames: seq<(string, string)>)
    requires Clean(v)
    requires forall i :: 0 <= i < |renames| ==> renames[i].0 != FROM
    ensures Clean(Project(v, renames))
  {
    if v.JList? {
      forall i | 0 <= i < |v.items| ensures Clean(ProjectAll(v.items, renames)[i]) {
        ProjectOneClean(v.items[i], renames);
      }
    } else {
      ProjectOneClean(v, renames);
    }
  }

  lemma FetchClean(ref: Json, memory: Memory, show: Printer)
    requires IsRef(ref) && CleanMemory(memory) && SafeTargets([ref])
    ensures Fetch(ref, memory, show).Ok? ==> Clean(Fetch(ref, memory, show).value)
  {
    if Fetch(ref, memory, show).Ok? {
      var key := Find(ref.fields, FROM).value;
      var path := Find(ref.fields, PATH);
      if path.Some? {
        WalkClean(memory[key.s], Parts(Text(path.value, show)), Text(path.value, show));
      }
      var fields := Find(ref.fields, FIELDS);
      assert [ref][0] == ref;
      if fields.Some? && fields.value.JObj? {
        var found := if path.Some? then Walk(memory[key.s], Parts(Text(path.value, show)), Text(path.value, show))
                     else Ok(memory[key.s]);
        ProjectClean(found.value, Renames(fields.value.fields, show));
      }
    }
  }

  lemma SafeTargetsSplit(x: seq<Json>, y: seq<Json>)
    requires forall i :: 0 <= i < |x| ==> IsRef(x[i])
    requires forall i :: 0 <= i < |y| ==> IsRef(y[i])
    requires SafeTargets(x + y)
    ensures SafeTargets(x) && SafeTargets(y)
  {
    var z := x + y;
    assert forall i :: 0 <= i < |x| ==> z[i] == x[i];
    assert forall i :: 0 <= i < |y| ==> z[|x| + i] == y[i];
  }

  /** Over reference-free memory, and with no projection target named "$from",
      a resolved value holds no reference at any depth. */
  lemma {:induction false} ResolveIsClosed(v: Json, memory: Memory, show: Printer)
    requires CleanMemory(memory) && SafeTargets(Refs(v))
    ensures Resolve(v, memory, show).Ok? ==> Clean(Resolve(v, memory, show).value)
    decreases v, 0
  {
    if IsRef(v) {
      FetchClean(v, memory, show);
    } else if v.JObj? {
      ResolveFieldsClosed(v.fields, memory, show);
    } else if v.JList? {
      ResolveItemsClosed(v.items, memory, show);
    }
  }

  lemma {:induction false} ResolveItemsClosed(items: seq<Json>, memory: Memory, show: Printer)
    requires CleanMemory(memory) && SafeTargets(RefsOfItems(items))
    ensures ResolveItems(items, memory, show).Ok? ==>
      forall i :: 0 <= i < |ResolveItems(items, memory, show).value| ==>
        Clean(ResolveItems(items, memory, show).value[i])
    decreases items, 1
  {
    if items != [] {
      SafeTargetsSplit(Refs(items[0]), RefsOfItems(items[1..]));
      ResolveIsClosed(items[0], memory, show);
      ResolveItemsClosed(items[1..], memory, show);
    }
  }

  /** Object keys are kept, so an object that was not a reference does not become one. */
  lemma {:induction false} ResolveFieldsClosed(fields: seq<Field>, memory: Memory, show: Printer)
    requires CleanMemory(memory) && SafeTargets(RefsOfFields(fields))
    ensures var r := ResolveFields(fields, memory, show);
      r.Ok? ==> (|r.value| == |fields|
        && forall i :: 0 <= i < |fields| ==> r.value[i].key == fields[i].key && Clean(r.value[i].value))
    decreases fields, 1
  {
    if fields != [] {
      SafeTargetsSplit(Refs(fields[0].value), RefsOfFields(fields[1..]));
      ResolveIsClosed(fields[0].value, memory, show);
      ResolveFieldsClosed(fields[1..], memory, show);
    }
  }

  lemma {:induction false} CleanHasNoRefs(v: Json)
    requires Clean(v)
    ensures Refs(v) == []
    decreases v, 0
  {
    if v.JObj? {
      CleanFieldsHaveNoRefs(v.fields);
    } else if v.JList? {
      CleanItemsHaveNoRefs(v.items);
    }
  }

  lemma {:induction false} CleanItemsHaveNoRefs(items: seq<Json>)
    requires forall i :: 0 <= i < |items| ==> Clean(items[i])
    ensures RefsOfItems(items) == []
    decreases items, 1
  {
    if items != [] {
      CleanHasNoRefs(items[0]);
      CleanItemsHaveNoRefs(items[1..]);
    }
  }

  lemma {:induction false} CleanFieldsHaveNoRefs(fields: seq<Field>)
    requires forall i :: 0 <= i < |fields| ==> Clean(fields[i].value)
    ensures RefsOfFields(fields) == []
    decreases fields, 1
  {
    if fields != [] {
      CleanHasNoRefs(fields[0].value);
      CleanFieldsHaveNoRefs(fields[1..]);
    }
  }

  /** Resolving twice is resolving once, whatever memory the second pass sees. */
  lemma ResolveIdempotent(v: Json, memory: Memory, other: Memory, show: Printer)
    requires CleanMemory(memory) && SafeTargets(Refs(v))
    requires Resolve(v, memory, show).Ok?
    ensures Resolve(Resolve(v, memory, show).value, other, show) == Resolve(v, memory, show)
  {
    ResolveIsClosed(v, memory, show);
    CleanHasNoRefs(Resolve(v, memory, show).value);
    ResolveIdentity(Resolve(v, memory, show).value, other, show);
  }

  /** A projection onto "$from" manufactures a reference, and a second pass then
      fails: closure and idempotence need the condition on targets. */
  lemma ProjectionCanMakeReference(show: Printer)
    ensures var memory := map["rows" := JObj([Field("id", JStr("gone"))])];
      var v := JObj([Field(FROM, JStr("rows")), Field(FIELDS, JObj([Field(FROM, JStr("id"))]))]);
      && CleanMemory(memory)
      && Resolve(v, memory, show) == Ok(JObj([Field(FROM, JStr("gone"))]))
      && Resolve(Resolve(v, memory, show).value, memory, show) == Fail(KeyError("gone"))
  {
    var row := JObj([Field("id", JStr("gone"))]);
    var memory := map["rows" := row];
    var targets := [Field(FROM, JStr("id"))];
    var v := JObj([Field(FROM, JStr("rows")), Field(FIELDS, JObj(targets))]);
    assert Clean(JStr("gone"));
    assert Clean(row);
    assert Find(v.fields, FROM) == Some(JStr("rows"));
    assert Find(v.fields[1..], FIELDS) == Some(JObj(targets));
    assert Find(v.fields, PATH).None?;
    assert Renames(targets, show) == [(FROM, "id")];
    assert Find(row.fields, "id") == Some(JStr("gone"));
    assert Rows(row.fields, [(FROM, "id")]) == [Field(FROM, JStr("gone"))] by {
      assert [(FROM, "id")][1..] == [];
    }
  }
}
