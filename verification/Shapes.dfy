/** What the composing model is shown of shared memory, and what its answer can
    depend on. */
module Shapes {
  import opened Options
  import opened Json
  import opened StepInputs

  const SHAPE_SAMPLE := 3
  const SHAPE_KEYS := 12

  function First<T>(xs: seq<T>, n: nat): seq<T> {
    if |xs| <= n then xs else xs[..n]
  }

  function CommaJoin(parts: seq<string>): string {
    if parts == [] then ""
    else if |parts| == 1 then parts[0]
    else parts[0] + ", " + CommaJoin(parts[1..])
  }

  function Keys(fields: seq<Field>): (keys: seq<string>)
    ensures |keys| == |fields|
  {
    if fields == [] then [] else [fields[0].key] + Keys(fields[1..])
  }

  function AddKeys(keys: seq<string>, more: seq<string>): seq<string>
    decreases |more|
  {
    if more == [] then keys
    else AddKeys(if more[0] in keys then keys else keys + [more[0]], more[1..])
  }

  /** The keys of the objects among `items`, in order of first appearance. */
  function UnionKeys(items: seq<Json>): seq<string> {
    if items == [] then []
    else
      var last := items[|items| - 1];
      var keys := UnionKeys(items[..|items| - 1]);
      if last.JObj? then AddKeys(keys, Keys(last.fields)) else keys
  }

  function TypeName(v: Json): string {
    match v
    case JNull => "NoneType"
    case JBool(_) => "bool"
    case JInt(_) => "int"
    case JFloat(_) => "float"
    case JStr(_) => "str"
    case JList(_) => "list"
    case JObj(_) => "dict"
  }

  function Describe(v: Json, depth: nat): string
    decreases v
  {
    match v
    case JObj(fields) =>
      "{" + CommaJoin(First(Keys(fields), SHAPE_KEYS))
          + (if |fields| <= SHAPE_KEYS then "" else ", \U{2026}") + "}"
    case JList(items) =>
      if items == [] then "list[0]"
      else
        var head := items[0];
        var inner :=
          if head.JObj? then "{" + CommaJoin(First(UnionKeys(First(items, SHAPE_SAMPLE)), SHAPE_KEYS)) + "}"
          else if depth < 1 then Describe(head, depth + 1)
          else TypeName(head);
        "list[" + Digits(|items|) + "] of " + inner
    case JBool(_) => "bool"
    case JStr(s) => "string[" + Digits(|s|) + "]"
    case JInt(_) => "int"
    case JFloat(_) => "float"
    case JNull => "null"
  }

  method DescribeShape(v: Json, depth: nat) returns (text: string)
    ensures text == Describe(v, depth)
    decreases v
  {
    if v.JObj? {
      var keys := First(Keys(v.fields), SHAPE_KEYS);
      var more := if |v.fields| <= SHAPE_KEYS then "" else ", \U{2026}";
      return "{" + CommaJoin(keys) + more + "}";
    }
    if v.JList? {
      if v.items == [] {
        return "list[0]";
      }
      var head := v.items[0];
      var inner;
      if head.JObj? {
        var sample := First(v.items, SHAPE_SAMPLE);
        var keys: seq<string> := [];
        for i := 0 to |sample|
          invariant keys == UnionKeys(sample[..i])
        {
          assert sample[..i + 1][..i] == sample[..i];
          if sample[i].JObj? {
            keys := AddKeys(keys, Keys(sample[i].fields));
          }
        }
        assert sample[..|sample|] == sample;
        inner := "{" + CommaJoin(First(keys, SHAPE_KEYS)) + "}";
      } else if depth < 1 {
        inner := DescribeShape(head, depth + 1);
      } else {
        inner := TypeName(head);
      }
      return "list[" + Digits(|v.items|) + "] of " + inner;
    }
    return Describe(v, depth);
  }

  // ------------------------------------------------------------------
  // Structure
  // ------------------------------------------------------------------

  function Blanks(n: nat): (r: string)
    ensures |r| == n
  {
    if n == 0 then "" else ['_'] + Blanks(n - 1)
  }

  /** The value with its data erased: keys, list lengths, leaf types and string
      lengths stay. */
  function Erase(v: Json): Json
    decreases v, 0
  {
    match v
    case JBool(_) => JBool(false)
    case JInt(_) => JInt(0)
    case JFloat(_) => JFloat(0.0)
    case JStr(s) => JStr(Blanks(|s|))
    case JNull => JNull
    case JList(items) => JList(EraseItems(items))
    case JObj(fields) => JObj(EraseFields(fields))
  }

  function EraseItems(items: seq<Json>): (r: seq<Json>)
    ensures |r| == |items| && forall i :: 0 <= i < |items| ==> r[i] == Erase(items[i])
    decreases items, 1
  {
    if items == [] then [] else [Erase(items[0])] + EraseItems(items[1..])
  }

  function EraseFields(fields: seq<Field>): (r: seq<Field>)
    ensures |r| == |fields|
    ensures forall i :: 0 <= i < |fields| ==> r[i] == Field(fields[i].key, Erase(fields[i].value))
    decreases fields, 1
  {
    if fields == [] then [] else [Field(fields[0].key, Erase(fields[0].value))] + EraseFields(fields[1..])
  }

  predicate SameStructure(a: Json, b: Json) {
    Erase(a) == Erase(b)
  }

  lemma {:induction false} EraseKeys(fields: seq<Field>)
    ensures Keys(EraseFields(fields)) == Keys(fields)
  {
    if fields != [] {
      EraseKeys(fields[1..]);
      assert EraseFields(fields)[1..] == EraseFields(fields[1..]);
    }
  }

  lemma {:induction false} EraseUnionKeys(items: seq<Json>)
    ensures UnionKeys(EraseItems(items)) == UnionKeys(items)
  {
    if items != [] {
      var init, last := items[..|items| - 1], items[|items| - 1];
      assert EraseItems(items)[..|items| - 1] == EraseItems(init);
      EraseUnionKeys(init);
      if last.JObj? { EraseKeys(last.fields); }
    }
  }

  /** No description at any depth says anything about the data. */
  lemma {:induction false} DescribeIgnoresData(v: Json, depth: nat)
    ensures Describe(Erase(v), depth) == Describe(v, depth)
    decreases v
  {
    match v
    case JObj(fields) => EraseKeys(fields);
    case JList(items) =>
      if items != [] {
        var head := items[0];
        if head.JObj? {
          EraseUnionKeys(First(items, SHAPE_SAMPLE));
          assert First(EraseItems(items), SHAPE_SAMPLE) == EraseItems(First(items, SHAPE_SAMPLE));
        } else if depth < 1 {
          DescribeIgnoresData(head, depth + 1);
        }
      }
    case _ =>
  }

  lemma SameStructureSameDescription(a: Json, b: Json, depth: nat)
    requires SameStructure(a, b)
    ensures Describe(a, depth) == Describe(b, depth)
  {
    DescribeIgnoresData(a, depth);
    DescribeIgnoresData(b, depth);
  }

  // ------------------------------------------------------------------
  // The prompt, and composition
  // ------------------------------------------------------------------

  /** The memory block of the prompt: one line per key. */
  function MemoryBlock(entries: seq<Field>): seq<string> {
    if entries == [] then []
    else ["  " + entries[0].key + ": " + Describe(entries[0].value, 0)] + MemoryBlock(entries[1..])
  }

  function ToMemory(entries: seq<Field>): (m: Memory)
    ensures forall k :: k in m <==> exists i :: 0 <= i < |entries| && entries[i].key == k
  {
    if entries == [] then map[] else ToMemory(entries[1..])[entries[0].key := entries[0].value]
  }

  /** A dictionary made from a value; its keys need not be text. */
  type Dict = seq<(Json, Json)>

  function PairsOf(fields: seq<Field>): (r: Dict)
    ensures |r| == |fields| && forall i :: 0 <= i < |r| ==> r[i] == (JStr(fields[i].key), fields[i].value)
  {
    if fields == [] then [] else [(JStr(fields[0].key), fields[0].value)] + PairsOf(fields[1..])
  }

  predicate IsNumber(v: Json) {
    v.JBool? || v.JInt? || v.JFloat?
  }

  function NumberOf(v: Json): real
    requires IsNumber(v)
  {
    match v
    case JBool(b) => if b then 1.0 else 0.0
    case JInt(n) => n as real
    case JFloat(r) => r
  }

  /** Numbers of equal value are one key, true and false counting as 1 and 0. */
  predicate SameKey(a: Json, b: Json) {
    if IsNumber(a) && IsNumber(b) then NumberOf(a) == NumberOf(b) else a == b
  }

  /** Sets a key: an earlier entry keeps its place and its spelling of the key. */
  function Put(dict: Dict, key: Json, value: Json): (r: Dict)
    ensures |r| >= 1
  {
    if dict == [] then [(key, value)]
    else if SameKey(dict[0].0, key) then [(dict[0].0, value)] + dict[1..]
    else [dict[0]] + Put(dict[1..], key, value)
  }

  /** What one element of a list gives `dict`: anything with two parts, the first
      of which can be a key. Two characters of text are such a thing, and so are
      the two keys of an object. */
  function PairOf(item: Json): Option<(Json, Json)> {
    match item
    case JList(parts) =>
      if |parts| == 2 && !parts[0].JList? && !parts[0].JObj? then Some((parts[0], parts[1])) else None
    case JStr(s) => if |s| == 2 then Some((JStr([s[0]]), JStr([s[1]]))) else None
    case JObj(fields) => if |fields| == 2 then Some((JStr(fields[0].key), JStr(fields[1].key))) else None
    case _ => None
  }

  function DictOfItems(items: seq<Json>): Option<Dict> {
    if items == [] then Some([])
    else
      var before, pair := DictOfItems(items[..|items| - 1]), PairOf(items[|items| - 1]);
      if before.None? || pair.None? then None
      else Some(Put(before.value, pair.value.0, pair.value.1))
  }

  /** Python's `dict` of a value; None is an exception. */
  function AsDict(v: Json): Option<Dict> {
    match v
    case JObj(fields) => Some(PairsOf(fields))
    case JList(items) => DictOfItems(items)
    case JStr(s) => if s == "" then Some([]) else None
    case _ => None
  }

  /** The values `dict` takes: objects, empty text, and lists of pairs. */
  predicate Convertible(v: Json) {
    || v.JObj?
    || v == JStr("")
    || (v.JList? && forall i :: 0 <= i < |v.items| ==> PairOf(v.items[i]).Some?)
  }

  lemma {:induction false} DictOfItemsExact(items: seq<Json>)
    ensures DictOfItems(items).Some? <==> forall i :: 0 <= i < |items| ==> PairOf(items[i]).Some?
  {
    if items != [] {
      DictOfItemsExact(items[..|items| - 1]);
    }
  }

  /** What comes of checking a value against a schema: a schema can be unusable from
      the start, or break the check on some values only. */
  datatype Verdict = Unusable | Accepts | Rejects | Breaks

  datatype Raise = LookUp(failure: Failure) | NotADictionary | BrokenCheck

  datatype Composed = Unchecked | Violation | Composed(inputs: Dict) | Raised(raise: Raise)

  /** `ask` is the model, None being a call that failed; `check` is the schema check.
      It reads what was resolved; what is sent is a dictionary made from it. */
  function Compose(hasSchema: bool, hasModel: bool, ask: seq<string> -> Option<Json>, entries: seq<Field>,
                   check: Json -> Verdict, show: Printer): Composed
  {
    if !hasSchema then Unchecked
    else if !hasModel then Violation
    else
      var answer := ask(MemoryBlock(entries));
      if answer.None? || !answer.value.JObj? then Violation
      else
        var resolved := Resolve(answer.value, ToMemory(entries), show);
        if resolved.Fail? then
          if resolved.failure.KeyError? then Violation else Raised(LookUp(resolved.failure))
        else
          var inputs := AsDict(resolved.value);
          if inputs.None? then Raised(NotADictionary)
          else
            match check(resolved.value)
            case Unusable => Unchecked
            case Accepts => Composed(inputs.value)
            case Rejects => Violation
            case Breaks => Raised(BrokenCheck)
  }

  lemma {:induction false} MemoryBlockIgnoresData(entries: seq<Field>)
    ensures MemoryBlock(EraseFields(entries)) == MemoryBlock(entries)
  {
    if entries != [] {
      MemoryBlockIgnoresData(entries[1..]);
      DescribeIgnoresData(entries[0].value, 0);
      assert EraseFields(entries)[1..] == EraseFields(entries[1..]);
    }
  }

  // ------------------------------------------------------------------
  // Resolution respects structure
  // ------------------------------------------------------------------

  function EraseResult(r: Resolved<Json>): Resolved<Json> {
    if r.Ok? then Ok(Erase(r.value)) else r
  }

  lemma {:induction false} FindErase(fields: seq<Field>, key: string)
    ensures Find(EraseFields(fields), key) ==
      if Find(fields, key).Some? then Some(Erase(Find(fields, key).value)) else None
  {
    if fields != [] {
      FindErase(fields[1..], key);
      assert EraseFields(fields)[1..] == EraseFields(fields[1..]);
    }
  }

  lemma {:induction false} WalkErase(v: Json, parts: seq<string>, path: string)
    ensures Walk(Erase(v), parts, path) == EraseResult(Walk(v, parts, path))
  {
    if parts != [] {
      if v.JObj? { FindErase(v.fields, parts[0]); }
      var next := Step(v, parts[0], path);
      assert Step(Erase(v), parts[0], path) == EraseResult(next);
      if next.Ok? { WalkErase(next.value, parts[1..], path); }
    }
  }

  lemma {:induction false} RowsErase(fields: seq<Field>, renames: seq<(string, string)>)
    ensures Rows(EraseFields(fields), renames) == EraseFields(Rows(fields, renames))
  {
    if renames != [] {
      FindErase(fields, renames[0].1);
      RowsErase(fields, renames[1..]);
    }
  }

  lemma ProjectErase(v: Json, renames: seq<(string, string)>)
    ensures Project(Erase(v), renames) == Erase(Project(v, renames))
  {
    match v
    case JObj(fields) => RowsErase(fields, renames);
    case JList(items) =>
      forall i | 0 <= i < |items|
        ensures ProjectOne(Erase(items[i]), renames) == Erase(ProjectOne(items[i], renames))
      {
        if items[i].JObj? { RowsErase(items[i].fields, renames); }
      }
      assert ProjectAll(EraseItems(items), renames) == EraseItems(ProjectAll(items, renames));
    case _ =>
  }

  function EraseMemory(memory: Memory): Memory {
    map k | k in memory :: Erase(memory[k])
  }

  lemma FetchErase(ref: Json, memory: Memory, show: Printer)
    requires IsRef(ref)
    ensures Fetch(ref, EraseMemory(memory), show) == EraseResult(Fetch(ref, memory, show))
  {
    var key := Find(ref.fields, FROM).value;
    if key.JStr? && key.s in memory {
      var path := Find(ref.fields, PATH);
      var fields := Find(ref.fields, FIELDS);
      var found := Ok(memory[key.s]);
      if path.Some? {
        var text := Text(path.value, show);
        WalkErase(memory[key.s], Parts(text), text);
        found := Walk(memory[key.s], Parts(text), text);
      }
      if found.Ok? && fields.Some? && fields.value.JObj? {
        ProjectErase(found.value, Renames(fields.value.fields, show));
      }
    }
  }

  lemma {:induction false} EraseTwice(v: Json)
    ensures Erase(Erase(v)) == Erase(v)
    decreases v, 0
  {
    match v
    case JList(items) =>
      forall i | 0 <= i < |items| ensures Erase(Erase(items[i])) == Erase(items[i]) { EraseTwice(items[i]); }
      assert EraseItems(EraseItems(items)) == EraseItems(items);
    case JObj(fields) =>
      forall i | 0 <= i < |fields| ensures Erase(Erase(fields[i].value)) == Erase(fields[i].value) {
        EraseTwice(fields[i].value);
      }
      assert EraseFields(EraseFields(fields)) == EraseFields(fields);
    case _ =>
  }

  /** Two results of the same standing: the same failure, or values of the same
      structure. */
  predicate SameOutcome(a: Resolved<Json>, b: Resolved<Json>) {
    EraseResult(a) == EraseResult(b)
  }

  /** Erasing memory changes neither whether resolution succeeds, nor why it
      fails, nor the structure of what comes out. */
  lemma {:induction false} ResolveErase(v: Json, memory: Memory, show: Printer)
    ensures SameOutcome(Resolve(v, EraseMemory(memory), show), Resolve(v, memory, show))
    decreases v, 0
  {
    if IsRef(v) {
      FetchErase(v, memory, show);
      if Fetch(v, memory, show).Ok? { EraseTwice(Fetch(v, memory, show).value); }
    } else if v.JObj? {
      ResolveFieldsErase(v.fields, memory, show);
    } else if v.JList? {
      ResolveItemsErase(v.items, memory, show);
    }
  }

  lemma {:induction false} ResolveItemsErase(items: seq<Json>, memory: Memory, show: Printer)
    ensures var e, r := ResolveItems(items, EraseMemory(memory), show), ResolveItems(items, memory, show);
      if r.Ok? then e.Ok? && EraseItems(e.value) == EraseItems(r.value) else e == r
    decreases items, 1
  {
    if items != [] {
      ResolveErase(items[0], memory, show);
      ResolveItemsErase(items[1..], memory, show);
    }
  }

  lemma {:induction false} ResolveFieldsErase(fields: seq<Field>, memory: Memory, show: Printer)
    ensures var e, r := ResolveFields(fields, EraseMemory(memory), show), ResolveFields(fields, memory, show);
      if r.Ok? then e.Ok? && EraseFields(e.value) == EraseFields(r.value) else e == r
    decreases fields, 1
  {
    if fields != [] {
      ResolveErase(fields[0].value, memory, show);
      ResolveFieldsErase(fields[1..], memory, show);
    }
  }

  lemma EraseMemoryPut(memory: Memory, key: string, value: Json)
    ensures EraseMemory(memory[key := value]) == EraseMemory(memory)[key := Erase(value)]
  {
  }

  lemma {:induction false} ToMemoryErase(entries: seq<Field>)
    ensures ToMemory(EraseFields(entries)) == EraseMemory(ToMemory(entries))
  {
    if entries != [] {
      ToMemoryErase(entries[1..]);
      EraseMemoryPut(ToMemory(entries[1..]), entries[0].key, entries[0].value);
      assert EraseFields(entries)[1..] == EraseFields(entries[1..]);
    }
  }

  /** Information flow: for two memories of the same structure the model gets the
      same prompt, so it gives the same answer, and that answer resolves to
      values of the same structure or fails the same way. */
  lemma MemoryDataStaysOutOfPrompt(a: seq<Field>, b: seq<Field>, ask: seq<string> -> Option<Json>, show: Printer)
    requires EraseFields(a) == EraseFields(b)
    ensures MemoryBlock(a) == MemoryBlock(b)
    ensures var x, y := ask(MemoryBlock(a)), ask(MemoryBlock(b));
      x == y && (x.Some? ==> SameOutcome(Resolve(x.value, ToMemory(a), show), Resolve(y.value, ToMemory(b), show)))
  {
    MemoryBlockIgnoresData(a);
    MemoryBlockIgnoresData(b);
    var x := ask(MemoryBlock(a));
    if x.Some? {
      ToMemoryErase(a);
      ToMemoryErase(b);
      ResolveErase(x.value, ToMemory(a), show);
      ResolveErase(x.value, ToMemory(b), show);
    }
  }

  /** Composition ends in an exception, rather than a reported violation, exactly
      when the first failing reference fails for another reason than its key, or
      none fails and either the answer is itself a reference, to something that makes
      no dictionary, or the check breaks on what was resolved. */
  lemma {:induction false} ComposeRaisesExactly(ask: seq<string> -> Option<Json>, entries: seq<Field>,
                                                check: Json -> Verdict, show: Printer)
    ensures var answer, memory := ask(MemoryBlock(entries)), ToMemory(entries);
      Compose(true, true, ask, entries, check, show).Raised? <==>
        answer.Some? && answer.value.JObj? &&
        var failure := FirstFailure(Refs(answer.value), memory, show);
        if failure.Some? then !failure.value.KeyError?
        else
          || (IsRef(answer.value) && !Convertible(Fetch(answer.value, memory, show).value))
          || (var resolved := Resolve(answer.value, memory, show); resolved.Ok? && check(resolved.value) == Breaks)
  {
    var answer, memory := ask(MemoryBlock(entries)), ToMemory(entries);
    if answer.Some? {
      ResolveExact(answer.value, memory, show);
      if IsRef(answer.value) {
        assert Refs(answer.value) == [answer.value];
        var fetched := Fetch(answer.value, memory, show);
        if fetched.Ok? && fetched.value.JList? { DictOfItemsExact(fetched.value.items); }
      }
    }
  }

  /** The whole value under one key, the first form of reference there is. */
  const WHOLE := JObj([Field(FROM, JStr("k"))])

  lemma WholeResolves(v: Json, show: Printer)
    ensures IsRef(WHOLE) && Resolve(WHOLE, ToMemory([Field("k", v)]), show) == Ok(v)
    ensures Refs(WHOLE) == [WHOLE] && SafeTargets(Refs(WHOLE))
  {
  }

  /** A reference to text, a number, null, or rows of one key each resolves, and
      composition raises all the same. */
  lemma {:induction false} WholeValueRaises(v: Json, check: Json -> Verdict, show: Printer)
    requires v in {JStr("text"), JInt(1), JNull, JList([JObj([Field("id", JInt(1))])])}
    ensures Compose(true, true, _ => Some(WHOLE), [Field("k", v)], check, show) == Raised(NotADictionary)
  {
    WholeResolves(v, show);
    if v.JList? {
      assert PairOf(v.items[0]).None?;
      DictOfItemsExact(v.items);
    }
  }

  /** A schema that is usable as a whole can look up something missing for one of its
      properties: composition then raises on the answers that have the property and
      succeeds on those that leave it out. */
  lemma {:induction false} DanglingSchemaRaises(entries: seq<Field>, show: Printer)
    ensures var check := (v: Json) => if v.JObj? && Find(v.fields, "a").Some? then Breaks else Accepts;
      && Compose(true, true, _ => Some(JObj([Field("a", JInt(1))])), entries, check, show) == Raised(BrokenCheck)
      && Compose(true, true, _ => Some(JObj([])), entries, check, show) == Composed([])
  {
    var field := Field("a", JInt(1));
    assert !IsRef(JObj([field])) && [field][1..] == [];
    assert RefsOfFields([field]) == Refs(field.value) + RefsOfFields([]);
    ResolveIdentity(JObj([field]), ToMemory(entries), show);
  }

  /** What was resolved was accepted by the schema and, with reference-free memory and
      safe targets, holds no reference; what is sent is that very object, unless
      the answer was itself a reference, to something that is not one. */
  lemma ComposedIsCheckedAndClosed(hasSchema: bool, hasModel: bool, ask: seq<string> -> Option<Json>,
                                   entries: seq<Field>, check: Json -> Verdict, show: Printer)
    requires Compose(hasSchema, hasModel, ask, entries, check, show).Composed?
    requires CleanMemory(ToMemory(entries)) && SafeTargets(Refs(ask(MemoryBlock(entries)).value))
    ensures var inputs := Compose(hasSchema, hasModel, ask, entries, check, show).inputs;
      var answer := ask(MemoryBlock(entries)).value;
      var resolved := Resolve(answer, ToMemory(entries), show).value;
      && check(resolved) == Accepts && Clean(resolved)
      && (resolved.JObj? ==> inputs == PairsOf(resolved.fields))
      && (!IsRef(answer) ==> resolved.JObj?)
  {
    ResolveIsClosed(ask(MemoryBlock(entries)).value, ToMemory(entries), show);
  }

  /** A list the schema accepts is sent as a dictionary it never saw, which can even
      be a reference. */
  lemma {:induction false} SentCanDifferFromChecked(show: Printer)
    ensures var pairs := JList([JList([JStr(FROM), JStr("x")])]);
      && CleanMemory(ToMemory([Field("k", pairs)]))
      && Compose(true, true, _ => Some(WHOLE), [Field("k", pairs)],
                 (v: Json) => if v.JList? then Accepts else Rejects, show)
         == Composed(PairsOf([Field(FROM, JStr("x"))]))
  {
    var pair := JList([JStr(FROM), JStr("x")]);
    var pairs := JList([pair]);
    WholeResolves(pairs, show);
    var field := Field(FROM, JStr("x"));
    assert Clean(pair) && Clean(pairs);
    assert pair.items[0] == JStr(FROM) && pair.items[1] == JStr("x");
    assert PairOf(pair) == Some((JStr(FROM), JStr("x")));
    assert pairs.items[..0] == [] && pairs.items[0] == pair && [field][1..] == [];
    assert DictOfItems(pairs.items) == Some(Put([], JStr(FROM), JStr("x")));
    assert PairsOf([field]) == [(JStr(FROM), JStr("x"))];
  }
}
