/** What the description of a shape says, so that a reader, or a model, can rely on it:
    kinds, lengths and key names can be read back from it. */
module ShapeTexts {
  import opened Options
  import opened Json
  import opened Shapes

  // ------------------------------------------------------------------
  // Kinds
  // ------------------------------------------------------------------

  /** The letter every description of such a value begins with; no two kinds share one. */
  function Initial(v: Json): char {
    match v
    case JNull => 'n'
    case JBool(_) => 'b'
    case JInt(_) => 'i'
    case JFloat(_) => 'f'
    case JStr(_) => 's'
    case JList(_) => 'l'
    case JObj(_) => '{'
  }

  lemma KindCanBeRead(v: Json, depth: nat)
    ensures |Describe(v, depth)| >= 2 && Describe(v, depth)[0] == Initial(v)
  {
  }

  lemma LeafTexts()
    ensures forall b: bool, d: nat :: Describe(JBool(b), d) == "bool"
    ensures forall n: int, d: nat :: Describe(JInt(n), d) == "int"
    ensures forall r: real, d: nat :: Describe(JFloat(r), d) == "float"
    ensures forall d: nat :: Describe(JNull, d) == "null" && Describe(JList([]), d) == "list[0]"
  {
  }

  /** Inside a list of lists only the kind of the first item is said. */
  lemma NestedTexts(v: Json)
    ensures TypeName(v) ==
      match v
      case JNull => "NoneType"
      case JBool(_) => "bool"
      case JInt(_) => "int"
      case JFloat(_) => "float"
      case JStr(_) => "str"
      case JList(_) => "list"
      case JObj(_) => "dict"
  {
  }

  // ------------------------------------------------------------------
  // Lengths
  // ------------------------------------------------------------------

  /** The number between the first brackets is the length of a text or a list. */
  ghost predicate SaysLength(text: string, word: string, n: nat) {
    && |word| + 2 < |text| && text[..|word|] == word && text[|word|] == '['
    && exists close :: |word| < close < |text| && text[close] == ']' && IsNumber(text[|word| + 1..close], n)
  }

  predicate IsNumber(text: string, n: nat) {
    text != "" && (forall i :: 0 <= i < |text| ==> '0' <= text[i] <= '9') && ParseDigits(text) == n
  }

  lemma BracketsSayLength(word: string, n: nat, rest: string)
    ensures SaysLength(word + "[" + Digits(n) + "]" + rest, word, n)
  {
    var text := word + "[" + Digits(n) + "]" + rest;
    var close := |word| + 1 + |Digits(n)|;
    assert text[|word| + 1..close] == Digits(n) && text[close] == ']';
    DigitsRoundTrip(n);
  }

  /** Only one number can be read from a text. */
  lemma LengthIsUnique(text: string, word: string, m: nat, n: nat)
    requires SaysLength(text, word, m) && SaysLength(text, word, n)
    ensures m == n
  {
    var a :| |word| < a < |text| && text[a] == ']' && IsNumber(text[|word| + 1..a], m);
    var b :| |word| < b < |text| && text[b] == ']' && IsNumber(text[|word| + 1..b], n);
    OnlyDigits(text, |word| + 1, a);
    OnlyDigits(text, |word| + 1, b);
  }

  lemma OnlyDigits(text: string, from: nat, to: nat)
    requires from <= to <= |text| && forall i :: 0 <= i < to - from ==> '0' <= text[from..to][i] <= '9'
    ensures forall k :: from <= k < to ==> text[k] != ']'
  {
    assert forall k :: from <= k < to ==> text[k] == text[from..to][k - from];
  }

  lemma {:induction false} StringLengthCanBeRead(s: string, depth: nat)
    ensures SaysLength(Describe(JStr(s), depth), "string", |s|)
  {
    BracketsSayLength("string", |s|, "");
    assert "string" + "[" + Digits(|s|) + "]" + "" == "string[" + Digits(|s|) + "]";
  }

  lemma {:induction false} ListLengthCanBeRead(items: seq<Json>, depth: nat)
    ensures SaysLength(Describe(JList(items), depth), "list", |items|)
  {
    if items == [] {
      ListSaysLength(0, "");
      assert "list[" + Digits(0) + "]" + "" == "list[0]";
    } else {
      var inner := ItemText(items, depth);
      ListSaysLength(|items|, " of " + inner);
      SplitBracket(Digits(|items|), inner);
    }
  }

  lemma SplitBracket(digits: string, inner: string)
    ensures "list[" + digits + "]" + (" of " + inner) == "list[" + digits + "] of " + inner
  {
  }

  lemma ListSaysLength(n: nat, rest: string)
    ensures SaysLength("list[" + Digits(n) + "]" + rest, "list", n)
  {
    BracketsSayLength("list", n, rest);
    assert "list" + "[" + Digits(n) == "list[" + Digits(n);
  }

  /** What follows the length of a list. */
  lemma ItemText(items: seq<Json>, depth: nat) returns (inner: string)
    requires items != []
    ensures Describe(JList(items), depth) == "list[" + Digits(|items|) + "] of " + inner
    ensures items[0].JObj? ==>
      inner == "{" + CommaJoin(First(UnionKeys(First(items, 3)), 12)) + "}"
    ensures !items[0].JObj? && depth == 0 ==> inner == Describe(items[0], 1)
    ensures !items[0].JObj? && depth > 0 ==> inner == TypeName(items[0])
  {
    var head := items[0];
    inner :=
      if head.JObj? then "{" + CommaJoin(First(UnionKeys(First(items, SHAPE_SAMPLE)), SHAPE_KEYS)) + "}"
      else if depth < 1 then Describe(head, depth + 1)
      else TypeName(head);
  }

  // ------------------------------------------------------------------
  // Keys
  // ------------------------------------------------------------------

  /** The description without its closing brace. */
  function Opened(text: string): string
    requires text != ""
  {
    text[..|text| - 1]
  }

  /** An object's description, key by key: each of the first twelve fields adds its own key
      at the end, the thirteenth three dots, and later ones nothing. */
  lemma {:induction false} KeysInOrder(fields: seq<Field>, field: Field, depth: nat)
    ensures Describe(JObj([]), depth) == "{}"
    ensures var before, after := Describe(JObj(fields), depth), Describe(JObj(fields + [field]), depth);
      && before != "" && after != "" && after[|after| - 1] == '}'
      && (fields == [] ==> Opened(after) == "{" + field.key)
      && (0 < |fields| < 12 ==> Opened(after) == Opened(before) + ", " + field.key)
      && (|fields| == 12 ==> Opened(after) == Opened(before) + ", \U{2026}")
      && (|fields| > 12 ==> after == before)
  {
    KeysAppend(fields, field);
    if |fields| < 12 {
      KeyAdded(Keys(fields), field.key);
    } else {
      KeyLeftOut(Keys(fields), field.key);
    }
  }

  /** The text of an object with these keys. */
  function ObjectText(keys: seq<string>): string {
    "{" + CommaJoin(First(keys, 12)) + (if |keys| <= 12 then "" else ", \U{2026}") + "}"
  }

  lemma KeyAdded(keys: seq<string>, key: string)
    requires |keys| < 12
    ensures ObjectText([]) == "{}"
    ensures var before, after := ObjectText(keys), ObjectText(keys + [key]);
      && before != "" && after != "" && after[|after| - 1] == '}'
      && Opened(after) == if keys == [] then "{" + key else Opened(before) + ", " + key
  {
    CommaJoinAppend(keys, key);
    ClosedObject(keys, false);
    ClosedObject(keys + [key], false);
    assert keys != [] ==> "{" + (CommaJoin(keys) + ", " + key) == ("{" + CommaJoin(keys)) + ", " + key;
  }

  lemma KeyLeftOut(keys: seq<string>, key: string)
    requires |keys| >= 12
    ensures var before, after := ObjectText(keys), ObjectText(keys + [key]);
      && before != "" && after != "" && after[|after| - 1] == '}'
      && (|keys| == 12 ==> Opened(after) == Opened(before) + ", \U{2026}")
      && (|keys| > 12 ==> after == before)
  {
    assert (keys + [key])[..12] == keys[..12];
    ClosedObject(First(keys, 12), |keys| > 12);
    ClosedObject(First(keys, 12), true);
  }

  lemma ClosedObject(keys: seq<string>, more: bool)
    ensures var text := "{" + CommaJoin(keys) + (if more then ", \U{2026}" else "") + "}";
      text[|text| - 1] == '}' && Opened(text) == "{" + CommaJoin(keys) + (if more then ", \U{2026}" else "")
  {
  }

  lemma {:induction false} KeysAppend(fields: seq<Field>, field: Field)
    ensures Keys(fields + [field]) == Keys(fields) + [field.key]
  {
    if fields == [] {
      assert fields + [field] == [field];
    } else {
      assert (fields + [field])[1..] == fields[1..] + [field];
      KeysAppend(fields[1..], field);
    }
  }

  lemma {:induction false} CommaJoinAppend(parts: seq<string>, part: string)
    ensures CommaJoin(parts + [part]) == if parts == [] then part else CommaJoin(parts) + ", " + part
  {
    if |parts| > 1 {
      CommaJoinAppend(parts[1..], part);
      assert (parts + [part])[1..] == parts[1..] + [part];
      assert parts[0] + ", " + (CommaJoin(parts[1..]) + ", " + part) == CommaJoin(parts) + ", " + part;
    } else if |parts| == 1 {
      assert (parts + [part])[1..] == [part];
    }
  }

  /** Key `key` is that of the `j`-th field of the `i`-th object. */
  ghost predicate IsKeyAt(items: seq<Json>, i: nat, j: nat, key: string) {
    i < |items| && items[i].JObj? && j < |items[i].fields| && items[i].fields[j].key == key
  }

  ghost predicate IsKeyOf(items: seq<Json>, key: string) {
    exists i: nat, j: nat :: IsKeyAt(items, i, j, key)
  }

  predicate NoRepeats(keys: seq<string>) {
    forall i, j :: 0 <= i < j < |keys| ==> keys[i] != keys[j]
  }

  lemma {:induction false} AddKeysExact(keys: seq<string>, more: seq<string>)
    requires NoRepeats(keys)
    ensures NoRepeats(AddKeys(keys, more)) && keys <= AddKeys(keys, more)
    ensures forall key :: key in AddKeys(keys, more) <==> key in keys || key in more
    decreases |more|
  {
    if more != [] {
      AddKeysExact(if more[0] in keys then keys else keys + [more[0]], more[1..]);
    }
  }

  lemma {:induction false} KeysExact(fields: seq<Field>)
    ensures |Keys(fields)| == |fields| && forall i :: 0 <= i < |fields| ==> Keys(fields)[i] == fields[i].key
  {
    if fields != [] { KeysExact(fields[1..]); }
  }

  /** The keys of a sample of rows: each key of some object once; those of the rows so far
      stay in front when another row is looked at, and the first object's come first,
      in its order. */
  lemma {:induction false} UnionKeysExact(items: seq<Json>)
    ensures NoRepeats(UnionKeys(items)) && forall key :: key in UnionKeys(items) <==> IsKeyOf(items, key)
    ensures items != [] ==> UnionKeys(items[..|items| - 1]) <= UnionKeys(items)
  {
    if items != [] {
      var init, last := items[..|items| - 1], items[|items| - 1];
      UnionKeysExact(init);
      if last.JObj? {
        AddKeysExact(UnionKeys(init), Keys(last.fields));
        KeysExact(last.fields);
      }
      forall key ensures IsKeyOf(items, key) <==> IsKeyOf(init, key) || (last.JObj? && key in Keys(last.fields)) {
        KeyOfLast(items, key);
      }
    }
  }

  lemma {:induction false} KeyOfLast(items: seq<Json>, key: string)
    requires items != []
    ensures var init, last := items[..|items| - 1], items[|items| - 1];
      IsKeyOf(items, key) <==> IsKeyOf(init, key) || (last.JObj? && key in Keys(last.fields))
  {
    var init, last := items[..|items| - 1], items[|items| - 1];
    if last.JObj? { KeysExact(last.fields); }
    if i: nat, j: nat :| IsKeyAt(items, i, j, key) {
      assert i < |items| - 1 ==> IsKeyAt(init, i, j, key);
    }
    if i: nat, j: nat :| IsKeyAt(init, i, j, key) {
      assert IsKeyAt(items, i, j, key);
    }
    if last.JObj? && key in Keys(last.fields) {
      var j :| 0 <= j < |Keys(last.fields)| && Keys(last.fields)[j] == key;
      assert IsKeyAt(items, |items| - 1, j, key);
    }
  }

  /** The memory block: a line for each key, with the description of its own value. */
  lemma {:induction false} LinesExact(entries: seq<Field>)
    ensures |MemoryBlock(entries)| == |entries|
    ensures forall i :: 0 <= i < |entries| ==>
      MemoryBlock(entries)[i] == "  " + entries[i].key + ": " + Describe(entries[i].value, 0)
  {
    if entries != [] { LinesExact(entries[1..]); }
  }
}
