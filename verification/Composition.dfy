/** What composing a step's parameters comes to, case by case, and what is sent. */
module Composition {
  import opened Options
  import opened Json
  import opened StepInputs
  import opened References
  import opened Shapes

  // ------------------------------------------------------------------
  // Dictionaries
  // ------------------------------------------------------------------

  function Lookup(dict: Dict, key: Json): Option<Json> {
    if dict == [] then None
    else if SameKey(dict[0].0, key) then Some(dict[0].1)
    else Lookup(dict[1..], key)
  }

  lemma SameKeyIsEquivalence(a: Json, b: Json, c: Json)
    ensures SameKey(a, a) && (SameKey(a, b) <==> SameKey(b, a))
    ensures SameKey(a, b) && SameKey(b, c) ==> SameKey(a, c)
  {
  }

  lemma {:induction false} PutExact(dict: Dict, key: Json, value: Json, k: Json)
    ensures Lookup(Put(dict, key, value), k) == if SameKey(key, k) then Some(value) else Lookup(dict, k)
  {
    if dict != [] {
      SameKeyIsEquivalence(dict[0].0, key, k);
      SameKeyIsEquivalence(key, dict[0].0, k);
      if !SameKey(dict[0].0, key) {
        PutExact(dict[1..], key, value, k);
        assert Put(dict, key, value)[1..] == Put(dict[1..], key, value);
      }
    }
  }

  /** A list of two, the first no list or object; a text of two characters; or an object of
      two fields, of which only the keys count. */
  lemma PairExactly(item: Json, key: Json, value: Json)
    ensures PairOf(item) == Some((key, value)) <==>
      || (item == JList([key, value]) && !key.JList? && !key.JObj?)
      || (item.JStr? && |item.s| == 2 && key == JStr(item.s[..1]) && value == JStr(item.s[1..]))
      || (item.JObj? && |item.fields| == 2 && key == JStr(item.fields[0].key) && value == JStr(item.fields[1].key))
  {
    match item
    case JList(parts) => assert |parts| == 2 ==> parts == [parts[0], parts[1]];
    case JStr(s) => assert |s| == 2 ==> s[..1] == [s[0]] && s[1..] == [s[1]];
    case _ =>
  }

  /** The `i`-th item is a pair for this key, and the last one. */
  predicate IsLastPair(items: seq<Json>, key: Json, i: nat)
    requires i < |items|
  {
    IsPairFor(items[i], key) && forall j :: i < j < |items| ==> !IsPairFor(items[j], key)
  }

  predicate IsPairFor(item: Json, key: Json) {
    PairOf(item).Some? && SameKey(PairOf(item).value.0, key)
  }

  /** A list of pairs makes a dictionary in which the last pair for a key counts. */
  lemma {:induction false} DictOfItemsLookup(items: seq<Json>, key: Json)
    requires DictOfItems(items).Some?
    ensures var found := Lookup(DictOfItems(items).value, key);
      && (found.None? <==> forall i :: 0 <= i < |items| ==> !IsPairFor(items[i], key))
      && forall i :: 0 <= i < |items| && IsLastPair(items, key, i) ==> found == Some(PairOf(items[i]).value.1)
  {
    if items != [] {
      var init, last := items[..|items| - 1], items[|items| - 1];
      DictOfItemsLookup(init, key);
      PutExact(DictOfItems(init).value, PairOf(last).value.0, PairOf(last).value.1, key);
      assert forall i :: 0 <= i < |init| ==> items[i] == init[i];
      forall i | 0 <= i < |items| && IsLastPair(items, key, i)
        ensures Lookup(DictOfItems(items).value, key) == Some(PairOf(items[i]).value.1)
      {
        if i < |init| { assert IsLastPair(init, key, i) && !IsPairFor(items[|init|], key); }
      }
    }
  }

  /** What is sent for a resolved value: an object's own fields, nothing for empty text, and
      for a list of pairs the dictionary of them. */
  ghost predicate IsSent(v: Json, dict: Dict) {
    match v
    case JObj(fields) =>
      |dict| == |fields| && forall i :: 0 <= i < |fields| ==> dict[i] == (JStr(fields[i].key), fields[i].value)
    case JStr(s) => s == "" && dict == []
    case JList(items) =>
      && (forall i :: 0 <= i < |items| ==> PairOf(items[i]).Some?)
      && forall key :: IsDictFor(items, key, Lookup(dict, key))
    case _ => false
  }

  ghost predicate IsDictFor(items: seq<Json>, key: Json, found: Option<Json>) {
    && (found.None? <==> forall i :: 0 <= i < |items| ==> !IsPairFor(items[i], key))
    && forall i :: 0 <= i < |items| && IsLastPair(items, key, i) ==> found == Some(PairOf(items[i]).value.1)
  }

  lemma {:induction false} AsDictExact(v: Json)
    ensures AsDict(v).Some? <==> Convertible(v)
    ensures AsDict(v).Some? ==> IsSent(v, AsDict(v).value)
  {
    if v.JList? {
      DictOfItemsExact(v.items);
      if AsDict(v).Some? {
        forall key ensures IsDictFor(v.items, key, Lookup(AsDict(v).value, key)) { DictOfItemsLookup(v.items, key); }
      }
    }
  }

  // ------------------------------------------------------------------
  // Outcomes
  // ------------------------------------------------------------------

  /** Memory as the step sees it: under each key its own value. */
  lemma {:induction false} ToMemoryExact(entries: seq<Field>, key: string)
    requires key in ToMemory(entries)
    ensures IsField(entries, key, ToMemory(entries)[key])
  {
    if entries[0].key == key {
      assert IsFieldAt(entries, key, ToMemory(entries)[key], 0);
    } else {
      ToMemoryExact(entries[1..], key);
      IsFieldLater(entries, key, ToMemory(entries)[key]);
    }
  }

  /** Without a schema nothing is checked; without a model, an answer, or an object for an
      answer the step is reported; and so is a reference to a key that is not there, or a
      path that leads nowhere by name. Other failing references raise. */
  lemma {:induction false} ComposeStopsExactly(hasSchema: bool, hasModel: bool, ask: seq<string> -> Option<Json>,
                                               entries: seq<Field>, check: Json -> Verdict, show: Printer)
    ensures var c, answer := Compose(hasSchema, hasModel, ask, entries, check, show), ask(MemoryBlock(entries));
      if !hasSchema then c == Unchecked
      else if !hasModel || answer.None? || !answer.value.JObj? then c == Violation
      else
        var failure := FirstFailure(Refs(answer.value), ToMemory(entries), show);
        failure.Some? ==> c == if failure.value.KeyError? then Violation else Raised(LookUp(failure.value))
  {
    var answer := ask(MemoryBlock(entries));
    if answer.Some? { ResolveExact(answer.value, ToMemory(entries), show); }
  }

  /** When the answer resolves, to what its references stand for: a value that makes no
      dictionary raises, and otherwise the schema check decides about that very value. What
      it accepts is sent, what it rejects reported, and an unusable schema checks nothing. */
  lemma {:induction false} ComposeExactly(ask: seq<string> -> Option<Json>, entries: seq<Field>,
                                          check: Json -> Verdict, show: Printer, r: Json)
    requires ask(MemoryBlock(entries)).Some? && ask(MemoryBlock(entries)).value.JObj?
    requires IsResolved(ask(MemoryBlock(entries)).value, ToMemory(entries), show, r)
    ensures var c := Compose(true, true, ask, entries, check, show);
      if !Convertible(r) then c == Raised(NotADictionary)
      else match check(r)
        case Unusable => c == Unchecked
        case Rejects => c == Violation
        case Breaks => c == Raised(BrokenCheck)
        case Accepts => c.Composed? && IsSent(r, c.inputs)
  {
    ResolveValue(ask(MemoryBlock(entries)).value, ToMemory(entries), show, r);
    ComposeFrom(ask, entries, check, show, r);
    AsDictExact(r);
  }

  lemma ComposeFrom(ask: seq<string> -> Option<Json>, entries: seq<Field>, check: Json -> Verdict, show: Printer,
                    r: Json)
    requires ask(MemoryBlock(entries)).Some? && ask(MemoryBlock(entries)).value.JObj?
    requires Resolve(ask(MemoryBlock(entries)).value, ToMemory(entries), show) == Ok(r)
    ensures var c := Compose(true, true, ask, entries, check, show);
      if AsDict(r).None? then c == Raised(NotADictionary)
      else match check(r)
        case Unusable => c == Unchecked
        case Rejects => c == Violation
        case Breaks => c == Raised(BrokenCheck)
        case Accepts => c == Composed(AsDict(r).value)
  {
  }
}
