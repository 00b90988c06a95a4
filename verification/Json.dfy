/** Values as the coordinator sees them. An object keeps its keys in insertion order;
    a dictionary repeats none, and where a list of fields does, the first counts. */
module Json {
  import opened Options

  datatype Field = Field(key: string, value: Json)

  datatype Json = JNull | JBool(b: bool) | JInt(n: int) | JFloat(r: real) | JStr(s: string)
                | JList(items: seq<Json>) | JObj(fields: seq<Field>)

  /** The position of a key, if any. */
  function Find(fields: seq<Field>, key: string): (r: Option<Json>)
    ensures r.Some? <==> exists i :: 0 <= i < |fields| && fields[i].key == key
    ensures r.Some? ==> exists i :: 0 <= i < |fields| && fields[i] == Field(key, r.value)
  {
    if fields == [] then None
    else if fields[0].key == key then Some(fields[0].value)
    else Find(fields[1..], key)
  }

  function Digits(n: nat): (r: string)
    ensures r != "" && forall i :: 0 <= i < |r| ==> '0' <= r[i] <= '9'
  {
    if n < 10 then [('0' as int + n) as char] else Digits(n / 10) + [('0' as int + n % 10) as char]
  }

  function ParseDigits(s: string): nat
    requires forall i :: 0 <= i < |s| ==> '0' <= s[i] <= '9'
  {
    if s == "" then 0 else ParseDigits(s[..|s| - 1]) * 10 + (s[|s| - 1] as int - '0' as int)
  }

  /** Decimal printing loses nothing. */
  lemma {:induction false} DigitsRoundTrip(n: nat)
    ensures ParseDigits(Digits(n)) == n
  {
    var s := Digits(n);
    if n < 10 {
      assert s[..|s| - 1] == "";
    } else {
      DigitsRoundTrip(n / 10);
      assert s[..|s| - 1] == Digits(n / 10);
    }
  }
}
