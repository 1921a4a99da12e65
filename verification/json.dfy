/** The values json.loads hands back (the decoder itself is not part of this model: it
    is an opaque parameter of the validation path). */
module JsonValue {
  import opened Outcomes

  /** A decoded JSON document as a Python value. Numbers are integers here. */
  datatype Json =
    | JNull
    | JBool(b: bool)
    | JNum(n: int)
    | JStr(s: string)
    | JArr(items: seq<Json>)
    | JObj(fields: map<string, Json>)

  /** The name of the value's Python type, as exception messages print it. */
  function TypeName(j: Json): string {
    match j
    case JNull => "NoneType"
    case JBool(_) => "bool"
    case JNum(_) => "int"
    case JStr(_) => "str"
    case JArr(_) => "list"
    case JObj(_) => "dict"
  }

  /** The JSON array of the given strings. */
  function Strings(ss: seq<string>): (r: Json)
    ensures r.JArr? && |r.items| == |ss|
    ensures forall i :: 0 <= i < |ss| ==> r.items[i] == JStr(ss[i])
  {
    JArr(seq(|ss|, i requires 0 <= i < |ss| => JStr(ss[i])))
  }

  /** The strings of a JSON array all of whose items are strings. */
  function StringsOf(j: Json): (r: Option<seq<string>>)
    ensures r.Some? <==> j.JArr? && forall i :: 0 <= i < |j.items| ==> j.items[i].JStr?
    ensures r.Some? ==> Strings(r.value) == j
  {
    if j.JArr? && forall i :: 0 <= i < |j.items| ==> j.items[i].JStr? then
      Some(seq(|j.items|, i requires 0 <= i < |j.items| => j.items[i].s))
    else None
  }

  /** Strings and StringsOf are inverse: a list of strings survives the trip through
      a JSON array. */
  lemma StringsRoundTrip(ss: seq<string>)
    ensures StringsOf(Strings(ss)) == Some(ss)
  {
    var r := StringsOf(Strings(ss));
    assert r.Some?;
    assert |r.value| == |ss|;
    forall i | 0 <= i < |ss| ensures r.value[i] == ss[i] {
      assert Strings(r.value).items[i] == JStr(r.value[i]);
    }
    assert r.value == ss;
  }

  /** Concatenating the arrays of two string lists gives the array of their concatenation. */
  lemma StringsConcat(a: seq<string>, b: seq<string>)
    ensures Strings(a).items + Strings(b).items == Strings(a + b).items
  {
  }
}
