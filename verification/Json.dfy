/** Serialised payloads: which values produce a text that counts as empty. */
module Json {
  import opened Texts
  import Ttl

  /** A serialised value by its outermost form (section 3 of RFC 8259). `Null` also stands for `None`,
      `()` and non-finite floats; a scalar is a number, a string or a boolean, given by its text. */
  datatype Json =
    | Null
    | Scalar(text: Text)
    | Arr(items: seq<Json>)
    | Obj(members: seq<(Text, Json)>)

  /** A scalar's text begins with a quote, a minus sign, a digit, `t` or `f`. */
  predicate IsScalar(text: Text) {
    text != [] && (text[0] == 34 || text[0] == 45 || 48 <= text[0] <= 57 || text[0] == 116 || text[0] == 102)
  }

  function Serialize(j: Json): Text
    decreases j, 2
  {
    match j
    case Null => [110, 117, 108, 108]
    case Scalar(text) => text
    case Arr(items) => [91] + Items(j, items) + [93]
    case Obj(members) => [123] + Members(j, members) + [125]
  }

  function Items(whole: Json, items: seq<Json>): Text
    requires forall i :: 0 <= i < |items| ==> items[i] < whole
    decreases whole, 1, |items|
  {
    if items == [] then []
    else if |items| == 1 then Serialize(items[0])
    else Serialize(items[0]) + [44] + Items(whole, items[1..])
  }

  function Members(whole: Json, members: seq<(Text, Json)>): Text
    requires forall i :: 0 <= i < |members| ==> members[i].1 < whole
    decreases whole, 1, |members|
  {
    if members == [] then []
    else
      var first := [34] + members[0].0 + [34, 58] + Serialize(members[0].1);
      if |members| == 1 then first else first + [44] + Members(whole, members[1..])
  }

  /** Scalars are scalars, here and inside an array's first item. */
  predicate WellFormed(j: Json) {
    match j
    case Scalar(text) => IsScalar(text)
    case Arr(items) => items != [] ==> WellFormed(items[0])
    case _ => true
  }

  lemma {:induction false} SerializeNonEmpty(j: Json)
    requires WellFormed(j)
    ensures Serialize(j) != []
  {
  }

  /** The short TTL reaches exactly null, the empty array and the empty object. In particular the
      empty string does not get it, since it serialises to two quote characters. */
  lemma EmptyPayloads(j: Json)
    requires WellFormed(j)
    ensures Ttl.IsEmptyPayload(Serialize(j)) <==> j == Null || j == Arr([]) || j == Obj([])
    ensures IsScalar([34, 34]) && !Ttl.IsEmptyPayload([34, 34])
  {
    Ttl.EmptyBytes(Serialize(j));
    match j
    case Null =>
    case Scalar(text) =>
    case Arr(items) =>
      if items != [] {
        SerializeNonEmpty(items[0]);
        assert |Serialize(j)| > 2;
      }
    case Obj(members) =>
      if members != [] {
        assert Members(j, members)[0] == 34;
        assert |Serialize(j)| > 2;
      }
  }
}
