/**
 * An abstract `serde_json::Value`: the decoded tree a pattern file describes.
 * Decoding text into this tree is not modelled; only the accessors the
 * pattern compiler uses are.
 */
module Json {
  import opened Wrappers

  /** serde_json keeps integers that fit 64 bits as integers, the rest as floats. */
  datatype Number = Int(i: int) | Float(f: real)

  datatype Json =
    | Null
    | Bool(b: bool)
    | Num(n: Number)
    | Str(s: string)
    | Array(items: seq<Json>)
    | Object(fields: map<string, Json>)

  /** `value[key]`: the field of an object, and `Null` for a missing key or a non-object. */
  function Index(v: Json, key: string): (r: Json)
    ensures v.Object? && key in v.fields ==> r == v.fields[key] && r < v
    ensures !(v.Object? && key in v.fields) ==> r == Null
  {
    if v.Object? && key in v.fields then v.fields[key] else Null
  }

  const U64_MAX: nat := 0xFFFF_FFFF_FFFF_FFFF

  /** `Value::as_u64`: only a non-negative integer that fits 64 bits. */
  function AsU64(v: Json): (r: Option<nat>)
    ensures r.Some? <==> v.Num? && v.n.Int? && 0 <= v.n.i <= U64_MAX
    ensures r.Some? ==> r.value == v.n.i
  {
    if v.Num? && v.n.Int? && 0 <= v.n.i <= U64_MAX then Some(v.n.i) else None
  }

  /** `Value::as_f64`: every number, and nothing else. */
  function AsF64(v: Json): (r: Option<real>)
    ensures r.Some? <==> v.Num?
    ensures v.Num? && v.n.Int? ==> r.value == v.n.i as real
    ensures v.Num? && v.n.Float? ==> r.value == v.n.f
  {
    match v
    case Num(Int(i)) => Some(i as real)
    case Num(Float(f)) => Some(f)
    case _ => None
  }

  /**
   * The nodes a walk along the `"child"` key visits: every value up to, but not
   * including, the first `Null`. A non-object node has no child, so the walk
   * stops after it.
   */
  function Chain(v: Json): (nodes: seq<Json>)
    ensures v.Null? <==> nodes == []
    ensures forall n :: n in nodes ==> !n.Null?
    decreases v
  {
    if v.Null? then []
    else if v.Object? && "child" in v.fields then [v] + Chain(v.fields["child"])
    else [v]
  }

  /** One step of the walk: a non-null node is visited, then its child's chain. */
  lemma ChainStep(v: Json)
    requires !v.Null?
    ensures Chain(v) == [v] + Chain(Index(v, "child"))
  {
  }
}
