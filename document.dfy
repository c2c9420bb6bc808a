/** The loosely typed document the calculator reads (a `json::JsonValue`) and the
    indexing operations src/main.rs applies to it. Indexing never fails: a missing
    key, an index past the end, or indexing into a value of the wrong kind all
    give Null, which is what `is_null` and the `as_*` conversions then see. */
module Document {
  import opened Wrappers

  /** Largest value of Rust's `usize` on the 64-bit targets the program is built for. */
  const USIZE_MAX: nat := 0xFFFF_FFFF_FFFF_FFFF

  datatype Value =
    | Null
    | Bool(b: bool)
    | Number(n: real)
    | Str(s: string)
    | Array(items: seq<Value>)
    | Object(fields: map<string, Value>)

  /** `v[key]`: the member named `key` of an object, Null otherwise. */
  function Get(v: Value, key: string): (r: Value)
    ensures v.Object? && key in v.fields ==> r == v.fields[key]
    ensures !(v.Object? && key in v.fields) ==> r == Null
  {
    if v.Object? && key in v.fields then v.fields[key] else Null
  }

  /** `v[i]`: the element at position `i` of an array, Null otherwise. */
  function At(v: Value, i: nat): (r: Value)
    ensures v.Array? && i < |v.items| ==> r == v.items[i]
    ensures !(v.Array? && i < |v.items|) ==> r == Null
  {
    if v.Array? && i < |v.items| then v.items[i] else Null
  }

  /** `v.len()`: the number of elements of an array or members of an object,
      0 for every other value. */
  function Len(v: Value): (r: nat)
    ensures v.Array? ==> r == |v.items|
    ensures v.Object? ==> r == |v.fields|
    ensures r > 0 ==> v.Array? || v.Object?
  {
    match v
    case Array(items) => |items|
    case Object(fields) => |fields|
    case _ => 0
  }

  /** `v.as_str()`. */
  function AsStr(v: Value): (r: Option<string>)
    ensures r.Some? <==> v.Str?
    ensures r.Some? ==> v == Str(r.value)
  {
    if v.Str? then Some(v.s) else None
  }

  /** `v.as_f64()`. */
  function AsF64(v: Value): (r: Option<real>)
    ensures r.Some? <==> v.Number?
    ensures r.Some? ==> v == Number(r.value)
  {
    if v.Number? then Some(v.n) else None
  }

  /** `v.as_usize()`: a number that is a whole value in the range of `usize`. */
  function AsUsize(v: Value): (r: Option<nat>)
    ensures r.Some? ==> r.value <= USIZE_MAX && v == Number(r.value as real)
    ensures !v.Number? ==> r.None?
  {
    if v.Number? && 0.0 <= v.n <= USIZE_MAX as real && v.n.Floor as real == v.n then
      Some(v.n.Floor)
    else
      None
  }

  /** A whole number in the range of `usize` reads back as itself. */
  lemma WholeNumberAsUsize(n: nat)
    requires n <= USIZE_MAX
    ensures AsUsize(Number(n as real)) == Some(n)
  {
    assert (n as real).Floor == n;
  }

  /** `json["materials_per_craft"]`. */
  function Materials(json: Value): Value {
    Get(json, "materials_per_craft")
  }

  /** `json["materials_per_craft"][i]`. */
  function Material(json: Value, i: nat): Value {
    At(Materials(json), i)
  }
}
