/** The JSON values that travel through the system: request bodies, the staged
    payload `dados_atualizacao`, and the loosely typed columns of a listing.
    An absent key of a `Payload` plays the part of JavaScript's `undefined`. */
module Json {
  import opened Common

  datatype Value =
    | Null
    | Bool(b: bool)
    | Num(x: real)
    | Str(s: string)
    | Arr(items: seq<string>)
    | Obj(fields: map<string, Value>)

  type Payload = map<string, Value>

  /** JavaScript truthiness: `null`, `false`, `0` and `""` are falsy; arrays and objects are truthy. */
  predicate Truthy(v: Value)
  {
    match v
    case Null => false
    case Bool(b) => b
    case Num(x) => x != 0.0
    case Str(s) => s != ""
    case Arr(_) => true
    case Obj(_) => true
  }

  /** `p[k]`, where a missing key reads as `undefined`, which here is `Null`. */
  function Get(p: Payload, k: string): (v: Value)
    ensures k !in p ==> v == Null
    ensures k in p ==> v == p[k]
  {
    if k in p then p[k] else Null
  }

  /** `p.hasOwnProperty(k) && p[k] != null`. */
  predicate Present(p: Payload, k: string)
  {
    k in p && p[k] != Null
  }

  /** `a || b`. */
  function Or(a: Value, b: Value): (r: Value)
    ensures Truthy(a) ==> r == a
    ensures !Truthy(a) ==> r == b
  {
    if Truthy(a) then a else b
  }

  /** `v && Array.isArray(v) && v.length > 0`. */
  predicate NonEmptyArr(v: Value)
  {
    v.Arr? && |v.items| > 0
  }

  /** The file a stored path value names, for `fs.unlink`: a non-empty string names one
      file; any other truthy value makes `path.join` throw inside the `try`, so nothing is
      deleted. */
  function FileOf(v: Value): (r: seq<string>)
    ensures |r| <= 1
    ensures r != [] <==> v.Str? && v.s != ""
    ensures r != [] ==> r[0] == v.s
  {
    if v.Str? && v.s != "" then [v.s] else []
  }

  /** `m[k] = v` when `v` is defined, `delete m[k]` when it is `undefined` (`None`):
      an object literal whose value is `undefined` leaves no key behind once serialised. */
  function Assign(m: Payload, k: string, v: Option<Value>): (r: Payload)
    ensures v.Some? ==> r == m[k := v.value]
    ensures v.None? ==> r == m - {k}
  {
    if v.Some? then m[k := v.value] else m - {k}
  }

  /** The value under `k`, or `None` when the key is absent (`undefined`). */
  function Lookup(p: Payload, k: string): (r: Option<Value>)
    ensures r.Some? <==> k in p
    ensures r.Some? ==> r.value == p[k]
  {
    if k in p then Some(p[k]) else None
  }

  /** `{...base, ...top}`: every key of `top` wins. */
  function Spread(base: Payload, top: Payload): (r: Payload)
    ensures r.Keys == base.Keys + top.Keys
    ensures forall k :: k in top ==> r[k] == top[k]
    ensures forall k :: k in base && k !in top ==> r[k] == base[k]
  {
    base + top
  }
}
