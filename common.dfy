/** Values shared by every part of the model: optional and fallible results,
    the JavaScript values the modelled code inspects, open records built with
    object spread, and the two booking states. */
module Common {

  datatype Option<T> = None | Some(value: T)

  datatype Result<T, E> = Ok(value: T) | Err(error: E)

  /** A JavaScript value, as far as the modelled code looks at it. Numbers are
      finite (NaN and the infinities are not represented); a `Date` is an
      instant in milliseconds. */
  datatype Value =
    | Undefined
    | Null
    | Bool(b: bool)
    | Num(n: real)
    | Str(s: string)
    | Time(t: int)

  /** JavaScript truthiness: what `!v`, `v || w` and `if (v)` test. */
  predicate Truthy(v: Value) {
    match v
    case Undefined => false
    case Null => false
    case Bool(b) => b
    case Num(n) => n != 0.0
    case Str(s) => s != ""
    case Time(_) => true
  }

  /** `a || b` */
  function Or(a: Value, b: Value): (r: Value)
    ensures Truthy(a) ==> r == a
    ensures !Truthy(a) ==> r == b
  {
    if Truthy(a) then a else b
  }

  /** An open document or object: field name to value. */
  type Record = map<string, Value>

  /** `r.key`: a missing field reads as `undefined`. */
  function Get(r: Record, key: string): Value {
    if key in r then r[key] else Undefined
  }

  /** `{ ...a, ...b }`: every field of `b`, and the fields of `a` that `b` does not set. */
  function Spread(a: Record, b: Record): (r: Record)
    ensures r.Keys == a.Keys + b.Keys
    ensures forall k :: k in b ==> Get(r, k) == b[k]
    ensures forall k :: k !in b ==> Get(r, k) == Get(a, k)
  {
    a + b
  }

  /** `{ ...base, ...updates, updatedAt: new Date() }`, the local merge of an
      update action: the updated fields overwrite, every other field of `base`
      is kept, and `updatedAt` is stamped last. */
  function MergeStamped(base: Record, updates: Record, now: int): (r: Record)
    ensures r.Keys == base.Keys + updates.Keys + {"updatedAt"}
    ensures forall k :: k != "updatedAt" && k in updates ==> Get(r, k) == updates[k]
    ensures forall k :: k != "updatedAt" && k !in updates ==> Get(r, k) == Get(base, k)
    ensures Get(r, "updatedAt") == Time(now)
  {
    Spread(Spread(base, updates), map["updatedAt" := Time(now)])
  }

  /** The `status` of a booking document. */
  datatype Status = Confirmed | Cancelled
}
