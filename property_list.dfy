/** A property list as `PropertyListSerialization` hands it back, already
    decoded, and the conditional casts (`as?`) the preferences parser applies
    to its untyped (`Any`) values. */
module PropertyList {
  import opened Common

  /** A point in time (`Date`), as seconds since the reference date. */
  type Date = real

  /** One decoded property-list object. Dictionary keys are always strings. */
  datatype Value =
    | PString(str: string)
    | PInt(n: int)
    | PReal(r: real)
    | PBool(b: bool)
    | PDate(date: Date)
    | PData(bytes: seq<bv8>)
    | PArray(items: seq<Value>)
    | PDict(entries: map<string, Value>)

  /** Swift's `[String: Any]` as bridged from a property list. */
  type Dictionary = map<string, Value>

  /** `dictionary[key]`: the value stored under `key`, or `nil`. */
  function Lookup(d: Dictionary, key: string): Option<Value> {
    if key in d then Some(d[key]) else None
  }

  /** `v as? String`. */
  function AsString(v: Value): Option<string> {
    if v.PString? then Some(v.str) else None
  }

  /** `v as? Int`: a property-list integer converts when it fits in `Int`;
      no other kind of value converts. */
  function AsInt(v: Value): (r: Option<Int>)
    ensures forall n: int :: r == Some(n) <==> v == PInt(n) && InInt64(n)
  {
    if v.PInt? && InInt64(v.n) then Some(v.n) else None
  }

  /** `v as? Date`. */
  function AsDate(v: Value): Option<Date> {
    if v.PDate? then Some(v.date) else None
  }

  /** `v as? [String: Any]`. */
  function AsDictionary(v: Value): Option<Dictionary> {
    if v.PDict? then Some(v.entries) else None
  }

  /** Casts every element of an array with `cast`; fails as a whole as soon as
      one element does not cast, as Swift's `as? [T]` does. */
  function CastAll<T>(xs: seq<Value>, cast: Value -> Option<T>): (r: Option<seq<T>>)
    ensures r.Some? <==> forall i :: 0 <= i < |xs| ==> cast(xs[i]).Some?
    ensures r.Some? ==> |r.value| == |xs| && forall i :: 0 <= i < |xs| ==> cast(xs[i]) == Some(r.value[i])
    decreases |xs|
  {
    if xs == [] then Some([])
    else
      match cast(xs[0])
      case None => None
      case Some(x) =>
        match CastAll(xs[1..], cast)
        case None => None
        case Some(rest) => Some([x] + rest)
  }

  /** `v as? [T]` for an element cast `cast`. */
  function AsArray<T>(v: Value, cast: Value -> Option<T>): Option<seq<T>> {
    if v.PArray? then CastAll(v.items, cast) else None
  }

  /** Applies a cast to an optional value, as `dictionary[key] as? T` does:
      a missing value casts to `nil`. */
  function CastOptional<T>(v: Option<Value>, cast: Value -> Option<T>): Option<T> {
    match v
    case None => None
    case Some(x) => cast(x)
  }
}
