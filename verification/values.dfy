/**
  The configuration data model: the tagged values a rendered YAML document,
  a decoded environment variable or a caller's override can hold, and the
  path-based view of a nested configuration mapping that the precedence
  properties are stated in.
 */
module Values {
  import opened Wrappers

  /** A configuration value. A float is kept as its literal text: the model
      classifies floats but never computes with them. */
  datatype Value =
    | Null
    | Bool(b: bool)
    | Int(i: int)
    | Float(literal: string)
    | Str(s: string)
    | List(items: seq<Value>)
    | Map(m: map<string, Value>)

  /** A configuration mapping (a Python `dict` with string keys). */
  type Config = map<string, Value>

  /** A path of keys from the root of a configuration mapping. */
  type Path = seq<string>

  const Empty: Config := map[]

  /** Is `v` a leaf, that is anything other than a nested mapping? */
  predicate IsLeaf(v: Value) {
    !v.Map?
  }

  /** Is `v` a scalar (no list, no nested mapping)? */
  predicate IsScalar(v: Value) {
    !v.List? && !v.Map?
  }

  /** The value found by following path `p` from `v` (`v` itself for the empty path). */
  function At(v: Value, p: Path): (r: Option<Value>)
    ensures p == [] ==> r == Some(v)
    ensures r.Some? && p != [] ==> v.Map? && p[0] in v.m
    decreases |p|
  {
    if p == [] then Some(v)
    else if v.Map? && p[0] in v.m then At(v.m[p[0]], p[1..])
    else None
  }

  /** The value at path `p` of configuration `c`. */
  function Lookup(c: Config, p: Path): Option<Value> {
    At(Map(c), p)
  }

  /** The leaf at path `p` of `c`, if the path ends at a leaf. */
  function LeafOf(c: Config, p: Path): (r: Option<Value>)
    ensures r.Some? ==> IsLeaf(r.value) && Lookup(c, p) == r
  {
    match Lookup(c, p)
    case Some(v) => if IsLeaf(v) then Some(v) else None
    case None => None
  }

  /**
    `b` says nothing at or above path `p`: along `p` it holds only nested
    mappings, and the last key of `p` is absent. Laying `b` over another
    configuration leaves whatever that configuration has at `p` in place.
   */
  predicate Untouched(b: Config, p: Path)
    decreases |p|
  {
    && p != []
    && (p[0] !in b || (b[p[0]].Map? && Untouched(b[p[0]].m, p[1..])))
  }
}
