/**
 * The already-parsed form of a YAML or JSON document: the values that
 * `yaml.safe_load` produces and that the debug logs and manifests hold.
 */
module Values {
  import opened Wrappers

  /** A Python float: a finite real, an infinity or NaN (rounding is not modelled). */
  datatype Double = Finite(r: real) | PosInf | NegInf | NaN

  /**
   * A parsed value. Mapping keys are strings; YAML documents with
   * non-string keys are outside the model.
   */
  datatype Value =
    | Null
    | Bool(b: bool)
    | Int(i: int)
    | Float(d: Double)
    | Str(s: string)
    | List(items: seq<Value>)
    | Mapping(entries: map<string, Value>)

  /** Python truthiness: `None`, `False`, zero and empty containers are false. */
  predicate Truthy(v: Value) {
    match v
    case Null => false
    case Bool(b) => b
    case Int(i) => i != 0
    case Float(d) => d != Finite(0.0)
    case Str(s) => s != []
    case List(items) => items != []
    case Mapping(m) => m != map[]
  }

  /** Python's `v or default`. */
  function Or(v: Value, default: Value): (r: Value)
    ensures Truthy(v) ==> r == v
    ensures !Truthy(v) ==> r == default
  {
    if Truthy(v) then v else default
  }

  /** `isinstance(v, int)`: Python's `bool` is a subclass of `int`. */
  predicate IsIntInstance(v: Value) {
    v.Int? || v.Bool?
  }

  /**
   * 2^1024 - 2^970: from this magnitude on, the double nearest to an int
   * is 2^1024, beyond the largest finite double, and `float()` raises
   * `OverflowError`.
   */
  const FloatOverflowBound: int := 0xfffffffffffffc00_0000000000000000_0000000000000000_0000000000000000_0000000000000000_0000000000000000_0000000000000000_0000000000000000_0000000000000000_0000000000000000_0000000000000000_0000000000000000_0000000000000000_0000000000000000_0000000000000000_0000000000000000

  /**
   * `float(v)` for a value that passed `isinstance(v, (int, float))`;
   * `None` is the `OverflowError` for an int too large for a double.
   */
  function ToFloat(v: Value): (r: Option<Double>)
    requires IsIntInstance(v) || v.Float?
    ensures v.Float? ==> r == Some(v.d)
    ensures v.Int? ==> (r.None? <==> v.i >= FloatOverflowBound || v.i <= -FloatOverflowBound)
    ensures v.Int? && r.Some? ==> r.value == Finite(v.i as real)
    ensures v.Bool? ==> r == Some(Finite(if v.b then 1.0 else 0.0))
  {
    match v
    case Float(d) => Some(d)
    case Int(i) => if i >= FloatOverflowBound || i <= -FloatOverflowBound then None else Some(Finite(i as real))
    case Bool(b) => Some(Finite(if b then 1.0 else 0.0))
  }

  /** A list of strings as a value, as a log or a manifest records it. */
  function StrList(xs: seq<string>): (r: Value)
    ensures r.List? && |r.items| == |xs|
    ensures forall i :: 0 <= i < |xs| ==> r.items[i] == Str(xs[i])
  {
    List(seq(|xs|, i requires 0 <= i < |xs| => Str(xs[i])))
  }
}
