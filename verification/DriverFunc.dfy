/** `lvcp_driver_func(idx, values)`: the function each of a light master's drivers calls to pick
    the active light's value out of the values its variables read (in the add-on, one float
    component of each light's `vecLight`). */
module DriverFunc {

  /** What a driver variable evaluates to: a 3-vector, or a Python float or int. */
  datatype DriverValue = Vector(x: real, y: real, z: real) | Float(f: real) | Int(i: int)

  /** `Vector((0.0, 0.0, 1.0))`. */
  const DefaultVector := Vector(0.0, 0.0, 1.0)

  /** Current version: bounds-checked selection with a vector default. */
  function LvcpDriverFunc(idx: int, values: seq<DriverValue>): (r: DriverValue)
    ensures 0 <= idx < |values| ==> r == values[idx]
    ensures |values| == 0 ==> r == DefaultVector
    ensures |values| > 0 && !(0 <= idx < |values|) ==>
              r == (if values[0].Vector? then DefaultVector else Float(0.0))
  {
    if |values| == 0 then DefaultVector
    else if 0 <= idx < |values| then values[idx]
    else if values[0].Vector? then DefaultVector
    else Float(0.0)
  }

  /** Older version: bounds-checked selection with the integer 0 as default. */
  function LvcpDriverFuncLegacy(idx: int, values: seq<DriverValue>): (r: DriverValue)
    ensures 0 <= idx < |values| ==> r == values[idx]
    ensures !(0 <= idx < |values|) ==> r == Int(0)
  {
    if 0 <= idx < |values| then values[idx] else Int(0)
  }

  /** Python's `==` on driver values: vectors compare componentwise, a float equals an int of
      the same value, and a vector never equals a number. */
  predicate PyEq(a: DriverValue, b: DriverValue)
  {
    match (a, b)
    case (Vector(x, y, z), Vector(x', y', z')) => x == x' && y == y' && z == z'
    case (Float(f), Float(f')) => f == f'
    case (Int(i), Int(i')) => i == i'
    case (Float(f), Int(i)) => f == i as real
    case (Int(i), Float(f)) => f == i as real
    case _ => false
  }

  /** The two versions agree, as Python compares them, on in-range indices and on an
      out-of-range index over numbers (0.0 == 0); they differ exactly when the index is out of
      range and the list is empty or holds vectors, where the current version yields (0,0,1)
      and the older one 0. */
  lemma VersionsAgreeInRange(idx: int, values: seq<DriverValue>)
    ensures PyEq(LvcpDriverFunc(idx, values), LvcpDriverFuncLegacy(idx, values)) <==>
            0 <= idx < |values| || (|values| > 0 && !values[0].Vector?)
    ensures !(0 <= idx < |values|) ==>
            LvcpDriverFuncLegacy(idx, values) == Int(0) &&
            LvcpDriverFunc(idx, values) == (if |values| > 0 && !values[0].Vector? then Float(0.0) else DefaultVector)
  {
  }

  /** Over a list holding only vectors (or nothing) the current version always yields a vector,
      whatever the index. */
  lemma VectorsYieldVector(idx: int, values: seq<DriverValue>)
    requires forall k :: 0 <= k < |values| ==> values[k].Vector?
    ensures LvcpDriverFunc(idx, values).Vector?
  {
  }
}
