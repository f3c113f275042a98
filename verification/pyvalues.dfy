/**
 * The few Python values the price code passes around, with Python's notion of
 * truthiness, which `validate_price` and the `if price:` tests rely on.
 */
module PyValues {

  import opened Wrappers

  /** `PyOther` stands for a value of any other type (a float, a list, ...),
      known only by its truthiness. */
  datatype PyValue =
    | PyNone
    | PyBool(b: bool)
    | PyInt(i: int)
    | PyStr(s: string)
    | PyOther(truthy: bool)

  predicate Truthy(v: PyValue) {
    match v
    case PyNone => false
    case PyBool(b) => b
    case PyInt(i) => i != 0
    case PyStr(s) => |s| > 0
    case PyOther(t) => t
  }

  /** `isinstance(v, int)`: `bool` is a subclass of `int`. */
  predicate IsInt(v: PyValue) {
    v.PyInt? || v.PyBool?
  }

  /** The integer an `int` instance compares as (`True == 1`, `False == 0`). */
  function IntValue(v: PyValue): int
    requires IsInt(v)
  {
    match v
    case PyBool(b) => if b then 1 else 0
    case PyInt(i) => i
  }

  /** A Python `int` or `None`. */
  function FromOption(o: Option<int>): PyValue {
    match o
    case None => PyNone
    case Some(n) => PyInt(n)
  }
}
