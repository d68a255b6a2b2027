/** JSON request values as the chatbot handlers see them, with the truthiness rules of
    JavaScript and of Python. Number conversion is left to the callers' conversion functions,
    passed in as parameters: only whether a conversion failed (NaN, or a Python exception)
    matters to the modelled logic. */
module JsonValues {

  /** A number: its printed form, whether it is zero, and the NaN flag. */
  datatype Number = NaN | Finite(repr: string, isZero: bool)

  /** A field of a JSON body; `Missing` is an absent key (`undefined` in JavaScript, `None`
      from `dict.get` in Python). */
  datatype Value =
    | Missing
    | Null
    | Bool(b: bool)
    | Num(n: Number)
    | Str(s: string)
    | Arr(empty: bool)
    | Obj(empty: bool)

  /** JavaScript truthiness: arrays and objects are always truthy. */
  predicate JsTruthy(v: Value) {
    match v
    case Missing => false
    case Null => false
    case Bool(b) => b
    case Num(n) => n.Finite? && !n.isZero
    case Str(s) => s != ""
    case Arr(_) => true
    case Obj(_) => true
  }

  /** Python truthiness: empty lists and dicts are falsy. */
  predicate PyTruthy(v: Value) {
    match v
    case Missing => false
    case Null => false
    case Bool(b) => b
    case Num(n) => n.Finite? && !n.isZero
    case Str(s) => s != ""
    case Arr(e) => !e
    case Obj(e) => !e
  }

  /** JavaScript's `or`: the first operand when truthy, else the second. */
  function JsOr(a: Value, b: Value): (r: Value)
    ensures JsTruthy(a) ==> r == a
    ensures !JsTruthy(a) ==> r == b
  {
    if JsTruthy(a) then a else b
  }

  /** `a or b` in Python. */
  function PyOr(a: Value, b: Value): (r: Value)
    ensures PyTruthy(a) ==> r == a
    ensures !PyTruthy(a) ==> r == b
  {
    if PyTruthy(a) then a else b
  }

  /** The two languages disagree on an empty list: JavaScript keeps it, Python falls through. */
  lemma EmptyListTruthiness()
    ensures JsOr(Arr(true), Str("x")) == Arr(true)
    ensures PyOr(Arr(true), Str("x")) == Str("x")
  {
  }
}
