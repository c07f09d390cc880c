/** JSON values as the backend stores them and the frontend receives them,
    with the few JavaScript operators the core applies to them. */
module JsValues {

  datatype Option<+T> = None | Some(value: T)

  datatype Result<+T, +E> = Ok(value: T) | Err(error: E)

  /** A JSON value held in one field of a movie record. */
  datatype Value =
    | Null
    | Num(n: real)
    | Str(s: string)
    | Bool(b: bool)
    | List(items: seq<string>)

  /** A movie record: a JSON object.  A key that is not in the map reads as
      `undefined`, which is how an omitted field is represented. */
  type Record = map<string, Value>

  /** Property access `m[k]`, with `None` standing for `undefined`. */
  function Get(m: Record, k: string): Option<Value> {
    if k in m then Some(m[k]) else None
  }

  /** JavaScript's ToBoolean on a field read (`undefined`, `null`, `0`, `""`
      and `false` are falsy; every array is truthy). */
  predicate Truthy(v: Option<Value>) {
    match v
    case None => false
    case Some(Null) => false
    case Some(Num(n)) => n != 0.0
    case Some(Str(s)) => s != ""
    case Some(Bool(b)) => b
    case Some(List(_)) => true
  }

  /** JavaScript's `a || b`: the left operand when it is truthy, else the right one. */
  function Or(a: Option<Value>, b: Option<Value>): (r: Option<Value>)
    ensures Truthy(r) <==> Truthy(a) || Truthy(b)
    ensures Truthy(a) ==> r == a
  {
    if Truthy(a) then a else b
  }

  /** The number a value stands for in arithmetic and comparisons.  Numbers,
      `null` and booleans convert as in JavaScript; strings, arrays and
      `undefined` are taken as 0 (see README, "Left out"). */
  function AsNumber(v: Option<Value>): real {
    match v
    case Some(Num(n)) => n
    case Some(Bool(b)) => if b then 1.0 else 0.0
    case _ => 0.0
  }

  /** `(m[k] || 0)` read as a number. */
  function NumberOrZero(m: Record, k: string): (r: real)
    ensures !Truthy(Get(m, k)) ==> r == 0.0
    ensures k in m && m[k].Num? ==> r == m[k].n
  {
    AsNumber(Or(Get(m, k), Some(Num(0.0))))
  }
}
