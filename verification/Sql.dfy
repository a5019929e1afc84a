/**
  The parts of SQL's three-valued logic that the queries rely on. NULL is None.
*/
module Sql {
  import opened Common

  type Bool3 = Option<bool>

  function Between(x: Option<int>, lo: int, hi: int): Bool3 {
    match x
    case None => None
    case Some(v) => Some(lo <= v <= hi)
  }

  function And3(a: Bool3, b: Bool3): Bool3 {
    if a == Some(false) || b == Some(false) then Some(false)
    else if a == None || b == None then None
    else Some(true)
  }

  function Not3(a: Bool3): Bool3 {
    match a
    case None => None
    case Some(v) => Some(!v)
  }

  /** WHERE and FILTER keep a row only when the condition is true, not when it is NULL. */
  predicate Holds(a: Bool3) {
    a == Some(true)
  }

  /** IS DISTINCT FROM compares NULL like any other value and never yields NULL. */
  predicate IsDistinctFrom(a: Bool3, b: Bool3) {
    a != b
  }

  /** Postgres GREATEST ignores NULL arguments. */
  function Greatest(a: Option<Time>, b: Time): Time {
    match a
    case None => b
    case Some(t) => Max(t, b)
  }
}
