/** Failure and absence, shared by every module of the model. */
module Wrappers {

  datatype Option<+T> = None | Some(value: T) {
    function GetOr(default: T): T {
      match this
      case Some(v) => v
      case None => default
    }
  }

  datatype Result<+T, +E> = Ok(value: T) | Err(error: E)

  /** JavaScript's `Math.max` on two numbers. */
  function Max(a: int, b: int): int {
    if a < b then b else a
  }

  /** JavaScript's `Math.min` on two numbers. */
  function Min(a: int, b: int): int {
    if a < b then a else b
  }

  /** Some element of a set that has one. */
  ghost function Element<T>(s: set<T>): (x: T)
    requires s != {}
    ensures x in s
  {
    var x :| x in s;
    x
  }
}
