/** Values shared by every module: optional values, raised errors and fixed-point scores. */
module Common {

  datatype Option<+T> = None | Some(value: T)

  /** A Python call that may raise: `Err` carries the message of the exception. */
  datatype Try<+T> = Ok(value: T) | Err(error: string)

  /** Scores travel on chain as unsigned 16-bit fixed point. */
  const SCALE: int := 65535

  function Min(a: real, b: real): real { if a <= b then a else b }

  function Max(a: real, b: real): real { if a >= b then a else b }

  function MinInt(a: int, b: int): int { if a <= b then a else b }

  function MaxInt(a: int, b: int): int { if a >= b then a else b }

  function Ceil(x: real): int { -((-x).Floor) }

  /** The next element of an iteration in no particular order. */
  method AnyOf<T(==)>(s: set<T>) returns (x: T)
    requires s != {}
    ensures x in s
  {
    x :| x in s;
  }
}
