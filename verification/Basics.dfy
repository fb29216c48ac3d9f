module Prelude {
  // Go's nil pointers and pgx's "no rows".
  datatype Option<+T> = None | Some(value: T)

  type Uuid = int

  // The next row an unordered query happens to return.
  method AnyOf<T>(s: set<T>) returns (x: T)
    requires s != {}
    ensures x in s
  {
    x :| x in s;
  }
}

/**
 Instants and durations are whole nanoseconds, as in Go's time package, but unbounded.
 */
module Clock {
  type Instant = int

  function Seconds(n: int): int { n * 1_000_000_000 }

  function Minutes(n: int): int { n * 60_000_000_000 }

  function Max(a: int, b: int): int { if a < b then b else a }

  function Min(a: int, b: int): int { if a < b then a else b }

  // int(d.Seconds()): whole seconds, dropped fraction, toward zero on both sides of zero.
  function WholeSeconds(d: int): (s: int)
    ensures d >= 0 ==> 0 <= Seconds(s) <= d < Seconds(s + 1)
    ensures d < 0 ==> Seconds(s - 1) < d <= Seconds(s) <= 0
  {
    if d >= 0 then d / 1_000_000_000 else -((-d) / 1_000_000_000)
  }
}
