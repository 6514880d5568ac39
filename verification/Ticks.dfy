/** Half-second clock ticks and the time an interval spends inside a span. */
module Ticks {
  /** Ring slots: a 60 s window reaches back 120 ticks and so covers 121 of them. */
  const BUCKETS: int := 121

  const WINDOW_SECONDS: real := 60.0
  const SHORT_WINDOW_SECONDS: real := 2.0
  const MAX_CLOCK: real := 1125899906842624.0
  const U64: int := 0x1_0000_0000_0000_0000

  function Tick(t: real): int {
    (2.0 * t).Floor
  }

  /** The first instant of tick `k`. */
  function Edge(k: int): real {
    0.5 * k as real
  }

  function Min(a: real, b: real): real {
    if a <= b then a else b
  }

  function Max(a: real, b: real): real {
    if a >= b then a else b
  }

  /** How long the interval [a, b] lies inside [lo, hi]. */
  function Meet(a: real, b: real, lo: real, hi: real): real {
    Max(Min(b, hi) - Max(a, lo), 0.0)
  }

  lemma TickBrackets(t: real)
    ensures Edge(Tick(t)) <= t < Edge(Tick(t) + 1)
  {
  }

  lemma TickMonotone(s: real, t: real)
    requires s <= t
    ensures Tick(s) <= Tick(t)
  {
  }

  /** A window reaches back a whole number of ticks: 120 for 60 s, 4 for 2 s. */
  lemma WindowTicks(now: real)
    ensures Tick(now - WINDOW_SECONDS) == Tick(now) - 120
    ensures Tick(now - SHORT_WINDOW_SECONDS) == Tick(now) - 4
  {
    var x := 2.0 * now;
    assert (x - 120.0).Floor == x.Floor - 120;
    assert (x - 4.0).Floor == x.Floor - 4;
  }
}
