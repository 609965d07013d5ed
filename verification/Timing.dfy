/** Clock ticks (nanoseconds), and how many intervals fit into a span of time. */
module Timing {
  type Time = int

  const SECOND: int := 1_000_000_000

  /** `n` intervals in a row. */
  function Span(n: nat, interval: int): int {
    if n == 0 then 0 else Span(n - 1, interval) + interval
  }

  lemma {:induction false} SpanIsProduct(n: nat, interval: int)
    ensures Span(n, interval) == n * interval
  {
    if n > 0 {
      SpanIsProduct(n - 1, interval);
      assert n * interval == (n - 1) * interval + interval;
    }
  }

  lemma ProductIsMonotone(a: int, b: int, interval: nat)
    requires a <= b
    ensures a * interval <= b * interval
  {
  }

  lemma HowManyFit(n: nat, interval: int, width: int)
    requires interval > 0 && Span(n, interval) <= width
    ensures n <= width / interval
  {
    SpanIsProduct(n, interval);
    var q := width / interval;
    assert width < (q + 1) * interval;
    if q + 1 <= n {
      ProductIsMonotone(q + 1, n, interval);
    }
  }
}
