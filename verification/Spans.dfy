/** How many intervals fit in a span. */
module Spans {
  /** `n` intervals, one after the other. */
  function Intervals(n: nat, interval: nat): nat {
    if n == 0 then 0 else Intervals(n - 1, interval) + interval
  }

  lemma {:induction false} IntervalsIsProduct(n: nat, interval: nat)
    ensures Intervals(n, interval) == interval * n
  {
    if n > 0 {
      IntervalsIsProduct(n - 1, interval);
    }
  }

  lemma Monotone(interval: nat, m: nat, n: nat)
    requires m <= n
    ensures interval * m <= interval * n
  {
  }

  lemma QuotientBound(n: nat, interval: nat, width: nat)
    requires interval > 0 && interval * n <= width
    ensures n <= width / interval
  {
    var q := width / interval;
    assert width < interval * (q + 1);
    if q + 1 <= n {
      Monotone(interval, q + 1, n);
    }
  }
}
