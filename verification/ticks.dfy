/** Ticks: rounding an order size down to the exchange's size step. */
module Ticks {

  const TickSize: real := 0.0001

  /** The number of whole ticks in `amount`. */
  function TickCount(amount: real): int {
    (amount / TickSize).Floor
  }

  /** `round_to_tick_size`: the largest multiple of the tick not above `amount`. */
  function RoundToTick(amount: real): (r: real)
    ensures r == TickCount(amount) as real * TickSize
    ensures r <= amount < r + TickSize
  {
    var k := TickCount(amount);
    assert k as real <= amount / TickSize < k as real + 1.0;
    k as real * TickSize
  }

  /** Every multiple of the tick up to `amount` is at most the rounded value:
      the result is the largest such multiple. */
  lemma RoundToTickIsLargest(amount: real, k: int)
    requires k as real * TickSize <= amount
    ensures k as real * TickSize <= RoundToTick(amount)
  {
    assert k as real <= amount / TickSize;
    assert k <= TickCount(amount);
  }

  /** Rounding an amount already on the grid leaves it unchanged, so rounding
      twice is rounding once. */
  lemma RoundToTickIdempotent(amount: real)
    ensures RoundToTick(RoundToTick(amount)) == RoundToTick(amount)
  {
  }
}
