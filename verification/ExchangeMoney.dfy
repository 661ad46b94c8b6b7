/** Dollar amounts and the six-decimal amounts a ledger stores, counted in micro-dollars. */
module ExchangeMoney {
  const SCALE := 1000000.0

  function Dollars(micros: int): real {
    micros as real / SCALE
  }

  /** The largest six-decimal amount not above a limit. */
  function FloorMicros(limit: real): int {
    (limit * SCALE).Floor
  }

  /** Six decimals, halves rounded away from zero. */
  function RoundMicros(amount: real): int {
    if 0.0 <= amount then (amount * SCALE + 0.5).Floor else -((-amount * SCALE + 0.5).Floor)
  }

  /** A floored cap never exceeds its source, and no larger six-decimal amount fits either. */
  lemma FloorIsGreatest(limit: real, micros: int)
    ensures FloorMicros(limit) as real / 1000000.0 <= limit
    ensures micros as real / 1000000.0 <= limit <==> micros <= FloorMicros(limit)
  {
    var f := FloorMicros(limit);
    assert f as real <= limit * 1000000.0 < f as real + 1.0;
    if micros as real / 1000000.0 <= limit {
      assert micros as real <= limit * 1000000.0;
    }
  }

  /** Rounding moves an amount by at most half a micro-dollar, and at a half away from zero. */
  lemma RoundingError(amount: real)
    ensures -0.5 <= RoundMicros(amount) as real - amount * 1000000.0 <= 0.5
    ensures RoundMicros(amount) as real == amount * 1000000.0 + 0.5 ==> 0.0 < amount
    ensures RoundMicros(amount) as real == amount * 1000000.0 - 0.5 ==> amount < 0.0
  {
    var a := amount * 1000000.0;
    assert 0.0 <= amount ==> 0.0 <= a;
    assert amount < 0.0 ==> a < 0.0;
  }

  /** An amount within a six-decimal ceiling is still within it after rounding, although rounding
      may go up. */
  lemma RoundedWithinCeiling(amount: real, ceiling: int)
    requires amount <= Dollars(ceiling)
    ensures RoundMicros(amount) <= ceiling
  {
    assert amount * SCALE <= ceiling as real;
    RoundingError(amount);
  }
}
