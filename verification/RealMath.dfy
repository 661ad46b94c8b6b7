/** Product and quotient facts over the reals. Times and Over name a product or quotient, so that
    the facts about it are linear wherever they are used. */
module RealMath {
  function Times(x: real, y: real): real {
    x * y
  }

  function Over(x: real, y: real): real {
    if y == 0.0 then 0.0 else x / y
  }

  lemma TimesCommutes(x: real, y: real)
    ensures Times(x, y) == Times(y, x)
  {
  }

  lemma TimesAdd(x: real, y: real, z: real)
    ensures Times(x, y + z) == Times(x, y) + Times(x, z)
    ensures Times(y + z, x) == Times(y, x) + Times(z, x)
  {
  }

  lemma TimesSub(x: real, y: real, z: real)
    ensures Times(x, y - z) == Times(x, y) - Times(x, z)
  {
  }

  lemma TimesUnit(x: real)
    ensures Times(x, 1.0) == x && Times(1.0, x) == x && Times(x, 0.0) == 0.0 && Times(0.0, x) == 0.0
  {
  }

  lemma TimesNonNegative(x: real, y: real)
    requires 0.0 <= x && 0.0 <= y
    ensures 0.0 <= Times(x, y)
  {
  }

  lemma TimesPositive(x: real, y: real)
    requires 0.0 < x && 0.0 < y
    ensures 0.0 < Times(x, y)
  {
  }

  lemma TimesMonotone(x: real, y: real, z: real)
    requires 0.0 <= x && y <= z
    ensures Times(x, y) <= Times(x, z)
  {
    TimesSub(x, z, y);
    TimesNonNegative(x, z - y);
  }

  lemma TimesStrict(x: real, y: real, z: real)
    requires 0.0 < x && y < z
    ensures Times(x, y) < Times(x, z)
  {
    TimesSub(x, z, y);
    TimesPositive(x, z - y);
  }

  /** A part of x, at most the whole. */
  lemma TimesShrinks(x: real, fraction: real)
    requires 0.0 <= x && 0.0 <= fraction <= 1.0
    ensures 0.0 <= Times(x, fraction) <= x
  {
    TimesNonNegative(x, fraction);
    TimesMonotone(x, fraction, 1.0);
    TimesUnit(x);
  }

  lemma OverTimes(x: real, y: real)
    requires y != 0.0
    ensures Times(Over(x, y), y) == x && Times(y, Over(x, y)) == x
  {
  }

  /** A quotient is the one number whose product with the divisor is the dividend. */
  lemma OverUnique(q: real, x: real, y: real)
    requires 0.0 < y && Times(q, y) == x
    ensures Over(x, y) == q
  {
    var p := Over(x, y);
    OverTimes(x, y);
    TimesCommutes(q, y);
    if p < q {
      TimesStrict(y, p, q);
      assert false;
    }
    if q < p {
      TimesStrict(y, q, p);
      assert false;
    }
  }

  lemma OverAdd(x: real, y: real, z: real)
    requires 0.0 < z
    ensures Over(x + y, z) == Over(x, z) + Over(y, z)
  {
    OverTimes(x, z);
    OverTimes(y, z);
    TimesAdd(z, Over(x, z), Over(y, z));
    TimesCommutes(Over(x, z) + Over(y, z), z);
    OverUnique(Over(x, z) + Over(y, z), x + y, z);
  }

  /** The quotient of two positive numbers is below one exactly when the dividend is smaller. */
  lemma OverBelowOne(a: real, b: real)
    requires 0.0 < a < b
    ensures 0.0 < Over(a, b) < 1.0 && Times(b, Over(a, b)) == a
  {
    var q := Over(a, b);
    OverTimes(a, b);
    TimesUnit(b);
    if q <= 0.0 {
      TimesMonotone(b, q, 0.0);
      assert false;
    }
    if 1.0 <= q {
      TimesMonotone(b, 1.0, q);
      assert false;
    }
  }

  /** Dividing by a number in (0, 1] never shrinks a non-negative amount. */
  lemma OverGrows(x: real, rate: real)
    requires 0.0 <= x && 0.0 < rate <= 1.0
    ensures x <= Over(x, rate)
  {
    var q := Over(x, rate);
    OverTimes(x, rate);
    TimesUnit(rate);
    if q < 0.0 {
      TimesStrict(rate, q, 0.0);
      assert false;
    }
    TimesShrinks(q, rate);
  }
}
