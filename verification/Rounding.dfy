/** Truncated division, as decimal.js performs it with precision 20 and ROUND_DOWN.
    A quotient is truncated to some number of fractional digits; "scale" is the power of ten those digits stand for,
    so the truncated value of a / b is (a * scale / b) / scale. */
module Rounding {

  /** Division truncating toward zero (ROUND_DOWN), for a positive divisor. */
  function TruncDiv(a: int, b: int): (q: int)
    requires b > 0
    ensures a >= 0 ==> q >= 0
  {
    if a >= 0 then a / b else -((-a) / b)
  }

  lemma QuotientBound(a: int, b: int)
    requires b > 0
    ensures a / b * b <= a < (a / b + 1) * b
  {
  }

  lemma TruncDivBound(a: nat, b: nat)
    requires b > 0
    ensures TruncDiv(a, b) * b <= a < (TruncDiv(a, b) + 1) * b
  {
    QuotientBound(a, b);
  }

  lemma MulMonotone(a: int, b: int, k: int)
    requires a <= b && k >= 0
    ensures a * k <= b * k
  {
  }

  lemma MulStrict(a: int, b: int, k: int)
    requires a < b && k > 0
    ensures a * k < b * k
  {
  }

  /** q is at most the truncated quotient exactly when q whole copies of the divisor fit. */
  lemma QuotientAtLeast(a: int, b: int, q: int)
    requires b > 0
    ensures q <= a / b <==> q * b <= a
  {
    QuotientBound(a, b);
    if q <= a / b {
      MulMonotone(q, a / b, b);
    } else {
      MulMonotone(a / b + 1, q, b);
    }
  }

  /** The same for the quotient truncated toward zero, for q at least one. */
  lemma TruncDivAtLeast(a: int, b: int, q: int)
    requires b > 0 && q >= 1
    ensures q <= TruncDiv(a, b) <==> q * b <= a
  {
    if a >= 0 {
      QuotientAtLeast(a, b, q);
    } else {
      QuotientBound(-a, b);
      MulMonotone(1, q, b);
    }
  }

  /** Comparing a truncated average price with a threshold is the same as cross-multiplying, whatever the number of
      digits kept, as long as the threshold itself is representable. */
  lemma TruncatedAverageTest(cost: nat, shares: nat, threshold: nat, scale: nat)
    requires shares > 0 && scale > 0
    ensures cost * scale / shares < threshold * scale <==> cost < threshold * shares
  {
    QuotientAtLeast(cost * scale, shares, threshold * scale);
    assert threshold * scale * shares == threshold * shares * scale by {
      MulSwap(threshold, scale, shares);
    }
    if cost < threshold * shares {
      MulStrict(cost, threshold * shares, scale);
    } else {
      MulMonotone(threshold * shares, cost, scale);
    }
  }

  lemma Cancel(a: int, b: int, k: int)
    requires a * k <= b * k && k > 0
    ensures a <= b
  {
    if b < a {
      MulStrict(b, a, k);
    }
  }

  lemma MulSwap(a: int, b: int, c: int)
    ensures a * b * c == a * c * b
  {
    assert a * b * c == a * (b * c);
    assert a * c * b == a * (c * b);
  }

  /** Truncating to many digits and then to fewer is truncating once: the inner 20-digit division does not disturb a
      following toDecimalPlaces(2, ROUND_DOWN). */
  lemma {:induction false} NestedTruncation(a: nat, b: nat, extra: nat)
    requires b > 0 && extra > 0
    ensures (a * extra / b) / extra == a / b
  {
    var q := a / b;
    QuotientBound(a, b);
    var inner := a * extra / b;
    QuotientAtLeast(a * extra, b, q * extra);
    MulMonotone(q * b, a, extra);
    MulSwap(q, extra, b);
    assert q * extra <= inner;
    QuotientAtLeast(a * extra, b, (q + 1) * extra);
    MulStrict(a, (q + 1) * b, extra);
    MulSwap(q + 1, extra, b);
    assert inner < (q + 1) * extra;
    QuotientAtLeast(inner, extra, q);
    QuotientAtLeast(inner, extra, q + 1);
  }

  /** Two truncated quotients in a row, m = n * q / digits after q = budget * digits / cost, stay below the exact ratio. */
  lemma TwiceTruncatedBelow(n: nat, q: nat, m: nat, cost: nat, budget: nat, digits: nat)
    requires m * digits <= n * q && q * cost <= budget * digits && digits > 0
    ensures m * cost <= n * budget
  {
    calc {
      m * cost * digits;
    == { MulSwap(m, cost, digits); }
      m * digits * cost;
    <= { MulMonotone(m * digits, n * q, cost); }
      n * q * cost;
    == { assert n * q * cost == n * (q * cost); }
      q * cost * n;
    <= { MulMonotone(q * cost, budget * digits, n); }
      budget * digits * n;
    == { assert budget * digits * n == n * (budget * digits) == n * budget * digits; }
      n * budget * digits;
    }
    Cancel(m * cost, n * budget, digits);
  }

  /** ... and less than one unit plus the truncation of the ratio above it. */
  lemma TwiceTruncatedAbove(n: nat, q: nat, m: nat, cost: nat, budget: nat, digits: nat)
    requires n * q < (m + 1) * digits && budget * digits < (q + 1) * cost && n > 0 && cost > 0
    ensures n * budget * digits < (m + 1) * cost * digits + n * cost
  {
    calc {
      n * budget * digits;
    == { assert n * budget * digits == n * (budget * digits) == budget * digits * n; }
      budget * digits * n;
    < { MulStrict(budget * digits, (q + 1) * cost, n); }
      (q + 1) * cost * n;
    == { MulSwap(q + 1, cost, n); }
      (q + 1) * n * cost;
    == { assert (q + 1) * n == n * q + n; }
      (n * q + n) * cost;
    == { assert (n * q + n) * cost == n * q * cost + n * cost; }
      n * q * cost + n * cost;
    <= { MulMonotone(n * q, (m + 1) * digits, cost); }
      (m + 1) * digits * cost + n * cost;
    == { MulSwap(m + 1, digits, cost); }
      (m + 1) * cost * digits + n * cost;
    }
  }

  /** A quotient truncated to the digits that "scale", a power of ten, stands for. */
  function Truncated(a: nat, b: nat, scale: nat): real
    requires b > 0 && scale > 0
  {
    TruncDiv(a * scale, b) as real / scale as real
  }

  /** Truncation loses less than one kept digit, and keeps the quotient between any integers it lies between. */
  lemma TruncatedBounds(a: nat, b: nat, scale: nat)
    requires b > 0 && scale > 0
    ensures var t := Truncated(a, b, scale);
            && 0.0 <= t && t * b as real <= a as real < (t + 1.0 / scale as real) * b as real
            && (a <= b ==> t <= 1.0)
  {
    var v := TruncDiv(a * scale, b);
    TruncDivBound(a * scale, b);
    hide TruncDiv;
    Rescaled(v, a, b, scale);
    if a <= b {
      MulMonotone(a, b, scale);
      Cancel(v, scale, b);
      Share(v, 1, scale);
    }
  }

  lemma Rescaled(v: nat, a: nat, b: nat, scale: nat)
    requires b > 0 && scale > 0 && v * b <= a * scale < (v + 1) * b
    ensures v as real / scale as real * b as real <= a as real
    ensures a as real < (v as real / scale as real + 1.0 / scale as real) * b as real
  {
    RealProduct(v, b);
    RealProduct(a, scale);
    RealProduct(v + 1, b);
    RescaledReal(v as real, a as real, b as real, scale as real);
  }

  lemma RealProduct(a: int, b: int)
    ensures (a * b) as real == a as real * b as real
  {
  }

  lemma RescaledReal(v: real, a: real, b: real, z: real)
    requires z > 0.0 && v * b <= a * z < (v + 1.0) * b
    ensures v / z * b <= a < (v / z + 1.0 / z) * b
  {
    var t, u := v / z, v / z + 1.0 / z;
    assert t * z == v;
    ScaledUp(1.0 / z, 1.0, z);
    assert u * z == t * z + 1.0 / z * z == v + 1.0;
    SwapFactor(t, b, z, v);
    SwapFactor(u, b, z, v + 1.0);
    Unscale(t * b, a, z);
    UnscaleStrict(a, u * b, z);
  }

  lemma ScaledUp(t: real, v: real, z: real)
    requires z != 0.0 && t == v / z
    ensures t * z == v
  {
  }

  lemma SwapFactor(t: real, b: real, z: real, v: real)
    requires t * z == v
    ensures (t * b) * z == v * b
  {
    assert (t * b) * z == (t * z) * b;
  }

  lemma Unscale(a: real, b: real, z: real)
    requires z > 0.0 && a * z <= b * z
    ensures a <= b
  {
  }

  lemma UnscaleStrict(a: real, b: real, z: real)
    requires z > 0.0 && a * z < b * z
    ensures a < b
  {
  }

  lemma Share(v: nat, hi: nat, scale: nat)
    requires scale > 0
    ensures v <= hi * scale ==> v as real / scale as real <= hi as real
    ensures hi * scale <= v ==> hi as real <= v as real / scale as real
  {
    assert v as real / scale as real * scale as real == v as real;
    assert (hi * scale) as real == hi as real * scale as real;
  }
}
