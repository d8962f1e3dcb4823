/** Rates to two decimals (reports.service.ts), on exact numbers and in the doubles of JavaScript. */
module Rates {
  /** `Math.round(value * 100) / 100`, on exact numbers. */
  function RoundRate(value: real): real {
    (value * 100.0 + 0.5).Floor as real / 100.0
  }

  /** A share of the whole, to two decimals; none of nothing. */
  function Rate(part: nat, whole: nat): real {
    if whole > 0 then RoundRate(part as real / whole as real) else 0.0
  }

  /** The rate is a whole number of hundredths, and none is nearer to the share than it. */
  lemma {:induction false} RateIsNearest(part: nat, whole: nat, hundredths: int)
    requires whole > 0
    ensures Rate(part, whole) * 100.0 == (Rate(part, whole) * 100.0).Floor as real
    ensures Distance(Rate(part, whole), part, whole) <= Distance(hundredths as real / 100.0, part, whole)
  {
    var x := part as real / whole as real * 100.0;
    var n := (x + 0.5).Floor;
    assert Rate(part, whole) == n as real / 100.0;
    assert -0.5 < x - n as real <= 0.5 || -0.5 <= x - n as real < 0.5;
    NearestHundredths(x, part, whole, n, hundredths);
  }

  /** How far a rate is from the exact share. */
  function Distance(rate: real, part: nat, whole: nat): real
    requires whole > 0
  {
    var d := rate - part as real / whole as real;
    if d < 0.0 then -d else d
  }

  lemma {:induction false} NoNearer(x: real, n: int, m: int)
    requires -0.5 <= x - n as real <= 0.5
    ensures m == n || m as real - x >= 0.5 || x - m as real >= 0.5
  {
    if m > n {
      assert m as real >= n as real + 1.0;
    } else if m < n {
      assert m as real <= n as real - 1.0;
    }
  }

  // In doubles

  /** 2 to the power of -53: how far, at most, the nearest double is from a number, in proportion to it. */
  const ROUNDING := 1.0 / 9007199254740992.0

  /** The double is one that the exact result of an operation may be rounded to. */
  predicate Rounded(exact: real, double: real) {
    -(exact * ROUNDING) <= double - exact <= exact * ROUNDING
  }

  /** An array of JavaScript has fewer elements than that. */
  const ARRAY_LIMIT := 0x1_0000_0000

  lemma {:induction false} AtMostScaled(a: real, b: real, w: real, aw: real, bw: real)
    requires w > 0.0 && a <= b && aw == a * w && bw == b * w
    ensures aw <= bw
  {
    assert bw - aw == (b - a) * w;
  }

  lemma {:induction false} LessScaled(a: real, b: real, w: real, aw: real, bw: real)
    requires w > 0.0 && a < b && aw == a * w && bw == b * w
    ensures aw < bw
  {
    assert bw - aw == (b - a) * w;
  }

  /** Two roundings move a share of fewer things than the limit by less than half a hundredth of one of them. */
  lemma {:induction false} RoundingsAreSmall(part: nat, whole: nat, q: real, p: real)
    requires whole > 0 && part < ARRAY_LIMIT
    requires Rounded(part as real / whole as real, q) && Rounded(q * 100.0, p)
    ensures -1.0 < p * (2.0 * whole as real) - (200 * part) as real < 1.0
  {
    var w, s := whole as real, part as real / whole as real;
    assert s * w == part as real;
    assert s >= 0.0;
    assert -(s * ROUNDING) <= q - s <= s * ROUNDING;
    assert q <= 2.0 * s;
    var e := p - s * 100.0;
    assert -(300.0 * s * ROUNDING) <= e <= 300.0 * s * ROUNDING;
    var bound := 300.0 * s * ROUNDING;
    assert bound * (2.0 * w) == 600.0 * ROUNDING * (s * w);
    AtMostScaled(e, bound, 2.0 * w, e * (2.0 * w), bound * (2.0 * w));
    AtMostScaled(-bound, e, 2.0 * w, -bound * (2.0 * w), e * (2.0 * w));
    assert e * (2.0 * w) == p * (2.0 * w) - 200.0 * (s * w);
  }

  lemma {:induction false} HalvesScaled(n: int, whole: nat)
    ensures (n as real - 0.5) * (2.0 * whole as real) == ((2 * n - 1) * whole) as real
    ensures (n as real + 0.5) * (2.0 * whole as real) == ((2 * n + 1) * whole) as real
  {
  }

  lemma {:induction false} WholeBetween(low: int, high: int, m: int, v: real)
    requires low as real <= v < high as real && -1.0 < v - m as real < 1.0
    ensures low <= m <= high
  {
    assert low as real < (m + 1) as real;
    assert (m - 1) as real < high as real;
  }

  /** What lies between a and b also does when scaled, and an integer near it does too. */
  lemma {:induction false} BetweenScaled(a: real, b: real, p: real, w: real, low: int, high: int, m: int, v: real)
    requires w > 0.0 && low as real == a * w && high as real == b * w && v == p * w
    requires a <= p < b && -1.0 < v - m as real < 1.0
    ensures low <= m <= high
  {
    AtMostScaled(a, p, w, low as real, v);
    LessScaled(p, b, w, v, high as real);
    WholeBetween(low, high, m, v);
  }

  lemma {:induction false} ScaledBetween(a: real, b: real, x: real, w: real, low: int, high: int, m: int)
    requires w > 0.0 && low as real == a * w && high as real == b * w && m as real == x * w
    requires low <= m <= high
    ensures a <= x <= b
    ensures m < high ==> x < b
  {
    if x < a {
      LessScaled(x, a, w, m as real, low as real);
    }
    if b <= x {
      AtMostScaled(b, x, w, high as real, m as real);
    }
    if b < x {
      LessScaled(b, x, w, high as real, m as real);
    }
  }

  lemma {:induction false} ShareScaled(part: nat, whole: nat)
    requires whole > 0
    ensures part as real / whole as real * 100.0 * (2.0 * whole as real) == (200 * part) as real
  {
    assert part as real / whole as real * whole as real == part as real;
  }

  lemma {:induction false} NearestHundredths(x: real, part: nat, whole: nat, n: int, m: int)
    requires whole > 0 && x == part as real / whole as real * 100.0 && n as real - 0.5 <= x <= n as real + 0.5
    ensures Distance(n as real / 100.0, part, whole) <= Distance(m as real / 100.0, part, whole)
  {
    NoNearer(x, n, m);
    assert part as real / whole as real == x / 100.0;
  }

  /** The outcome is at most half a hundredth from the exact share, by integers as well. */
  lemma {:induction false} ShareNearOutcome(part: nat, whole: nat, p: real, x: real, n: int)
    requires whole > 0 && n as real - 0.5 <= p < n as real + 0.5
    requires -1.0 < p * (2.0 * whole as real) - (200 * part) as real < 1.0
    requires x * (2.0 * whole as real) == (200 * part) as real
    ensures n as real - 0.5 <= x <= n as real + 0.5
    ensures 200 * part == (2 * n + 1) * whole || x < n as real + 0.5
  {
    var w, low, high := 2.0 * whole as real, (2 * n - 1) * whole, (2 * n + 1) * whole;
    HalvesScaled(n, whole);
    BetweenScaled(n as real - 0.5, n as real + 0.5, p, w, low, high, 200 * part, p * w);
    ScaledBetween(n as real - 0.5, n as real + 0.5, x, w, low, high, 200 * part);
  }

  lemma {:induction false} RateOf(part: nat, whole: nat, x: real, n: int)
    requires whole > 0 && x == part as real / whole as real * 100.0 && n as real - 0.5 <= x < n as real + 0.5
    ensures Rate(part, whole) == n as real / 100.0
  {
    assert (x + 0.5).Floor == n;
  }

  /**
   In doubles, with the quotient and its hundredfold rounded, the outcome is a number of
   hundredths that none is nearer to the exact share than: the same as on exact numbers, unless
   the share is midway between two.
   */
  lemma {:induction false} DoublesAreNearest(part: nat, whole: nat, q: real, p: real, hundredths: int)
    requires whole > 0 && part < ARRAY_LIMIT
    requires Rounded(part as real / whole as real, q) && Rounded(q * 100.0, p)
    ensures var n := (p + 0.5).Floor;
      && Distance(n as real / 100.0, part, whole) <= Distance(hundredths as real / 100.0, part, whole)
      && (n as real / 100.0 == Rate(part, whole) || 200 * part == (2 * n + 1) * whole)
  {
    var x, n := part as real / whole as real * 100.0, (p + 0.5).Floor;
    RoundingsAreSmall(part, whole, q, p);
    ShareScaled(part, whole);
    ShareNearOutcome(part, whole, p, x, n);
    NearestHundredths(x, part, whole, n, hundredths);
    if x < n as real + 0.5 {
      RateOf(part, whole, x, n);
    }
  }
}
