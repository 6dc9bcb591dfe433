/** divide.py: NULL-propagating arithmetic and quantization.  Decimals are exact reals; a scale
    of 10^-k is given as the number of units it cuts 1 into (10^k). */
module Numbers {
  import opened Prelude

  const RATE_UNITS: real := 1000000.0
  const MONEY_UNITS: real := 10000.0

  function Abs(x: real): (r: real)
    ensures r >= 0.0 && (r == x || r == -x)
  {
    if x < 0.0 then -x else x
  }

  function Min(x: real, y: real): real {
    if x <= y then x else y
  }

  function Max(x: real, y: real): real {
    if x <= y then y else x
  }

  /** ROUND_HALF_UP of the decimal module: ties go away from zero. */
  function RoundHalfUp(x: real): int {
    if x >= 0.0 then (x + 0.5).Floor else -((-x + 0.5).Floor)
  }

  /** `x.quantize(scale, rounding=ROUND_HALF_UP)`. */
  function Quantize(x: real, units: real): real
    requires units > 0.0
  {
    RoundHalfUp(x * units) as real / units
  }

  function SafeDivide(num: Option<real>, den: Option<real>, units: real): Option<real>
    requires units > 0.0
  {
    if num.None? || den.None? || den.value == 0.0 then None
    else Some(Quantize(num.value / den.value, units))
  }

  /** `units` is None when the caller passes no scale. */
  function SafeAdd(a: Option<real>, b: Option<real>, units: Option<real>): Option<real>
    requires units.Some? ==> units.value > 0.0
  {
    if a.None? || b.None? then None
    else if units.None? then Some(a.value + b.value)
    else Some(Quantize(a.value + b.value, units.value))
  }

  function SafeSubtract(a: Option<real>, b: Option<real>, units: Option<real>): Option<real>
    requires units.Some? ==> units.value > 0.0
  {
    if a.None? || b.None? then None
    else if units.None? then Some(a.value - b.value)
    else Some(Quantize(a.value - b.value, units.value))
  }

  predicate IsInteger(x: real) {
    x == x.Floor as real
  }

  // ---- rounding -------------------------------------------------------------------------

  lemma {:induction false} RoundNear(x: real)
    ensures -0.5 <= RoundHalfUp(x) as real - x <= 0.5
  {
  }

  lemma {:induction false} RoundMonotone(x: real, y: real)
    requires x <= y
    ensures RoundHalfUp(x) <= RoundHalfUp(y)
  {
    if x >= 0.0 {
      assert (x + 0.5).Floor <= (y + 0.5).Floor;
    } else if y < 0.0 {
      assert (-y + 0.5).Floor <= (-x + 0.5).Floor;
    }
  }

  lemma {:induction false} RoundOfInteger(n: int)
    ensures RoundHalfUp(n as real) == n
  {
    var x := n as real;
    if x >= 0.0 {
      assert x + 0.5 < (n + 1) as real;
      assert (x + 0.5).Floor == n;
    } else {
      assert (-x + 0.5).Floor == -n;
    }
  }

  lemma {:induction false} ScaleMonotone(x: real, y: real, units: real)
    requires x <= y && units > 0.0
    ensures x * units <= y * units
  {
    assert (y - x) * units >= 0.0;
  }

  lemma {:induction false} DivideSum(x: real, y: real, total: real)
    requires total != 0.0
    ensures (x + y) / total == x / total + y / total
  {
  }

  lemma {:induction false} DivideDifference(x: real, y: real, units: real)
    requires units > 0.0
    ensures x / units - y / units == (x - y) / units
  {
  }

  lemma {:induction false} DivideMonotone(x: real, y: real, units: real)
    requires x <= y && units > 0.0
    ensures x / units <= y / units
  {
    DivideDifference(y, x, units);
  }

  lemma {:induction false} DivideThenMultiply(x: real, units: real)
    requires units > 0.0
    ensures (x / units) * units == x && (x * units) / units == x
  {
  }

  /** Quantizing keeps order. */
  lemma {:induction false} QuantizeMonotone(x: real, y: real, units: real)
    requires x <= y && units > 0.0
    ensures Quantize(x, units) <= Quantize(y, units)
  {
    ScaleMonotone(x, y, units);
    RoundMonotone(x * units, y * units);
    DivideMonotone(RoundHalfUp(x * units) as real, RoundHalfUp(y * units) as real, units);
  }

  lemma {:induction false} NearAfterDivision(r: real, x: real, units: real)
    requires units > 0.0 && -0.5 <= r - x * units <= 0.5
    ensures -0.5 / units <= r / units - x <= 0.5 / units
  {
    var a := x * units;
    DivideThenMultiply(x, units);
    DivideDifference(r, a, units);
    DivideMonotone(-0.5, r - a, units);
    DivideMonotone(r - a, 0.5, units);
  }

  /** Quantizing moves a value by at most half a unit. */
  lemma {:induction false} QuantizeNear(x: real, units: real)
    requires units > 0.0
    ensures -0.5 / units <= Quantize(x, units) - x <= 0.5 / units
  {
    hide RoundHalfUp;
    RoundNear(x * units);
    NearAfterDivision(RoundHalfUp(x * units) as real, x, units);
  }

  lemma {:induction false} QuantizeMultiple(x: real, n: int, units: real)
    requires units > 0.0 && x * units == n as real
    ensures Quantize(x, units) == n as real / units
  {
    RoundOfInteger(n);
    assert RoundHalfUp(x * units) == n;
  }

  /** A multiple of the scale is a fixed point. */
  lemma {:induction false} QuantizeExact(n: int, units: real)
    requires units > 0.0
    ensures Quantize(n as real / units, units) == n as real / units
  {
    DivideThenMultiply(n as real, units);
    QuantizeMultiple(n as real / units, n, units);
  }

  /** Quantizing twice changes nothing more. */
  lemma {:induction false} QuantizeIdempotent(x: real, units: real)
    requires units > 0.0
    ensures Quantize(Quantize(x, units), units) == Quantize(x, units)
  {
    QuantizeExact(RoundHalfUp(x * units), units);
  }

  // ---- half up, said of the exact value ---------------------------------------------------------

  /** The value is a multiple of the unit, nearest to the exact one, and away from zero on a tie. */
  ghost predicate HalfUpTo(v: real, exact: real, units: real)
    requires units > 0.0
  {
    exists n: int :: RoundsTo(n, v, exact, units)
  }

  predicate RoundsTo(n: int, v: real, exact: real, units: real)
    requires units > 0.0
  {
    NearestUnit(n, exact * units) && v == n as real / units
  }

  predicate NearestUnit(n: int, x: real) {
    if x >= 0.0 then n as real - 0.5 <= x < n as real + 0.5 else n as real - 0.5 < x <= n as real + 0.5
  }

  lemma {:induction false} RoundIsNearest(x: real, n: int)
    ensures RoundHalfUp(x) == n <==> NearestUnit(n, x)
  {
  }

  /** `quantize` rounds half up, and nothing else does: a value is the rounded one if and only if it is the
      nearest multiple of the unit, away from zero on a tie. */
  lemma {:induction false} QuantizeIsHalfUp(x: real, v: real, units: real)
    requires units > 0.0
    ensures v == Quantize(x, units) <==> HalfUpTo(v, x, units)
  {
    hide RoundHalfUp, NearestUnit;
    RoundIsNearest(x * units, RoundHalfUp(x * units));
    if v == Quantize(x, units) {
      assert RoundsTo(RoundHalfUp(x * units), v, x, units);
    }
    if n: int :| RoundsTo(n, v, x, units) {
      RoundIsNearest(x * units, n);
    }
  }

  /** Ties go away from zero, on either side of it. */
  lemma {:induction false} TiesGoAway(n: nat, q: real, units: real)
    requires units > 0.0 && q * units == n as real + 0.5
    ensures Quantize(q, units) == (n + 1) as real / units && Quantize(-q, units) == -((n + 1) as real / units)
  {
    hide RoundHalfUp;
    assert -q * units == -(q * units);
    RoundIsNearest(q * units, n + 1);
    RoundIsNearest(-q * units, -(n + 1));
    NegatedQuotient((n + 1) as real, units);
    assert (-(n + 1)) as real == -((n + 1) as real);
  }

  lemma {:induction false} NegatedQuotient(x: real, units: real)
    requires units > 0.0
    ensures -x / units == -(x / units)
  {
  }
}
