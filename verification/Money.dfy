/** Rupees to paise (ingestion/canonical.py) in Python's decimal arithmetic: 28 significant digits, a
    product rounded half-even, a quantization rounded half-up, and the two ways it can fail. */
module Money {
  import opened Digits

  /** What a Python call does: return, or raise one of two exceptions. */
  datatype Outcome<+T> = Got(value: T) | ValueError | InvalidOperation {
    predicate IsFailure() { !Got? }

    function PropagateFailure<U>(): Outcome<U>
      requires IsFailure()
    {
      if ValueError? then ValueError else InvalidOperation
    }

    function Extract(): T
      requires !IsFailure()
    {
      value
    }
  }

  /** A source amount: blank, text that is no decimal, or a decimal: `coefficient` / 10^`places`. */
  datatype Amount = Blank | Unreadable | NaN | Infinite(negative: bool) | Decimal(coefficient: int, places: nat)

  // ----- rounding -----

  /** n / d rounded HALF_UP: ties go away from zero. */
  function HalfUpDiv(n: int, d: int): (q: int)
    requires d > 0
    ensures n >= 0 ==> q >= 0
  {
    if n >= 0 then (2 * n + d) / (2 * d) else -((-2 * n + d) / (2 * d))
  }

  lemma HalfUpDivIsNearest(n: int, d: int)
    requires d > 0
    ensures Abs(2 * (d * HalfUpDiv(n, d)) - 2 * n) <= d
  {
    var m := if n >= 0 then n else -n;
    var q := (2 * m + d) / (2 * d);
    assert 2 * m + d == (2 * d) * q + (2 * m + d) % (2 * d);
    assert (2 * d) * q == 2 * (d * q);
    if n < 0 {
      assert d * -q == -(d * q);
    }
  }

  lemma Distribute(t: int, a: int, b: int)
    ensures t * (a - b) == t * a - t * b
  {
  }

  lemma QuotientOrder(e: int, q: int, r: int, p: int, t: int)
    requires e > 0 && 0 <= r && t < e && e * q + r <= e * p + t
    ensures q <= p
  {
    Distribute(e, q, p);
    var k := q - p;
    assert k > 0 ==> e * k >= e;
  }

  lemma TimesMonotone(e: int, a: int, b: int)
    requires e >= 0 && a <= b
    ensures e * a <= e * b
  {
    Distribute(e, b, a);
    var k := b - a;
    assert e * k >= 0;
  }

  /** The half-up quotient is at least `q` exactly when twice the dividend reaches 2q - 1 divisors. */
  lemma HalfUpDivAtLeast(n: nat, d: int, q: int)
    requires d > 0
    ensures HalfUpDiv(n, d) >= q <==> 2 * n >= (2 * q - 1) * d
  {
    var x, e := 2 * n + d, 2 * d;
    assert x == e * (x / e) + x % e;
    assert (2 * q - 1) * d == e * q - d;
    if x >= e * q {
      QuotientOrder(e, q, 0, x / e, x % e);
    }
    if x / e >= q {
      TimesMonotone(e, q, x / e);
    }
  }

  /** n / d rounded HALF_EVEN. */
  function HalfEvenDiv(n: nat, d: nat): nat
    requires d > 0
  {
    var q, r := n / d, n % d;
    if 2 * r < d || (2 * r == d && q % 2 == 0) then q else q + 1
  }

  lemma HalfEvenDivIsNearest(n: nat, d: nat)
    requires d > 0
    ensures Abs(2 * (HalfEvenDiv(n, d) * d) - 2 * n) <= d
  {
    var q, r := n / d, n % d;
    assert n == d * q + r;
    assert (q + 1) * d == d * q + d && q * d == d * q;
  }

  /** Ties go away from zero on either side, and to the even neighbour. */
  lemma TiesGo(n: int, d: int, q: nat)
    requires n >= 0 && d > 0
    ensures HalfUpDiv(-n, d) == -HalfUpDiv(n, d)
    ensures 2 * n == (2 * q + 1) * d ==> HalfUpDiv(n, d) == q + 1
    ensures 2 * n == (2 * q + 1) * d ==> HalfEvenDiv(n, d) == if q % 2 == 0 then q else q + 1
  {
    if 2 * n == (2 * q + 1) * d {
      HalfUpDivAtLeast(n, d, q + 1);
      HalfUpDivAtLeast(n, d, q + 2);
      assert (2 * (q + 2) - 1) * d == (2 * q + 1) * d + 2 * d;
      EvenTie(n, d, q);
    }
  }

  lemma EvenTie(n: nat, d: int, q: nat)
    requires d > 0 && 2 * n == (2 * q + 1) * d
    ensures n / d == q && 2 * (n % d) == d
  {
    assert (2 * q + 1) * d == 2 * (d * q) + d;
    assert n == d * (n / d) + n % d;
    QuotientOrder(d, q, 0, n / d, n % d);
    if n / d > q {
      TimesMonotone(d, q + 1, n / d);
    }
  }

  // ----- 28 digits -----

  const LIMIT: nat := 10_000_000_000_000_000_000_000_000_000
  const LEAST: nat := 1_000_000_000_000_000_000_000_000_000

  function Pow10(n: nat): (r: nat)
    ensures r >= 1
  {
    if n == 0 then 1 else 10 * Pow10(n - 1)
  }

  lemma {:induction false} Pow10Grows(a: nat, b: nat)
    requires a < b
    ensures 10 * Pow10(a) <= Pow10(b)
  {
    if a + 1 < b {
      Pow10Grows(a, b - 1);
    }
  }

  /** How many digits a coefficient has beyond 28. */
  function Excess(n: nat): nat { if n < LIMIT then 0 else 1 + Excess(n / 10) }

  lemma {:induction false} ExcessIs(n: nat)
    requires n >= LIMIT
    ensures Excess(n) >= 1 && LEAST * Pow10(Excess(n)) <= n < LIMIT * Pow10(Excess(n))
  {
    if n / 10 < LIMIT {
      assert Excess(n / 10) == 0 && Excess(n) == 1;
      assert Pow10(1) == 10 * Pow10(0) == 10;
    } else {
      ExcessIs(n / 10);
    }
  }

  /** A coefficient rounded to 28 significant digits. */
  function ToPrecision(n: nat): nat { HalfEvenDiv(n, Pow10(Excess(n))) * Pow10(Excess(n)) }

  lemma ToPrecisionIsNearest(n: nat)
    ensures Abs(2 * ToPrecision(n) - 2 * n) <= Pow10(Excess(n))
    ensures n < LIMIT ==> ToPrecision(n) == n
  {
    HalfEvenDivIsNearest(n, Pow10(Excess(n)));
  }

  lemma HalfEvenDivReachesLimit(n: nat, d: nat)
    requires d > 0
    ensures HalfEvenDiv(n, d) >= LIMIT <==> 2 * n >= (2 * LIMIT - 1) * d
  {
    var q, r := n / d, n % d;
    assert n == d * q + r;
    if q >= LIMIT {
      TimesMonotone(d, LIMIT, q);
    } else if q <= LIMIT - 2 {
      TimesMonotone(d, q, LIMIT - 2);
    } else {
      assert q == LIMIT - 1 && d * q == LIMIT * d - d;
    }
  }

  lemma HalfEvenDivAtLeast(n: nat, d: nat)
    requires d > 0 && n >= LEAST * d
    ensures HalfEvenDiv(n, d) >= LEAST
  {
    assert n == d * (n / d) + n % d;
    QuotientOrder(d, LEAST, 0, n / d, n % d);
  }

  // ----- rupees to paise -----

  function PaiseOf(coefficient: nat, places: nat): nat { HalfUpDiv(100 * ToPrecision(coefficient), Pow10(places)) }

  function RupeesToPaise(v: Amount): Outcome<nat> {
    match v
    case Blank => Got(0)
    case Unreadable => ValueError
    case NaN => InvalidOperation
    case Infinite(negative) => if negative then ValueError else InvalidOperation
    case Decimal(c, places) =>
      if c < 0 then ValueError
      else if PaiseOf(c, places) >= LIMIT then InvalidOperation
      else Got(PaiseOf(c, places))
  }

  /** Half a paisa short of 10^28 paise, or more: 99999999999999999999999999.995 rupees. */
  predicate TooWide(coefficient: int, places: nat) { 200 * coefficient >= (2 * LIMIT - 1) * Pow10(places) }

  predicate Refusable(v: Amount) { v.Unreadable? || v == Infinite(true) || (v.Decimal? && v.coefficient < 0) }

  predicate Raises(v: Amount) { v.NaN? || v == Infinite(false) || (v.Decimal? && TooWide(v.coefficient, v.places)) }

  /** The dropped digits are worth more than ten paise, exactly a paisa, or at most a tenth. */
  lemma DroppedDigits(k: nat, places: nat)
    ensures k + 2 > places ==> 100 * Pow10(k) >= 10 * Pow10(places)
    ensures k + 2 == places ==> 100 * Pow10(k) == Pow10(places)
    ensures k + 2 < places ==> 1000 * Pow10(k) <= Pow10(places)
  {
    assert Pow10(k + 2) == 100 * Pow10(k);
    if k + 2 > places {
      Pow10Grows(places, k + 2);
    } else if k + 2 < places {
      Pow10Grows(k + 2, places);
    }
  }

  lemma RoundedTooWide(c: nat, places: nat)
    requires c >= LIMIT
    ensures 200 * ToPrecision(c) >= (2 * LIMIT - 1) * Pow10(places) <==> TooWide(c, places)
  {
    var u, p, q := Pow10(Excess(c)), Pow10(places), HalfEvenDiv(c, Pow10(Excess(c)));
    HalfEvenDivIsNearest(c, u);
    ExcessIs(c);
    DroppedDigits(Excess(c), places);
    HalfEvenDivAtLeast(c, u);
    TimesMonotone(u, LEAST, q);
    if Excess(c) + 2 > places {
      BigUnit(c, q * u, u, p);
    } else if Excess(c) + 2 < places {
      SmallUnit(c, q * u, u, p);
    } else {
      UnitIsPaisa(c, q, u, p);
    }
  }

  lemma UnitIsPaisa(c: nat, q: nat, u: nat, p: nat)
    requires u >= 1 && 100 * u == p && q == HalfEvenDiv(c, u)
    ensures 200 * (q * u) >= (2 * LIMIT - 1) * p <==> 200 * c >= (2 * LIMIT - 1) * p
  {
    HalfEvenDivReachesLimit(c, u);
    AtTheUnit(q, u);
  }

  /** Rounding to 28 digits first does not change which amounts are too wide. */
  lemma TooWideExactly(c: nat, places: nat)
    ensures PaiseOf(c, places) >= LIMIT <==> TooWide(c, places)
  {
    HalfUpDivAtLeast(100 * ToPrecision(c), Pow10(places), LIMIT);
    if c < LIMIT {
      ToPrecisionIsNearest(c);
    } else {
      RoundedTooWide(c, places);
    }
  }

  /** `x` is `c` rounded to 28 digits, `u` the worth of its last digit in the unit of `c`, of which `p` make a
      rupee. */
  lemma BigUnit(c: nat, x: nat, u: nat, p: nat)
    requires LEAST * u <= c && LEAST * u <= x && 100 * u >= 10 * p
    ensures 200 * x >= (2 * LIMIT - 1) * p && 200 * c >= (2 * LIMIT - 1) * p
  {
  }

  lemma SmallUnit(c: nat, x: nat, u: nat, p: nat)
    requires u >= 1 && c < LIMIT * u && 2 * x <= 2 * c + u && 1000 * u <= p
    ensures 200 * x < (2 * LIMIT - 1) * p && 200 * c < (2 * LIMIT - 1) * p
  {
  }

  lemma AtTheUnit(q: nat, u: nat)
    requires u >= 1
    ensures 2 * (q * u) >= (2 * LIMIT - 1) * u <==> q >= LIMIT
  {
    if q >= LIMIT {
      TimesMonotone(u, LIMIT, q);
    } else {
      TimesMonotone(u, q, LIMIT - 1);
    }
  }

  /** A conversion raises `InvalidOperation`, which no caller catches, exactly on a NaN, on positive infinity
      and on amounts that are too wide; and `ValueError` exactly on unreadable and negative ones. */
  lemma RaisesExactly(v: Amount)
    ensures RupeesToPaise(v).InvalidOperation? <==> Raises(v)
    ensures RupeesToPaise(v).ValueError? <==> Refusable(v)
    ensures !(Raises(v) && Refusable(v))
    ensures v.Blank? ==> RupeesToPaise(v) == Got(0)
  {
    if v.Decimal? && v.coefficient >= 0 {
      TooWideExactly(v.coefficient, v.places);
    }
  }

  /** A converted amount is its nearest paisa, ties upward, when it has at most 28 digits; with more digits the
      two roundings stay within one paisa. */
  lemma PaiseIsNearest(v: Amount)
    requires v.Decimal? && RupeesToPaise(v).Got?
    ensures var x, p := RupeesToPaise(v).value, Pow10(v.places);
      (v.coefficient < LIMIT ==> x == HalfUpDiv(100 * v.coefficient, p)) &&
      Abs(2 * (p * x) - 200 * v.coefficient) <= if v.coefficient < LIMIT then p else 2 * p
  {
    var c, p := v.coefficient, Pow10(v.places);
    HalfUpDivIsNearest(100 * ToPrecision(c), p);
    ToPrecisionIsNearest(c);
    if c >= LIMIT {
      RaisesExactly(v);
      ExcessIs(c);
      DroppedDigits(Excess(c), v.places);
    }
  }

  /** With 29 digits a converted amount can miss its nearest paisa: just under half a paisa becomes one. */
  lemma TwoRoundingsMiss()
    ensures var v := Decimal(49_999_999_999_999_999_999_999_999_999, 31);
      RupeesToPaise(v) == Got(1) && HalfUpDiv(100 * v.coefficient, Pow10(v.places)) == 0
  {
    PowersOfTen();
    assert Excess(49_999_999_999_999_999_999_999_999_999) == 1;
  }

  lemma PowersOfTen()
    ensures Pow10(28) == LIMIT && Pow10(31) == 1000 * LIMIT
  {
    assert Pow10(7) == 10_000_000;
    assert Pow10(14) == 100_000_000_000_000;
    assert Pow10(21) == 1_000_000_000_000_000_000_000;
  }
}
