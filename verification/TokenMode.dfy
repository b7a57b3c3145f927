/** Token mode of RequestEpay: the request is in tokens, the order stores whole
    units, and fulfilment credits units times QuotaPerUnit. The division and the
    product both drop their fractions. */
module TokenMode {
  import opened Basics
  import opened Fulfilment

  /** The amount RequestEpay stores for a request of so many tokens. */
  function StoredAmount(tokens: nat, perUnit: real): int
    requires perUnit > 0.0
  {
    Truncate(tokens as real / perUnit)
  }

  /** The quota EpayNotify later adds for it. */
  function CreditedTokens(tokens: nat, perUnit: real): int
    requires perUnit > 0.0
  {
    Worth(TopUp(0, StoredAmount(tokens, perUnit), 0.0, Epay, "", Success), perUnit)
  }

  predicate WithinOneUnit(tokens: nat, perUnit: real)
    requires perUnit > 0.0
  {
    (tokens - CreditedTokens(tokens, perUnit)) as real < perUnit
  }

  function Times(n: int, x: real): real { n as real * x }

  function Fraction(x: real): real { x - x.Floor as real }

  /** A fraction of zero, or of one over a whole number. */
  ghost predicate UnitFraction(f: real) {
    f == 0.0 || exists q: nat :: Times(q, f) == 1.0
  }

  lemma LessTimes(x: real, y: real, z: real)
    requires z > 0.0
    ensures x < y <==> x * z < y * z
    ensures x <= y <==> x * z <= y * z
  {
    if x < y { assert (y - x) * z > 0.0; }
    if y < x { assert (x - y) * z > 0.0; }
  }

  /** n copies of a whole number and a fraction. */
  lemma TimesSplit(n: int, w: int, f: real)
    ensures Times(n, w as real + f) == (n * w) as real + Times(n, f)
  {
    assert n as real * (w as real + f) == n as real * w as real + n as real * f;
    assert n as real * w as real == (n * w) as real;
  }

  lemma TimesNext(n: int, x: real)
    ensures Times(n + 1, x) == Times(n, x) + x
  {
    assert (n as real + 1.0) * x == n as real * x + 1.0 * x;
  }

  /** A quotient lies between bounds exactly when the dividend does. */
  lemma Quotient(x: real, y: real, lo: real, hi: real)
    requires y > 0.0
    ensures lo <= x / y < hi <==> lo * y <= x < hi * y
  {
    var d := x / y;
    assert d * y == x;
    LessTimes(lo, d, y);
    LessTimes(d, hi, y);
  }

  /** a is the stored amount exactly when a units fit and a + 1 do not. */
  lemma StoredIs(tokens: nat, perUnit: real, a: nat)
    requires perUnit > 0.0
    ensures StoredAmount(tokens, perUnit) == a <==> Times(a, perUnit) <= tokens as real < Times(a + 1, perUnit)
  {
    StoredIsNat(tokens, perUnit);
    var d := tokens as real / perUnit;
    Quotient(tokens as real, perUnit, a as real, (a + 1) as real);
    assert d >= 0.0 by { LessTimes(0.0, d, perUnit); }
    assert d.Floor == a <==> a as real <= d < (a + 1) as real;
  }

  lemma StoredIsNat(tokens: nat, perUnit: real)
    requires perUnit > 0.0
    ensures StoredAmount(tokens, perUnit) >= 0
  {
    var d := tokens as real / perUnit;
    assert d * perUnit == tokens as real;
    LessTimes(0.0, d, perUnit);
  }

  lemma CreditedIs(tokens: nat, perUnit: real, a: nat)
    requires perUnit > 0.0 && StoredAmount(tokens, perUnit) == a
    ensures CreditedTokens(tokens, perUnit) == Times(a, perUnit).Floor && Times(a, perUnit) >= 0.0
  {
    LessTimes(0.0, a as real, perUnit);
  }

  /** The credit never exceeds the request. */
  lemma NeverMoreThanRequested(tokens: nat, perUnit: real)
    requires perUnit > 0.0
    ensures 0 <= CreditedTokens(tokens, perUnit) <= tokens
  {
    StoredIsNat(tokens, perUnit);
    var a: nat := StoredAmount(tokens, perUnit);
    StoredIs(tokens, perUnit, a);
    CreditedIs(tokens, perUnit, a);
  }

  /** With QuotaPerUnit = n + 1/q (or n) less than a unit is lost. */
  lemma UnitFractionLosesLess(tokens: nat, perUnit: real)
    requires perUnit > 0.0 && UnitFraction(Fraction(perUnit))
    ensures WithinOneUnit(tokens, perUnit)
  {
    var n, f := perUnit.Floor, Fraction(perUnit);
    StoredIsNat(tokens, perUnit);
    var a: nat := StoredAmount(tokens, perUnit);
    StoredIs(tokens, perUnit, a);
    CreditedIs(tokens, perUnit, a);
    TimesSplit(a, n, f);
    TimesNext(a, perUnit);
    var x := Times(a, f);
    assert x + f <= (x.Floor + 1) as real && (f == 0.0 ==> x == 0.0) by {
      if f == 0.0 {
        assert Times(a, f) == 0.0;
      } else {
        var q: nat :| Times(q, f) == 1.0;
        WholeMultiples(a, q, f);
      }
    }
    LossBound(tokens, CreditedTokens(tokens, perUnit), a * n, n, x, f);
  }

  lemma FloorShift(k: int, x: real)
    ensures (k as real + x).Floor == k + x.Floor
  {
  }

  /** The arithmetic of one order: k whole tokens and the fraction x were due. */
  lemma LossBound(tokens: int, credited: int, k: int, n: int, x: real, f: real)
    requires 0.0 <= f < 1.0 && x + f <= (x.Floor + 1) as real && (f == 0.0 ==> x == 0.0)
    requires credited == (k as real + x).Floor && tokens as real < k as real + x + (n as real + f)
    ensures (tokens - credited) as real < n as real + f
  {
    FloorShift(k, x);
    var loss := tokens - credited;
    assert loss as real < n as real + (x - x.Floor as real) + f;
    if f != 0.0 {
      assert loss as real < (n + 1) as real;
      assert loss <= n;
    }
  }

  lemma Cancel(a: real, q: real, f: real)
    requires q * f == 1.0
    ensures (a * f) * q == a && (a * q) * f == a
  {
    assert (a * f) * q == a * (q * f);
    assert (a * q) * f == a * (q * f);
  }

  /** a copies of 1/q stay below a whole number: a is below q times that number. */
  lemma BelowTop(a: nat, q: nat, f: real, top: int)
    requires q > 0 && Times(q, f) == 1.0 && Times(a, f) < top as real
    ensures a < top * q
  {
    var qr := q as real;
    Cancel(a as real, qr, f);
    LessTimes(Times(a, f), top as real, qr);
    assert top as real * qr == (top * q) as real;
  }

  /** At most q times top copies of 1/q are at most top. */
  lemma WithinTop(n: int, q: nat, f: real, top: int)
    requires f > 0.0 && Times(q, f) == 1.0 && n <= top * q
    ensures Times(n, f) <= top as real
  {
    var qr := q as real;
    Cancel(top as real, qr, f);
    assert top as real * qr == (top * q) as real;
    LessTimes(n as real, (top * q) as real, f);
  }

  lemma UnitIsPositive(q: nat, f: real)
    requires Times(q, f) == 1.0
    ensures q > 0 && f > 0.0
  {
    if q > 0 && f <= 0.0 { LessTimes(f, 0.0, q as real); }
  }

  /** Multiples of 1/q do not come within 1/q below a whole number. */
  lemma WholeMultiples(a: nat, q: nat, f: real)
    requires Times(q, f) == 1.0
    ensures Times(a, f) + f <= (Times(a, f).Floor + 1) as real
  {
    var top := Times(a, f).Floor + 1;
    UnitIsPositive(q, f);
    BelowTop(a, q, f, top);
    WithinTop(a + 1, q, f, top);
    TimesNext(a, f);
  }

  /** The largest number of copies of f that stay below one. */
  lemma Copies(f: real) returns (a: nat)
    requires 0.0 < f < 1.0
    ensures a >= 1 && Times(a, f) < 1.0 <= Times(a + 1, f)
  {
    var r := 1.0 / f;
    assert r * f == 1.0;
    LessTimes(1.0, r, f);
    a := if r.Floor as real == r then r.Floor - 1 else r.Floor;
    LessTimes(a as real, r, f);
    LessTimes(r, (a + 1) as real, f);
  }

  /** Otherwise some request loses a whole unit. */
  lemma OtherwiseSomeLosesOne(perUnit: real) returns (tokens: nat)
    requires perUnit > 0.0 && !UnitFraction(Fraction(perUnit))
    ensures !WithinOneUnit(tokens, perUnit)
  {
    var n, f := perUnit.Floor, Fraction(perUnit);
    var a := Copies(f);
    assert Times(a + 1, f) != 1.0;
    tokens := a * n + n + 1;
    TimesSplit(a, n, f);
    TimesSplit(a + 1, n, f);
    assert (a + 1) * n == a * n + n;
    LessTimes(0.0, a as real, f);
    StoredIs(tokens, perUnit, a);
    CreditedIs(tokens, perUnit, a);
    assert CreditedTokens(tokens, perUnit) == a * n;
  }

  /** Every request is credited to within one unit exactly when the fraction of
      QuotaPerUnit is zero or one over a whole number (the default, 500000, has
      none). */
  lemma WithinOneUnitIff(perUnit: real)
    requires perUnit > 0.0
    ensures (forall tokens: nat :: WithinOneUnit(tokens, perUnit)) <==> UnitFraction(Fraction(perUnit))
  {
    if UnitFraction(Fraction(perUnit)) {
      forall tokens: nat ensures WithinOneUnit(tokens, perUnit) { UnitFractionLosesLess(tokens, perUnit); }
    } else {
      var tokens := OtherwiseSomeLosesOne(perUnit);
    }
  }
}
