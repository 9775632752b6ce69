/**
 * The arithmetic the three calculators share, over mathematical reals:
 * integer powers, month-by-month accumulation of a balance with a fixed
 * monthly contribution, its closed form (the ordinary-annuity formula), the
 * two-decimal rounding of `Number(x.toFixed(2))`, and decimal labels.
 */
module FinanceMath {

  /**
   * x raised to a natural exponent: what `Math.pow(x, n)` computes for whole n.
   * A positive base gives a positive power.
   */
  function Pow(x: real, n: nat): (p: real)
    ensures n == 0 ==> p == 1.0
    ensures x > 0.0 ==> p > 0.0
  {
    if n == 0 then 1.0 else x * Pow(x, n - 1)
  }

  lemma {:induction false} PowAtLeastOne(x: real, n: nat)
    requires x >= 1.0
    ensures Pow(x, n) >= 1.0
  {
    if n > 0 {
      PowAtLeastOne(x, n - 1);
      assert x * Pow(x, n - 1) >= 1.0 * Pow(x, n - 1);
    }
  }

  /** A base above one raised to a positive exponent stays above one. */
  lemma {:induction false} PowAboveOne(x: real, n: nat)
    requires x > 1.0 && n >= 1
    ensures Pow(x, n) > 1.0
  {
    PowAtLeastOne(x, n - 1);
    assert x * Pow(x, n - 1) > 1.0 * Pow(x, n - 1);
  }

  /** A base in [0, 1] raised to any exponent stays at most one. */
  lemma {:induction false} PowAtMostOne(x: real, n: nat)
    requires 0.0 <= x <= 1.0
    ensures Pow(x, n) <= 1.0
  {
    if n > 0 {
      PowAtMostOne(x, n - 1);
      PowNonNegative(x, n - 1);
      var p := Pow(x, n - 1);
      ScaleMonotone(p, x, 1.0);
      assert Pow(x, n) == x * p <= p;
    }
  }

  lemma {:induction false} PowNonNegative(x: real, n: nat)
    requires x >= 0.0
    ensures Pow(x, n) >= 0.0
  {
    if n > 0 {
      PowNonNegative(x, n - 1);
      assert x * Pow(x, n - 1) >= 0.0;
    }
  }

  /** Bernoulli's inequality: (1+r)^n >= 1 + n*r, strictly from two periods on. */
  lemma {:induction false} Bernoulli(r: real, n: nat)
    requires r > 0.0
    ensures Pow(1.0 + r, n) >= 1.0 + n as real * r
    ensures n >= 2 ==> Pow(1.0 + r, n) > 1.0 + n as real * r
  {
    if n > 0 {
      Bernoulli(r, n - 1);
      BernoulliStep(r, (n - 1) as real, Pow(1.0 + r, n - 1));
    }
  }

  /** One step of Bernoulli's inequality: from p >= 1 + k*r to (1+r)p >= 1 + (k+1)r. */
  lemma BernoulliStep(r: real, k: real, p: real)
    requires r > 0.0 && k >= 0.0 && p >= 1.0 + k * r
    ensures (1.0 + r) * p >= 1.0 + (k + 1.0) * r
    ensures k >= 1.0 ==> (1.0 + r) * p > 1.0 + (k + 1.0) * r
  {
    var a := 1.0 + k * r;
    ScaleMonotone(1.0 + r, a, p);
    assert (1.0 + r) * a == 1.0 + (k + 1.0) * r + k * (r * r);
    SquareTerm(k, r);
  }

  lemma SquareTerm(k: real, r: real)
    requires k >= 0.0 && r > 0.0
    ensures k * (r * r) >= 0.0
    ensures k >= 1.0 ==> k * (r * r) > 0.0
  {
    ScaleStrict(r, 0.0, r);
    ScaleMonotone(k, 0.0, r * r);
  }

  lemma ScaleStrict(c: real, a: real, b: real)
    requires c > 0.0 && a < b
    ensures c * a < c * b
  {
  }

  lemma ScaleMonotone(c: real, a: real, b: real)
    requires c >= 0.0 && a <= b
    ensures c * a <= c * b
  {
  }

  /**
   * The balance after n months: start with `c`, and at the end of every month
   * apply the monthly rate `r` and then add the contribution `m`.
   */
  function Balance(c: real, m: real, r: real, n: nat): real
  {
    if n == 0 then c else Balance(c, m, r, n - 1) * (1.0 + r) + m
  }

  /** The ordinary-annuity closed form C(1+r)^n + M((1+r)^n - 1)/r. */
  function AnnuityValue(c: real, m: real, r: real, n: nat): real
    requires r != 0.0
  {
    ClosedForm(c, m, r, Pow(1.0 + r, n))
  }

  /** The closed form for a given growth factor g = (1+r)^n. */
  function ClosedForm(c: real, m: real, r: real, g: real): real
    requires r != 0.0
  {
    c * g + (m * (g - 1.0)) / r
  }

  lemma AnnuityValueAt(c: real, m: real, r: real, n: nat, g: real)
    requires r != 0.0 && g == Pow(1.0 + r, n)
    ensures AnnuityValue(c, m, r, n) == c * g + (m * (g - 1.0)) / r
  {
  }

  /** A balance whose closed form equals a target ends at that target. */
  lemma BalanceFromClosedForm(c: real, m: real, r: real, n: nat, g: real, target: real)
    requires r != 0.0 && g == Pow(1.0 + r, n)
    requires c * g + (m * (g - 1.0)) / r == target
    ensures Balance(c, m, r, n) == target
  {
    AnnuityValueAt(c, m, r, n, g);
    AnnuityValueIsBalance(c, m, r, n);
  }

  /** The closed form is exactly the month-by-month accumulation. */
  lemma {:induction false} AnnuityValueIsBalance(c: real, m: real, r: real, n: nat)
    requires r != 0.0
    ensures AnnuityValue(c, m, r, n) == Balance(c, m, r, n)
  {
    if n > 0 {
      AnnuityValueIsBalance(c, m, r, n - 1);
      PowStep(1.0 + r, n);
      AnnuityNextMonth(c, m, r, Pow(1.0 + r, n - 1), Balance(c, m, r, n - 1), Pow(1.0 + r, n));
    }
  }

  lemma PowStep(x: real, n: nat)
    requires n > 0
    ensures Pow(x, n) == x * Pow(x, n - 1)
  {
  }

  /** If b is the closed form for growth p, one more month turns it into the closed form for growth g = (1+r)p. */
  lemma AnnuityNextMonth(c: real, m: real, r: real, p: real, b: real, g: real)
    requires r != 0.0 && g == (1.0 + r) * p
    requires b == ClosedForm(c, m, r, p)
    ensures b * (1.0 + r) + m == ClosedForm(c, m, r, g)
  {
    var q := (m * (p - 1.0)) / r;
    AnnuityStep(m, r, p);
    assert b * (1.0 + r) == c * ((1.0 + r) * p) + q * (1.0 + r);
  }

  /** One month of the annuity term: compounding it and adding m gives the next month's term. */
  lemma AnnuityStep(m: real, r: real, p: real)
    requires r != 0.0
    ensures (m * ((1.0 + r) * p - 1.0)) / r == (m * (p - 1.0)) / r * (1.0 + r) + m
  {
    var q := (m * (p - 1.0)) / r;
    var q' := (m * ((1.0 + r) * p - 1.0)) / r;
    assert q * r == m * (p - 1.0);
    assert q' * r == m * ((1.0 + r) * p - 1.0);
    assert (q * (1.0 + r) + m) * r == (q * r) * (1.0 + r) + m * r;
    assert q' * r == (q * (1.0 + r) + m) * r;
  }

  /** With a positive start and no withdrawals, the balance is positive. */
  lemma {:induction false} BalancePositive(c: real, m: real, r: real, n: nat)
    requires c > 0.0 && m >= 0.0 && r >= 0.0
    ensures Balance(c, m, r, n) > 0.0
  {
    if n > 0 {
      BalancePositive(c, m, r, n - 1);
      assert Balance(c, m, r, n - 1) * (1.0 + r) >= Balance(c, m, r, n - 1);
    }
  }

  /** With a positive start, a positive rate and no withdrawals, the balance grows every month. */
  lemma {:induction false} BalanceIncreasing(c: real, m: real, r: real, i: nat, j: nat)
    requires c > 0.0 && m >= 0.0 && r > 0.0 && i < j
    ensures Balance(c, m, r, i) < Balance(c, m, r, j)
  {
    if i < j - 1 {
      BalanceIncreasing(c, m, r, i, j - 1);
    }
    BalancePositive(c, m, r, j - 1);
    var b := Balance(c, m, r, j - 1);
    assert b * (1.0 + r) > b;
  }

  /**
   * With a positive start, a positive rate and no withdrawals, the balance
   * after n >= 1 months exceeds what was put in (c plus n contributions).
   */
  lemma {:induction false} BalanceAboveDeposits(c: real, m: real, r: real, n: nat)
    requires c > 0.0 && m >= 0.0 && r > 0.0 && n >= 1
    ensures Balance(c, m, r, n) > c + m * n as real
  {
    var b := Balance(c, m, r, n - 1);
    if n == 1 {
      assert b == c;
      assert c * (1.0 + r) > c;
    } else {
      BalanceAboveDeposits(c, m, r, n - 1);
      BalancePositive(c, m, r, n - 1);
      assert b * (1.0 + r) > b;
      assert m * n as real == m * (n - 1) as real + m;
    }
  }

  /**
   * `Number(x.toFixed(2))` on an exact value: the integer count of cents
   * closest to 100|x|, the larger one on a tie, with the sign of x put back.
   */
  function Round2(x: real): (y: real)
    ensures -0.005 <= y - x <= 0.005
    ensures (y * 100.0).Floor as real == y * 100.0
    ensures x >= 0.0 ==> y >= 0.0
  {
    var cents := if x < 0.0 then -Cents(-x) else Cents(x);
    var y := cents as real / 100.0;
    assert y * 100.0 == cents as real;
    assert (cents as real).Floor == cents;
    assert x * 100.0 - 0.5 <= cents as real <= x * 100.0 + 0.5;
    y
  }

  /** The whole number of cents nearest to a non-negative x, rounding a half up. */
  function Cents(x: real): (k: int)
    requires x >= 0.0
    ensures x * 100.0 - 0.5 < k as real <= x * 100.0 + 0.5
    ensures k >= 0
  {
    (x * 100.0 + 0.5).Floor
  }

  /** Rounding never reverses the order of two values. */
  lemma Round2Monotone(x: real, y: real)
    requires x <= y
    ensures Round2(x) <= Round2(y)
  {
    if 0.0 <= x {
      FloorMonotone(x * 100.0 + 0.5, y * 100.0 + 0.5);
    } else if y < 0.0 {
      FloorMonotone(-y * 100.0 + 0.5, -x * 100.0 + 0.5);
    } else {
      assert Round2(x) <= 0.0 <= Round2(y);
    }
  }

  lemma FloorMonotone(a: real, b: real)
    requires a <= b
    ensures a.Floor <= b.Floor
  {
  }

  /** The decimal digits of n, as a template literal `${n}` prints a whole number. */
  function NatToString(n: nat): (s: string)
    ensures |s| >= 1
    ensures forall i :: 0 <= i < |s| ==> '0' <= s[i] <= '9'
  {
    if n < 10 then [Digit(n)] else NatToString(n / 10) + [Digit(n % 10)]
  }

  function Digit(d: nat): (c: char)
    requires d < 10
    ensures '0' <= c <= '9'
    ensures c as int - '0' as int == d
  {
    "0123456789"[d]
  }

  /** The number a string of decimal digits denotes, read left to right. */
  function DigitsValue(s: string): nat
    requires forall i :: 0 <= i < |s| ==> '0' <= s[i] <= '9'
  {
    if |s| == 0 then 0
    else DigitsValue(s[..|s| - 1]) * 10 + (s[|s| - 1] as int - '0' as int)
  }

  /**
   * The label digits name n exactly, with no leading zero, so two different
   * numbers never print the same label.
   */
  lemma {:induction false} NatToStringRoundTrip(n: nat)
    ensures DigitsValue(NatToString(n)) == n
    ensures n >= 10 ==> NatToString(n)[0] != '0'
  {
    if n >= 10 {
      var s := NatToString(n / 10);
      NatToStringRoundTrip(n / 10);
      assert (s + [Digit(n % 10)])[..|s|] == s;
    }
  }

  /** Different numbers print different labels. */
  lemma NatToStringInjective(a: nat, b: nat)
    requires NatToString(a) == NatToString(b)
    ensures a == b
  {
    NatToStringRoundTrip(a);
    NatToStringRoundTrip(b);
  }
}
