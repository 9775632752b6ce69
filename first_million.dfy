/**
 * The first-million calculator: the monthly contribution that, together with
 * what is already invested, reaches 1,000,000 after the given number of years
 * at the given annual rate, compounded monthly.
 */
module FirstMillion {
  import opened Common
  import opened FinanceMath

  datatype MillionData = MillionData(initialInvestment: real, annualInterestRate: real, years: int)

  /** The form fields an error message can be attached to. */
  datatype MillionField = InitialInvestment | AnnualInterestRate | Years

  /** The fixed goal: one million currency units. */
  const Target: real := 1000000.0

  const NegativeInvestment: string := "O valor inicial não pode ser negativo"
  const TermTooShort: string := "O prazo deve ser de pelo menos 1 ano"

  /**
   * The inputs the calculation accepts. For them the monthly rate the payment
   * formula divides by is positive and the term is at least twelve months.
   */
  predicate Acceptable(d: MillionData): (ok: bool)
    ensures ok ==> d.annualInterestRate / 100.0 / 12.0 > 0.0 && d.years * 12 >= 12
  {
    d.initialInvestment >= 0.0 && RateInRange(d.annualInterestRate) && d.years >= 1
  }

  /**
   * All three checks run, none stops the others: every field that breaks its
   * rule gets exactly one message, and no other field gets one.
   */
  function Validate(d: MillionData): (errs: map<MillionField, string>)
    ensures InitialInvestment in errs <==> d.initialInvestment < 0.0
    ensures AnnualInterestRate in errs <==> !RateInRange(d.annualInterestRate)
    ensures Years in errs <==> d.years < 1
    ensures InitialInvestment in errs ==> errs[InitialInvestment] == NegativeInvestment
    ensures AnnualInterestRate in errs ==> Some(errs[AnnualInterestRate]) == RateError(d.annualInterestRate)
    ensures Years in errs ==> errs[Years] == TermTooShort
    ensures errs == map[] <==> Acceptable(d)
  {
    var afterInvestment: map<MillionField, string> :=
      if d.initialInvestment < 0.0 then map[InitialInvestment := NegativeInvestment] else map[];
    var afterRate :=
      match RateError(d.annualInterestRate)
      case Some(msg) => afterInvestment[AnnualInterestRate := msg]
      case None => afterInvestment;
    var errs := if d.years < 1 then afterRate[Years := TermTooShort] else afterRate;
    assert errs == map[] ==> InitialInvestment !in errs && AnnualInterestRate !in errs && Years !in errs;
    errs
  }

  /** The calculation stops exactly when at least one field has a message. */
  lemma ErrorGate(d: MillionData)
    ensures |Validate(d)| > 0 <==> !Acceptable(d)
  {
    if Validate(d) == map[] {
      assert |Validate(d)| == 0;
    }
  }

  /** The monthly rate r = rate / 100 / 12; positive for every accepted rate. */
  function MonthlyRate(ratePct: real): (r: real)
    requires RateInRange(ratePct)
    ensures r * 1200.0 == ratePct
    ensures r > 0.0
  {
    ratePct / 100.0 / 12.0
  }

  /** n = years * 12 months. */
  function Months(years: int): (n: nat)
    requires years >= 1
    ensures n >= 12
  {
    years * 12
  }

  /** (1+r)^n for the form's rate and term; above 1, so the payment formula never divides by zero. */
  function Growth(d: MillionData): (g: real)
    requires Acceptable(d)
    ensures g > 1.0
  {
    PowAboveOne(1.0 + MonthlyRate(d.annualInterestRate), Months(d.years));
    Pow(1.0 + MonthlyRate(d.annualInterestRate), Months(d.years))
  }

  /**
   * PMT = (FV - PV g) r / (g - 1) with g = (1+r)^n, before the clamp. It
   * closes the gap exactly: PV g plus the annuity term of PMT is the target,
   * and its sign is the sign of the gap FV - PV g.
   */
  function Payment(pv: real, r: real, g: real): (pmt: real)
    requires r > 0.0 && g > 1.0
    ensures pv * g + (pmt * (g - 1.0)) / r == Target
    ensures pmt < 0.0 <==> pv * g > Target
    ensures pmt == 0.0 <==> pv * g == Target
  {
    var gap := Target - pv * g;
    var pmt := (gap * r) / (g - 1.0);
    PaymentCancels(gap, r, g, pmt);
    QuotientSign(gap * r, g - 1.0);
    ProductSign(gap, r);
    pmt
  }

  /** If p = (x r) / (g - 1), then p (g - 1) / r = x: the two divisions cancel. */
  lemma PaymentCancels(x: real, r: real, g: real, p: real)
    requires r > 0.0 && g > 1.0
    requires p == (x * r) / (g - 1.0)
    ensures (p * (g - 1.0)) / r == x
  {
    assert p * (g - 1.0) == x * r;
    assert (x * r) / r == x;
  }

  lemma QuotientSign(a: real, b: real)
    requires b > 0.0
    ensures a / b < 0.0 <==> a < 0.0
    ensures a / b == 0.0 <==> a == 0.0
  {
    assert (a / b) * b == a;
  }

  lemma ProductSign(a: real, r: real)
    requires r > 0.0
    ensures a * r < 0.0 <==> a < 0.0
    ensures a * r == 0.0 <==> a == 0.0
  {
  }

  /** The unclamped payment for the form's data: it closes the annuity at the target. */
  function PaymentFor(d: MillionData): (pmt: real)
    requires Acceptable(d)
    ensures d.initialInvestment * Growth(d) + (pmt * (Growth(d) - 1.0)) / MonthlyRate(d.annualInterestRate) == Target
  {
    Payment(d.initialInvestment, MonthlyRate(d.annualInterestRate), Growth(d))
  }

  /**
   * Month by month: the initial investment plus n end-of-month payments of
   * PMT, each month's balance grown at r, ends exactly at the target.
   */
  lemma AnnuityClosure(d: MillionData)
    requires Acceptable(d)
    ensures Balance(d.initialInvestment, PaymentFor(d), MonthlyRate(d.annualInterestRate), Months(d.years)) == Target
  {
    var r := MonthlyRate(d.annualInterestRate);
    var g := Growth(d);
    var pmt := Payment(d.initialInvestment, r, g);
    assert pmt == PaymentFor(d);
    BalanceFromClosedForm(d.initialInvestment, pmt, r, Months(d.years), g, Target);
  }

  /**
   * The stored contribution: the payment, or 0 when the payment is negative
   * because the initial investment alone passes the target. It is never
   * negative, and it is 0 exactly when PV (1+r)^n reaches the target.
   */
  function RequiredContribution(d: MillionData): (amount: real)
    requires Acceptable(d)
    ensures amount >= 0.0
    ensures amount == 0.0 <==> d.initialInvestment * Growth(d) >= Target
    ensures amount > 0.0 ==> amount == PaymentFor(d)
  {
    var pmt := PaymentFor(d);
    if pmt < 0.0 then 0.0 else pmt
  }

  /** What the result panel explains: nothing yet, the goal already met, or the plan's totals. */
  datatype Explanation = NoExplanation | AlreadyReached | Plan(totalInvested: real, interestEarned: real)

  /**
   * The numbers behind the explanation text: with no amount there is no text;
   * an amount of exactly 0 selects the "already reached" text; otherwise the
   * total invested is PV + amount * years * 12 and the interest earned is what
   * remains up to the target.
   */
  function Explain(amount: Option<real>, d: MillionData): (e: Explanation)
    ensures e.NoExplanation? <==> amount.None?
    ensures e.AlreadyReached? <==> amount == Some(0.0)
    ensures e.Plan? ==> e.totalInvested + e.interestEarned == Target
  {
    match amount
    case None => NoExplanation
    case Some(a) =>
      if a == 0.0 then AlreadyReached
      else
        var totalInvested := d.initialInvestment + a * d.years as real * 12.0;
        Plan(totalInvested, Target - totalInvested)
  }

  /**
   * Explaining the amount computed from the same data: the "already reached"
   * text appears exactly when the initial investment alone reaches the target,
   * and otherwise the interest earned is positive, since n monthly payments
   * grow to more than n times the payment.
   */
  lemma ExplainComputedAmount(d: MillionData)
    requires Acceptable(d)
    ensures var e := Explain(Some(RequiredContribution(d)), d);
      && (e.AlreadyReached? <==> d.initialInvestment * Growth(d) >= Target)
      && (e.Plan? ==> e.interestEarned > 0.0)
      && (e.Plan? ==>
            e.totalInvested == d.initialInvestment + RequiredContribution(d) * Months(d.years) as real)
  {
    var amount := RequiredContribution(d);
    if amount != 0.0 {
      var r := MonthlyRate(d.annualInterestRate);
      var g := Growth(d);
      var n := Months(d.years);
      var pv := d.initialInvestment;
      Bernoulli(r, n);
      assert amount == PaymentFor(d) > 0.0;
      InterestPositive(pv, amount, r, g, n as real);
      WholeMonths(amount, d.years);
    }
  }

  /**
   * If PV g + a (g - 1) / r reaches the target and g > 1 + n r, then PV plus
   * n payments of a stays below the target: the payments earn interest.
   */
  lemma InterestPositive(pv: real, a: real, r: real, g: real, n: real)
    requires pv >= 0.0 && a > 0.0 && r > 0.0 && g > 1.0 + n * r && n >= 0.0
    requires pv * g + (a * (g - 1.0)) / r == Target
    ensures Target - (pv + a * n) > 0.0
  {
    var u := g - 1.0;
    var q := (a * u) / r;
    var an := a * n;
    assert q * r == a * u;
    ScaleStrict(a, n * r, u);
    assert a * (n * r) == an * r;
    CancelRate(q, an, r);
    var pg := pv * g;
    assert n * r >= 0.0;
    ScaleMonotone(pv, 1.0, g);
    assert pg >= pv;
    assert pg + q == Target;
    assert Target - (pv + an) > 0.0;
  }

  lemma CancelRate(x: real, y: real, r: real)
    requires r > 0.0 && x * r > y * r
    ensures x > y
  {
  }

  /** amount * years * 12 is the amount times the month count. */
  lemma WholeMonths(a: real, years: int)
    requires years >= 1
    ensures a * years as real * 12.0 == a * Months(years) as real
  {
  }

  /** A cleared field reads as 0: rate and term are then rejected, the initial investment is not. */
  lemma BlankFieldsValidation(d: MillionData)
    ensures AnnualInterestRate in Validate(d.(annualInterestRate := ReadNumber(Blank)))
    ensures Years in Validate(d.(years := ReadNumber(Blank).Floor))
    ensures InitialInvestment !in Validate(d.(initialInvestment := ReadNumber(Blank)))
  {
  }

  /** The validation: each of the three checks adds its field's message, independently of the others. */
  method CollectErrors(d: MillionData) returns (errs: map<MillionField, string>)
    ensures errs == Validate(d)
  {
    errs := map[];
    if d.initialInvestment < 0.0 {
      errs := errs[InitialInvestment := NegativeInvestment];
    }
    if d.annualInterestRate < 0.1 {
      errs := errs[AnnualInterestRate := RateTooLow];
    } else if d.annualInterestRate > 100.0 {
      errs := errs[AnnualInterestRate := RateTooHigh];
    }
    if d.years < 1 {
      errs := errs[Years := TermTooShort];
    }
  }

  /** The component's state: the form data, the stored monthly amount and the field errors. */
  class FirstMillionCalculator {
    var data: MillionData
    var monthlyAmount: Option<real>
    var errors: map<MillionField, string>

    /** A stored monthly amount is never negative. */
    ghost predicate Valid()
      reads this
    {
      monthlyAmount.Some? ==> monthlyAmount.value >= 0.0
    }

    constructor ()
      ensures Valid()
      ensures data == MillionData(0.0, 10.0, 20)
      ensures monthlyAmount == None && errors == map[]
    {
      data := MillionData(0.0, 10.0, 20);
      monthlyAmount := None;
      errors := map[];
    }

    /**
     * Validate every field; on any error replace only the errors. Otherwise
     * store the clamped payment and clear the errors.
     */
    method CalculateMonthlyAmount(current: MillionData)
      requires Valid()
      modifies this`monthlyAmount, this`errors
      ensures Valid()
      ensures !Acceptable(current) ==>
        errors == Validate(current) && monthlyAmount == old(monthlyAmount)
      ensures Acceptable(current) ==>
        errors == map[] && monthlyAmount == Some(RequiredContribution(current))
    {
      var errs := CollectErrors(current);
      if |errs| > 0 {
        errors := errs;
        return;
      }

      var pv := current.initialInvestment;
      var n := current.years * 12;
      var r := current.annualInterestRate / 100.0 / 12.0;
      var growth := Pow(1.0 + r, n);
      assert growth == Growth(current);
      var pmt := Payment(pv, r, growth);
      monthlyAmount := Some(if pmt < 0.0 then 0.0 else pmt);
      errors := map[];
    }

    /**
     * A numeric field's change handler: an empty field is stored as 0. The
     * years field only takes whole numbers.
     */
    method HandleInputChange(id: MillionField, raw: Entry)
      requires id == Years ==> IsWhole(ReadNumber(raw))
      modifies this`data
      ensures id == InitialInvestment ==> data == old(data).(initialInvestment := ReadNumber(raw))
      ensures id == AnnualInterestRate ==> data == old(data).(annualInterestRate := ReadNumber(raw))
      ensures id == Years ==> data == old(data).(years := ReadNumber(raw).Floor)
    {
      var numValue := if raw.Blank? then 0.0 else raw.value;
      match id
      case InitialInvestment => data := data.(initialInvestment := numValue);
      case AnnualInterestRate => data := data.(annualInterestRate := numValue);
      case Years => data := data.(years := numValue.Floor);
    }

    /** The calculate button: calculate from the current form data. */
    method HandleCalculate()
      requires Valid()
      modifies this`monthlyAmount, this`errors
      ensures Valid()
      ensures !Acceptable(data) ==> errors == Validate(data) && monthlyAmount == old(monthlyAmount)
      ensures Acceptable(data) ==> errors == map[] && monthlyAmount == Some(RequiredContribution(data))
    {
      CalculateMonthlyAmount(data);
    }

    /**
     * The numbers behind the explanation shown for the current state: none
     * before a calculation, "already reached" for a stored 0, and otherwise a
     * split of the target into what was paid in and the interest.
     */
    function GetExplanation(): (e: Explanation)
      reads this
      ensures e.NoExplanation? <==> monthlyAmount.None?
      ensures e.AlreadyReached? <==> monthlyAmount == Some(0.0)
      ensures e.Plan? ==> e.totalInvested + e.interestEarned == Target
      ensures e.Plan? ==>
        e.totalInvested == data.initialInvestment + monthlyAmount.value * data.years as real * 12.0
    {
      Explain(monthlyAmount, data)
    }
  }
}
