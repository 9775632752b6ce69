/**
 * The compound-interest calculator: an initial capital and an optional fixed
 * monthly contribution, grown over a term given in years or in months, with
 * the final amount, the interest gained and a sampled series of balances for
 * the chart. The rate is always a yearly percentage i; the capitalization
 * only chooses how it becomes a monthly rate: (1 + i)^(1/12) - 1 when
 * yearly, and i / 12 when monthly.
 */
module CompoundInterest {
  import opened Common
  import opened FinanceMath

  datatype TimeUnit = Anos | Meses

  datatype Capitalization = Mensal | Anual

  datatype CompoundInterestData = CompoundInterestData(
    initialCapital: real,
    interestRate: real,
    time: int,
    timeUnit: TimeUnit,
    monthlyInvestment: real,
    capitalization: Capitalization)

  /** The form fields an error message can be attached to. */
  datatype CIField = InitialCapital | InterestRate | Time | MonthlyInvestment

  datatype CompoundResult = CompoundResult(finalAmount: real, interestGained: real)

  /** One point of the chart: its label and the balance rounded to cents. */
  datatype ChartPoint = ChartPoint(period: string, amount: real)

  const CapitalNotPositive: string := "O capital inicial deve ser maior que zero"
  const TimeTooShort: string := "O tempo deve ser pelo menos 1"
  const NegativeValue: string := "O valor não pode ser negativo"

  /**
   * The inputs the calculation accepts. The monthly rate is then positive in
   * both capitalization modes: rate / 1200 directly, and a yearly factor above
   * one to take the twelfth root of.
   */
  predicate Acceptable(d: CompoundInterestData): (ok: bool)
    ensures ok ==> d.interestRate / 100.0 / 12.0 > 0.0 && 1.0 + d.interestRate / 100.0 > 1.0
  {
    && d.initialCapital > 0.0
    && RateInRange(d.interestRate)
    && d.time >= 1
    && d.monthlyInvestment >= 0.0
  }

  /**
   * All four checks run, none stops the others: every field that breaks its
   * rule gets exactly one message, and no other field gets one.
   */
  function Validate(d: CompoundInterestData): (errs: map<CIField, string>)
    ensures InitialCapital in errs <==> d.initialCapital <= 0.0
    ensures InterestRate in errs <==> !RateInRange(d.interestRate)
    ensures Time in errs <==> d.time < 1
    ensures MonthlyInvestment in errs <==> d.monthlyInvestment < 0.0
    ensures InitialCapital in errs ==> errs[InitialCapital] == CapitalNotPositive
    ensures InterestRate in errs ==> Some(errs[InterestRate]) == RateError(d.interestRate)
    ensures Time in errs ==> errs[Time] == TimeTooShort
    ensures MonthlyInvestment in errs ==> errs[MonthlyInvestment] == NegativeValue
    ensures errs == map[] <==> Acceptable(d)
  {
    var afterCapital: map<CIField, string> :=
      if d.initialCapital <= 0.0 then map[InitialCapital := CapitalNotPositive] else map[];
    var afterRate :=
      match RateError(d.interestRate)
      case Some(msg) => afterCapital[InterestRate := msg]
      case None => afterCapital;
    var afterTime := if d.time < 1 then afterRate[Time := TimeTooShort] else afterRate;
    var errs := if d.monthlyInvestment < 0.0 then afterTime[MonthlyInvestment := NegativeValue] else afterTime;
    assert errs == map[] ==>
      InitialCapital !in errs && InterestRate !in errs && Time !in errs && MonthlyInvestment !in errs;
    errs
  }

  /** The calculation stops at the error check exactly when the form is not acceptable. */
  lemma ErrorGate(d: CompoundInterestData)
    ensures |Validate(d)| > 0 <==> !Acceptable(d)
  {
    if Validate(d) == map[] {
      assert |Validate(d)| == 0;
    }
  }

  /**
   * `Math.pow(1 + i, 1/12)` is a real twelfth root, which the model takes as
   * a given value: for accepted data with yearly capitalization it must be the
   * positive number whose twelfth power is 1 + rate / 100.
   */
  predicate RootFor(d: CompoundInterestData, root: real)
  {
    Acceptable(d) && d.capitalization == Anual ==>
      root > 0.0 && Pow(root, 12) == 1.0 + d.interestRate / 100.0
  }

  /** A positive twelfth root of a number above one is itself above one. */
  lemma RootAboveOne(root: real, x: real)
    requires root > 0.0 && Pow(root, 12) == x && x > 1.0
    ensures root > 1.0
  {
    if root <= 1.0 {
      PowAtMostOne(root, 12);
    }
  }

  /**
   * The monthly rate: rate / 100 / 12 with monthly capitalization, and the
   * twelfth root of 1 + rate / 100, minus one, with yearly capitalization, so
   * that twelve months at it compound to exactly the yearly rate. Positive
   * for every accepted rate.
   */
  function MonthlyRate(d: CompoundInterestData, root: real): (r: real)
    requires Acceptable(d) && RootFor(d, root)
    ensures r > 0.0
    ensures d.capitalization == Mensal ==> r * 1200.0 == d.interestRate
    ensures d.capitalization == Anual ==> Pow(1.0 + r, 12) == 1.0 + d.interestRate / 100.0
  {
    match d.capitalization
    case Anual =>
      RootAboveOne(root, 1.0 + d.interestRate / 100.0);
      assert 1.0 + (root - 1.0) == root;
      root - 1.0
    case Mensal => d.interestRate / 100.0 / 12.0
  }

  /** The term in months: twelve per year in years mode, the term itself in months mode. */
  function Periods(d: CompoundInterestData): (n: nat)
    requires d.time >= 1
    ensures n >= 1
    ensures d.timeUnit == Anos ==> n == 12 * d.time
    ensures d.timeUnit == Meses ==> n == d.time
  {
    match d.timeUnit
    case Anos => d.time * 12
    case Meses => d.time
  }

  /**
   * The amount after n months: C (1+r)^n, plus M ((1+r)^n - 1) / r only when
   * M > 0. For every non-negative contribution it is the month-by-month
   * balance: grow by r, then deposit M, n times over.
   */
  function Projection(c: real, m: real, r: real, n: nat): (v: real)
    requires r > 0.0
    ensures m >= 0.0 ==> v == Balance(c, m, r, n)
  {
    var g := Pow(1.0 + r, n);
    var v := c * g + (if m > 0.0 then (m * (g - 1.0)) / r else 0.0);
    if m >= 0.0 then
      assert (m * (g - 1.0)) / r == (if m > 0.0 then (m * (g - 1.0)) / r else 0.0);
      BalanceFromClosedForm(c, m, r, n, g, v);
      v
    else v
  }

  /** Projection for a given growth factor g = (1+r)^n. */
  lemma ProjectionAt(c: real, m: real, r: real, n: nat, g: real)
    requires r > 0.0 && g == Pow(1.0 + r, n)
    ensures Projection(c, m, r, n) == c * g + (if m > 0.0 then (m * (g - 1.0)) / r else 0.0)
  {
  }

  /**
   * The result panel: the amount after the whole term, and the interest, which
   * is that amount less the capital and every contribution. Both describe the
   * month-by-month balance, and the interest is always positive.
   */
  function Project(d: CompoundInterestData, root: real): (res: CompoundResult)
    requires Acceptable(d) && RootFor(d, root)
    ensures res.finalAmount == Balance(d.initialCapital, d.monthlyInvestment, MonthlyRate(d, root), Periods(d))
    ensures res.finalAmount == d.initialCapital + d.monthlyInvestment * Periods(d) as real + res.interestGained
    ensures res.interestGained > 0.0
  {
    var c := d.initialCapital;
    var m := d.monthlyInvestment;
    var r := MonthlyRate(d, root);
    var n := Periods(d);
    var finalAmount := Projection(c, m, r, n);
    BalanceAboveDeposits(c, m, r, n);
    CompoundResult(finalAmount, finalAmount - c - m * n as real)
  }

  /** Project is the closed-form projection at the monthly rate over the term. */
  lemma ProjectUnfolds(d: CompoundInterestData, root: real)
    requires Acceptable(d) && RootFor(d, root)
    ensures var c, m, n := d.initialCapital, d.monthlyInvestment, Periods(d);
      var v := Projection(c, m, MonthlyRate(d, root), n);
      Project(d, root) == CompoundResult(v, v - c - m * n as real)
  {
  }

  /** A chart label is the prefix followed by the decimal digits of n. */
  predicate LabelNames(text: string, prefix: string, n: nat)
  {
    && |prefix| < |text|
    && text[..|prefix|] == prefix
    && var digits := text[|prefix|..];
       && (forall i :: 0 <= i < |digits| ==> '0' <= digits[i] <= '9')
       && DigitsValue(digits) == n
  }

  /**
   * A chart point: its label names `index` after the prefix, and its amount
   * is the month-by-month balance after `months`, rounded to cents.
   */
  function PointAt(prefix: string, index: nat, c: real, m: real, r: real, months: nat): (p: ChartPoint)
    requires r > 0.0
    ensures LabelNames(p.period, prefix, index)
    ensures m >= 0.0 ==> p.amount == Round2(Balance(c, m, r, months))
  {
    var digits := NatToString(index);
    NatToStringRoundTrip(index);
    assert (prefix + digits)[..|prefix|] == prefix;
    assert (prefix + digits)[|prefix|..] == digits;
    ChartPoint(prefix + digits, Round2(Projection(c, m, r, months)))
  }

  /** Years mode: one point per year, "Ano 0" to "Ano t", at 12k months. */
  function YearSeries(c: real, m: real, r: real, t: nat): (s: seq<ChartPoint>)
    requires r > 0.0
    ensures |s| == t + 1
    ensures m >= 0.0 ==> forall k :: 0 <= k <= t ==> s[k].amount == Round2(Balance(c, m, r, 12 * k))
  {
    seq(t + 1, k requires 0 <= k <= t => PointAt("Ano ", k, c, m, r, 12 * k))
  }

  /** The months-mode stride `Math.max(1, Math.floor(t / 12))`. */
  function SampleInterval(t: nat): (iv: nat)
    ensures iv >= 1
    ensures t < 24 ==> iv == 1
    ensures t >= 12 ==> 12 * iv <= t < 12 * iv + 12
  {
    if t / 12 > 1 then t / 12 else 1
  }

  /**
   * The months the months-mode loop visits: it starts at 0, each month is the
   * previous one plus the stride, and it stops at the last one not past t.
   */
  function SampledMonths(t: nat): (s: seq<nat>)
    ensures |s| >= 1 && s[0] == 0
    ensures forall j :: 0 < j < |s| ==> s[j] == s[j - 1] + SampleInterval(t)
    ensures s[|s| - 1] <= t < s[|s| - 1] + SampleInterval(t)
  {
    var iv := SampleInterval(t);
    var last := t / iv;
    var s := seq(last + 1, k requires 0 <= k <= last => k * iv);
    StrideSteps(s, iv);
    MultipleBound(last, iv, t);
    MultipleBound(last + 1, iv, t);
    MulSucc(last, iv);
    assert s[|s| - 1] == last * iv;
    s
  }

  /** Consecutive multiples of the stride differ by the stride. */
  lemma StrideSteps(s: seq<nat>, iv: nat)
    requires forall k :: 0 <= k < |s| ==> s[k] == k * iv
    ensures forall j :: 0 < j < |s| ==> s[j] == s[j - 1] + iv
  {
    forall j | 0 < j < |s|
      ensures s[j] == s[j - 1] + iv
    {
      MulSucc(j - 1, iv);
    }
  }

  /** Months mode: one point per sampled month, labelled "Mês " and the month. */
  function MonthSeries(c: real, m: real, r: real, t: nat): (s: seq<ChartPoint>)
    requires r > 0.0
    ensures |s| == |SampledMonths(t)|
    ensures m >= 0.0 ==> forall j :: 0 <= j < |s| ==> s[j].amount == Round2(Balance(c, m, r, SampledMonths(t)[j]))
  {
    var months := SampledMonths(t);
    seq(|months|, j requires 0 <= j < |months| => PointAt("Mês ", months[j], c, m, r, months[j]))
  }

  /**
   * The chart series for the form's term unit: t + 1 yearly points, or one
   * point per sampled month; it always starts at the capital.
   */
  function Series(d: CompoundInterestData, root: real): (s: seq<ChartPoint>)
    requires Acceptable(d) && RootFor(d, root)
    ensures |s| >= 1
    ensures d.timeUnit == Anos ==> |s| == d.time + 1
    ensures d.timeUnit == Meses ==> |s| == |SampledMonths(d.time)|
    ensures s[0].amount == Round2(d.initialCapital)
  {
    var r := MonthlyRate(d, root);
    match d.timeUnit
    case Anos => YearSeries(d.initialCapital, d.monthlyInvestment, r, d.time)
    case Meses => MonthSeries(d.initialCapital, d.monthlyInvestment, r, d.time)
  }

  lemma MulMonotone(a: nat, b: nat, c: nat)
    requires a <= b
    ensures a * c <= b * c
  {
  }

  lemma MulStrict(a: nat, b: nat, c: nat)
    requires a < b && c >= 1
    ensures a * c < b * c
  {
  }

  lemma MulSucc(a: nat, c: nat)
    ensures (a + 1) * c == a * c + c
  {
  }

  lemma QuotientTimesDivisor(t: nat, iv: nat)
    requires iv >= 1
    ensures (t / iv) * iv == t - t % iv
  {
  }

  /** k iv stays within t exactly when k stays within t / iv. */
  lemma MultipleBound(k: nat, iv: nat, t: nat)
    requires iv >= 1
    ensures k * iv <= t <==> k <= t / iv
  {
    var q := t / iv;
    assert q * iv <= t < q * iv + iv;
    if k <= q {
      MulMonotone(k, q, iv);
    } else {
      MulMonotone(q + 1, k, iv);
      assert (q + 1) * iv == q * iv + iv;
    }
  }

  /** A multiple of iv leaves no remainder. */
  lemma MultipleMod(k: nat, iv: nat)
    requires iv >= 1
    ensures (k * iv) % iv == 0 && (k * iv) / iv == k
  {
    var x := k * iv;
    var q := x / iv;
    var rem := x % iv;
    assert x == q * iv + rem && 0 <= rem < iv;
    if q < k {
      MulMonotone(q + 1, k, iv);
    } else if k < q {
      MulMonotone(k + 1, q, iv);
    }
  }

  /**
   * The sampled months start at 0, are the multiples of the stride, strictly
   * increase and never pass t; there are t / iv + 1 of them.
   */
  lemma SampledMonthsShape(t: nat)
    ensures var s, iv := SampledMonths(t), SampleInterval(t);
      && |s| == t / iv + 1
      && s[0] == 0
      && (forall j :: 0 <= j < |s| ==> s[j] == j * iv && s[j] <= t)
      && (forall i, j :: 0 <= i < j < |s| ==> s[i] < s[j])
  {
    var s, iv := SampledMonths(t), SampleInterval(t);
    forall j | 0 <= j < |s|
      ensures s[j] <= t
    {
      MultipleBound(j, iv, t);
    }
    forall i, j | 0 <= i < j < |s|
      ensures s[i] < s[j]
    {
      MulStrict(i, j, iv);
    }
  }

  /** A month is sampled exactly when it is a multiple of the stride no later than t. */
  lemma SampledMonthsMembers(t: nat, month: nat)
    ensures month in SampledMonths(t) <==> month <= t && month % SampleInterval(t) == 0
  {
    var s, iv := SampledMonths(t), SampleInterval(t);
    if month in s {
      var j :| 0 <= j < |s| && s[j] == month;
      MultipleBound(j, iv, t);
      MultipleMod(j, iv);
    }
    if month <= t && month % iv == 0 {
      var k := month / iv;
      assert k * iv == month;
      MultipleBound(k, iv, t);
      assert s[k] == month;
    }
  }

  /** The last month of the term appears on the chart only when the stride divides it. */
  lemma TermSampledIff(t: nat)
    ensures t in SampledMonths(t) <==> t % SampleInterval(t) == 0
  {
    SampledMonthsMembers(t, t);
  }

  /**
   * How many points months mode draws: t + 1 below a year, and between 13
   * and 24 from a year on.
   */
  lemma SampleCountBounds(t: nat)
    ensures t < 12 ==> |SampledMonths(t)| == t + 1
    ensures t >= 12 ==> 13 <= |SampledMonths(t)| <= 24
  {
    var iv := SampleInterval(t);
    if t >= 12 {
      MultipleBound(12, iv, t);
      MultipleBound(24, iv, t);
    }
  }

  /** Twenty-three months give a stride of 1 and twenty-four points, not at most twelve. */
  lemma TwentyThreeMonths()
    ensures SampleInterval(23) == 1
    ensures |SampledMonths(23)| == 24
  {
  }

  /** Years mode labels point k "Ano k", so the labels count the years 0 to t. */
  lemma YearSeriesLabels(c: real, m: real, r: real, t: nat)
    requires r > 0.0
    ensures var s := YearSeries(c, m, r, t);
      forall k :: 0 <= k <= t ==> LabelNames(s[k].period, "Ano ", k)
  {
  }

  /** Months mode labels each point "Mês " and the sampled month it shows. */
  lemma MonthSeriesLabels(c: real, m: real, r: real, t: nat)
    requires r > 0.0
    ensures var s, months := MonthSeries(c, m, r, t), SampledMonths(t);
      forall j :: 0 <= j < |s| ==> LabelNames(s[j].period, "Mês ", months[j])
  {
  }

  /** Years mode starts at the capital and ends at the balance after the whole term. */
  lemma YearSeriesEnds(c: real, m: real, r: real, t: nat)
    requires r > 0.0 && m >= 0.0
    ensures var s := YearSeries(c, m, r, t);
      s[0].amount == Round2(c) && s[t].amount == Round2(Balance(c, m, r, 12 * t))
  {
  }

  /**
   * Months mode starts at the capital and ends at the last multiple of the
   * stride, t - t % iv: the whole term only when the stride divides it.
   */
  lemma MonthSeriesEnds(c: real, m: real, r: real, t: nat)
    requires r > 0.0 && m >= 0.0
    ensures var s, iv := MonthSeries(c, m, r, t), SampleInterval(t);
      && |s| >= 1
      && s[0].amount == Round2(c)
      && s[|s| - 1].amount == Round2(Balance(c, m, r, t - t % iv))
  {
    var iv := SampleInterval(t);
    var s, months := MonthSeries(c, m, r, t), SampledMonths(t);
    var last := t / iv;
    assert |s| == last + 1;
    assert s[0].amount == Round2(Balance(c, m, r, months[0]));
    QuotientTimesDivisor(t, iv);
    assert months[last] == t - t % iv;
    assert s[last].amount == Round2(Balance(c, m, r, months[last]));
  }

  /**
   * The chart's last point shows the result panel's final amount, rounded to
   * cents, in years mode and in months mode when the stride divides the term.
   */
  lemma SeriesEndsAtFinalAmount(d: CompoundInterestData, root: real)
    requires Acceptable(d) && RootFor(d, root)
    requires d.timeUnit == Anos || d.time % SampleInterval(d.time) == 0
    ensures var s := Series(d, root);
      s[|s| - 1].amount == Round2(Project(d, root).finalAmount)
  {
    var r, t := MonthlyRate(d, root), d.time;
    var c, m := d.initialCapital, d.monthlyInvestment;
    var s, final := Series(d, root), Project(d, root).finalAmount;
    assert final == Balance(c, m, r, Periods(d));
    match d.timeUnit
    case Anos =>
      YearSeriesEnds(c, m, r, t);
      assert s == YearSeries(c, m, r, t) && Periods(d) == 12 * t;
    case Meses =>
      MonthSeriesEnds(c, m, r, t);
      assert s == MonthSeries(c, m, r, t) && Periods(d) == t - t % SampleInterval(t);
  }

  /**
   * With an accepted form the chart never goes down: the balance grows every
   * month, and rounding to cents keeps the order.
   */
  lemma SeriesNondecreasing(d: CompoundInterestData, root: real)
    requires Acceptable(d) && RootFor(d, root)
    ensures var s := Series(d, root);
      forall i, j :: 0 <= i <= j < |s| ==> s[i].amount <= s[j].amount
  {
    var r := MonthlyRate(d, root);
    var t: nat := d.time;
    var c, m := d.initialCapital, d.monthlyInvestment;
    var s := Series(d, root);
    match d.timeUnit
    case Anos =>
      forall i, j | 0 <= i <= j < |s|
        ensures s[i].amount <= s[j].amount
      {
        if i < j {
          BalanceIncreasing(c, m, r, 12 * i, 12 * j);
          Round2Monotone(Balance(c, m, r, 12 * i), Balance(c, m, r, 12 * j));
        }
      }
    case Meses =>
      SampledMonthsShape(t);
      var months := SampledMonths(t);
      forall i, j | 0 <= i <= j < |s|
        ensures s[i].amount <= s[j].amount
      {
        if i < j {
          BalanceIncreasing(c, m, r, months[i], months[j]);
          Round2Monotone(Balance(c, m, r, months[i]), Balance(c, m, r, months[j]));
        }
      }
  }

  /** A cleared field reads as 0: capital and term are then rejected, rate 0 too; a contribution of 0 is not. */
  lemma BlankFieldsValidation(d: CompoundInterestData)
    ensures InitialCapital in Validate(d.(initialCapital := ReadNumber(Blank)))
    ensures InterestRate in Validate(d.(interestRate := ReadNumber(Blank)))
    ensures Time in Validate(d.(time := ReadNumber(Blank).Floor))
    ensures MonthlyInvestment !in Validate(d.(monthlyInvestment := ReadNumber(Blank)))
  {
  }

  /** The years-mode loop: for year from 0 to t, push the rounded balance after 12 year months. */
  method BuildYearSeries(c: real, m: real, r: real, t: nat) returns (points: seq<ChartPoint>)
    requires r > 0.0
    ensures points == YearSeries(c, m, r, t)
  {
    points := [];
    var year := 0;
    while year <= t
      invariant 0 <= year <= t + 1
      invariant points == YearSeries(c, m, r, t)[..year]
    {
      var monthsElapsed := year * 12;
      var g := Pow(1.0 + r, monthsElapsed);
      var amount := c * g;
      if m > 0.0 {
        amount := amount + (m * (g - 1.0)) / r;
      }
      ProjectionAt(c, m, r, monthsElapsed, g);
      points := points + [ChartPoint("Ano " + NatToString(year), Round2(amount))];
      year := year + 1;
    }
  }

  /** The months-mode loop: from month 0, step by the stride while not past t. */
  method BuildMonthSeries(c: real, m: real, r: real, t: nat) returns (points: seq<ChartPoint>)
    requires r > 0.0
    ensures points == MonthSeries(c, m, r, t)
  {
    var interval := if 1 < t / 12 then t / 12 else 1;
    assert interval == SampleInterval(t);
    ghost var months := SampledMonths(t);
    ghost var target := MonthSeries(c, m, r, t);
    points := [];
    var month := 0;
    while month <= t
      invariant month == |points| * interval
      invariant |points| <= |months|
      invariant points == target[..|points|]
      decreases t + 1 - month
    {
      MultipleBound(|points|, interval, t);
      var g := Pow(1.0 + r, month);
      var amount := c * g;
      if m > 0.0 {
        amount := amount + (m * (g - 1.0)) / r;
      }
      ProjectionAt(c, m, r, month, g);
      MonthPointAt(c, m, r, t, |points|);
      MulSucc(|points|, interval);
      points := points + [ChartPoint("Mês " + NatToString(month), Round2(amount))];
      month := month + interval;
    }
    MultipleBound(|points|, interval, t);
  }

  /** Point k of months mode is the point for month k iv. */
  lemma MonthPointAt(c: real, m: real, r: real, t: nat, k: nat)
    requires r > 0.0 && k <= t / SampleInterval(t)
    ensures var month := k * SampleInterval(t);
      && k < |MonthSeries(c, m, r, t)|
      && MonthSeries(c, m, r, t)[k] == ChartPoint("Mês " + NatToString(month), Round2(Projection(c, m, r, month)))
  {
    var months := SampledMonths(t);
    assert months[k] == k * SampleInterval(t);
  }

  /** The validation: each of the four checks adds its field's message, independently of the others. */
  method CollectErrors(d: CompoundInterestData) returns (newErrors: map<CIField, string>)
    ensures newErrors == Validate(d)
  {
    newErrors := map[];
    if d.initialCapital <= 0.0 {
      newErrors := newErrors[InitialCapital := CapitalNotPositive];
    }
    if d.interestRate < 0.1 {
      newErrors := newErrors[InterestRate := RateTooLow];
    } else if d.interestRate > 100.0 {
      newErrors := newErrors[InterestRate := RateTooHigh];
    }
    if d.time < 1 {
      newErrors := newErrors[Time := TimeTooShort];
    }
    if d.monthlyInvestment < 0.0 {
      newErrors := newErrors[MonthlyInvestment := NegativeValue];
    }
  }

  /**
   * The calculation proper: normalise to a monthly rate and a month count,
   * then compute the final amount and the interest gained.
   */
  method ComputeResult(d: CompoundInterestData, twelfthRoot: real)
    returns (res: CompoundResult, monthlyRate: real, periods: nat)
    requires Acceptable(d) && RootFor(d, twelfthRoot)
    ensures res == Project(d, twelfthRoot)
    ensures monthlyRate == MonthlyRate(d, twelfthRoot) && periods == Periods(d)
  {
    var c := d.initialCapital;
    var i := d.interestRate / 100.0;
    var t: nat := d.time;
    var m := d.monthlyInvestment;

    if d.capitalization == Anual {
      monthlyRate := twelfthRoot - 1.0;
    } else {
      monthlyRate := i / 12.0;
    }
    if d.timeUnit == Anos {
      periods := t * 12;
    } else {
      periods := t;
    }
    assert monthlyRate == MonthlyRate(d, twelfthRoot);

    var g := Pow(1.0 + monthlyRate, periods);
    var finalAmount := c * g;
    if m > 0.0 {
      finalAmount := finalAmount + (m * (g - 1.0)) / monthlyRate;
    }
    ProjectionAt(c, m, monthlyRate, periods, g);
    var interestGained := finalAmount - c - m * periods as real;
    ProjectUnfolds(d, twelfthRoot);
    res := CompoundResult(finalAmount, interestGained);
  }

  /** The component's state: the form data, the result panel, the chart, the field errors and whether results show. */
  class CompoundInterestCalculator {
    var data: CompoundInterestData
    var result: Option<CompoundResult>
    var chartData: seq<ChartPoint>
    var errors: map<CIField, string>
    var showResults: bool

    /** Results show exactly when there is a result, whose interest is positive and which comes with a chart. */
    ghost predicate Valid()
      reads this
    {
      && (showResults <==> result.Some?)
      && (result.Some? ==> result.value.interestGained > 0.0 && |chartData| >= 1)
    }

    constructor ()
      ensures Valid()
      ensures data == CompoundInterestData(1000.0, 10.0, 5, Anos, 0.0, Anual)
      ensures result == None && chartData == [] && errors == map[] && !showResults
    {
      data := CompoundInterestData(1000.0, 10.0, 5, Anos, 0.0, Anual);
      result := None;
      chartData := [];
      errors := map[];
      showResults := false;
    }

    /**
     * Validate every field; on any error replace only the errors. Otherwise
     * store the result, the freshly built chart, clear the errors and show
     * the results.
     */
    method CalculateCompoundInterest(twelfthRoot: real)
      requires Valid() && RootFor(data, twelfthRoot)
      modifies this`result, this`chartData, this`errors, this`showResults
      ensures Valid()
      ensures !Acceptable(data) ==>
        && errors == Validate(data)
        && result == old(result) && chartData == old(chartData) && showResults == old(showResults)
      ensures Acceptable(data) ==>
        && result == Some(Project(data, twelfthRoot))
        && chartData == Series(data, twelfthRoot)
        && errors == map[] && showResults
    {
      var newErrors := CollectErrors(data);
      if |newErrors| > 0 {
        errors := newErrors;
        return;
      }
      var res, monthlyRate, _ := ComputeResult(data, twelfthRoot);
      result := Some(res);

      var newChartData: seq<ChartPoint>;
      if data.timeUnit == Anos {
        newChartData := BuildYearSeries(data.initialCapital, data.monthlyInvestment, monthlyRate, data.time);
      } else {
        newChartData := BuildMonthSeries(data.initialCapital, data.monthlyInvestment, monthlyRate, data.time);
      }
      chartData := newChartData;
      errors := map[];
      showResults := true;
    }

    /**
     * A numeric field's change handler: an empty field is stored as 0. The
     * term field only takes whole numbers.
     */
    method HandleInputChange(id: CIField, raw: Entry)
      requires id == Time ==> IsWhole(ReadNumber(raw))
      modifies this`data
      ensures id == InitialCapital ==> data == old(data).(initialCapital := ReadNumber(raw))
      ensures id == InterestRate ==> data == old(data).(interestRate := ReadNumber(raw))
      ensures id == Time ==> data == old(data).(time := ReadNumber(raw).Floor)
      ensures id == MonthlyInvestment ==> data == old(data).(monthlyInvestment := ReadNumber(raw))
    {
      var numValue := if raw.Blank? then 0.0 else raw.value;
      match id
      case InitialCapital => data := data.(initialCapital := numValue);
      case InterestRate => data := data.(interestRate := numValue);
      case Time => data := data.(time := numValue.Floor);
      case MonthlyInvestment => data := data.(monthlyInvestment := numValue);
    }

    /** The calculate button: calculate from the current form data. */
    method HandleCalculate(twelfthRoot: real)
      requires Valid() && RootFor(data, twelfthRoot)
      modifies this`result, this`chartData, this`errors, this`showResults
      ensures Valid()
      ensures !Acceptable(data) ==>
        && errors == Validate(data)
        && result == old(result) && chartData == old(chartData) && showResults == old(showResults)
      ensures Acceptable(data) ==>
        && result == Some(Project(data, twelfthRoot))
        && chartData == Series(data, twelfthRoot)
        && errors == map[] && showResults
    {
      CalculateCompoundInterest(twelfthRoot);
    }
  }
}
