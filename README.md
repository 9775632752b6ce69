# Personal-finance calculators, modelled in Dafny

The repository is a small web application with three calculators. Each is a
React component, and each holds one calculation routine:

- **Emergency fund** (`calculateEmergencyFund`). The reserve is the monthly
  fixed expenses times 3, 6 or 12 months, depending on the employment
  profile: public servant, CLT employee or self-employed. Expenses that are
  not positive set the message "Informe um valor válido".
- **First million** (`calculateMonthlyAmount`, `getExplanation`). This is the
  monthly contribution that takes an initial investment to 1,000,000 over
  `years` years at `rate / 100 / 12` a month. It is the ordinary-annuity
  payment `PMT = (FV - PV(1+r)^n) r / ((1+r)^n - 1)`, with a negative result
  clamped to 0. The explanation splits the million into what was paid in
  and the interest.
- **Compound interest** (`calculateCompoundInterest`). An initial capital and
  an optional monthly contribution grow for a term given in years or in
  months. The rate is a yearly percentage i. With yearly capitalization the
  monthly rate is `(1 + i)^(1/12) - 1`, and with monthly capitalization it is
  `i / 12`. The routine reports the final
  amount, the interest gained and a chart series, with one point per year,
  or one point every `max(1, floor(t / 12))` months.

The model has five modules:

- `Common`: the optional state values, the blank-or-number text of an input
  field, and the rate range check the two rate fields share.
- `FinanceMath`: integer powers over the reals, and the month-by-month
  balance (grow by `r`, then deposit `m`) as the reference definition. It
  proves the closed form `C(1+r)^n + M((1+r)^n - 1)/r` equals that balance.
  It also holds Bernoulli's inequality, the two-decimal rounding of
  `Number(x.toFixed(2))`, and decimal labels.
- `EmergencyFund`, `FirstMillion`, `CompoundInterest`: one module per
  component. Each has the pure formulas as functions with lemmas, and a
  class whose fields are the component's state (`data`, the result fields,
  `errors`). The class methods are the handlers, and they state which
  fields they change and to what.

Validation builds the error map field by field, as the components do. A
specification function `Validate` gives, for each field, the condition
under which it gets a message and which message. It also shows that the map
is empty exactly when the data is acceptable. On an error, the calculate
methods replace only the errors. On success they store the result, and the
chart is then exactly the series function.

Four facts about the code are worth knowing:

- The rate check rejects values below 0.1 and above 100, so it accepts 0.1
  itself: the range is `[0.1, 100]`.
- The comment "at most 12 points" at
  components/compound-interest-calculator.tsx:171 does not hold. A 23-month
  term gives stride 1 and 24 points (`TwentyThreeMonths`). Months mode draws
  `t + 1` points below a year, and 13 to 24 points from a year on
  (`SampleCountBounds`).
- Below twelve months the stride is 1 and every month is drawn.
- The comment "Monthly rate directly" at
  components/compound-interest-calculator.tsx:123 does not describe the
  code: with monthly capitalization the entered rate is still read as yearly
  and divided by 12, so 1 entered grows by 1/1200 a month, not 1/100.

## Model

| member | source | states |
|---|---|---|
| Common.RateError | components/compound-interest-calculator.tsx:90-94 | A rate gets no message exactly when it is in `[0.1, 100]`. Below 0.1 it gets the "maior que 0.1%" message and above 100 the "menor que 100%" one, so never both (the first-million rate check at first-million-calculator.tsx:66-70 is the same). |
| Common.ReadNumber | components/emergency-fund-calculator.tsx:89 | An entered number is read as itself. The read value is 0 exactly for an empty field or an entered 0. The same reading is at first-million-calculator.tsx:96 and compound-interest-calculator.tsx:194. |
| EmergencyFund.Multiplier | components/emergency-fund-calculator.tsx:9-13 | Every profile maps to 3, 6 or 12 months. |
| EmergencyFund.ReserveOrderedByProfile | components/emergency-fund-calculator.tsx:9-13 | For positive expenses, public < CLT < self-employed, and each step doubles the reserve. With `Multiplier` giving 3, 6 or 12, this fixes public at 3, CLT at 6 and self-employed at 12 months. |
| EmergencyFund.Reserve | components/emergency-fund-calculator.tsx:82-83 | For expenses that pass the check, the reserve lies between 3 and 12 months of expenses. |
| EmergencyFund.ReservePositive | components/emergency-fund-calculator.tsx:77-83 | Any reserve computed from expenses that passed the check is strictly positive. |
| EmergencyFund.ReserveStrictlyIncreasing | components/emergency-fund-calculator.tsx:82-83 | For a fixed profile the reserve is strictly increasing in the expenses. |
| EmergencyFund.BlankExpensesRejected | components/emergency-fund-calculator.tsx:77-90 | An empty expenses field is read as a value that the calculation's check (`ExpensesAccepted`) rejects. |
| EmergencyFund.EmergencyFundCalculator.constructor | components/emergency-fund-calculator.tsx:42-47 | Initial state: expenses 0, profile CLT, no reserve, no error. |
| EmergencyFund.EmergencyFundCalculator.CalculateEmergencyFund | components/emergency-fund-calculator.tsx:76-86 | Expenses that fail `ExpensesAccepted` (<= 0) set the error and leave the reserve as it was. Otherwise the reserve becomes expenses times the profile's multiplier and the error is cleared. Every stored reserve stays positive. |
| EmergencyFund.EmergencyFundCalculator.HandleInputChange | components/emergency-fund-calculator.tsx:88-91 | The expenses become the parsed number, or 0 for an empty field; the profile is unchanged. |
| EmergencyFund.EmergencyFundCalculator.HandleCalculate | components/emergency-fund-calculator.tsx:98-101 | Calculates from the current form data, with the same outcome as `CalculateEmergencyFund`. |
| FinanceMath.Pow | components/first-million-calculator.tsx:86-88 | `Math.pow` with a whole exponent: the zeroth power is 1, and every power of a positive base is positive. |
| FinanceMath.AnnuityValueIsBalance | components/first-million-calculator.tsx:86-88 | The closed form `C(1+r)^n + M((1+r)^n - 1)/r` equals n months of growing by r and then depositing M. |
| FinanceMath.BalanceFromClosedForm | components/compound-interest-calculator.tsx:134-141 | If the closed form for growth `g = (1+r)^n` equals a value, the month-by-month balance ends at that value. |
| FinanceMath.Bernoulli | components/first-million-calculator.tsx:117-119 | `(1+r)^n >= 1 + n r` for r > 0, strictly from two periods on. This is why contributions earn interest. |
| FinanceMath.BalanceIncreasing | components/compound-interest-calculator.tsx:153-184 | With positive capital, a positive rate and no withdrawals, the balance strictly increases month by month. |
| FinanceMath.BalanceAboveDeposits | components/compound-interest-calculator.tsx:143 | After at least one month, the balance exceeds the capital plus every contribution made. |
| FinanceMath.Round2 | components/compound-interest-calculator.tsx:166 | `Number(x.toFixed(2))`: a whole number of cents, at most half a cent from x, and not negative for non-negative x. |
| FinanceMath.Round2Monotone | components/compound-interest-calculator.tsx:182 | Rounding to cents never reverses the order of two amounts. |
| FinanceMath.NatToString | components/compound-interest-calculator.tsx:165 | A whole number printed into a label is a non-empty string of decimal digits. |
| FinanceMath.NatToStringRoundTrip | components/compound-interest-calculator.tsx:165 | Reading the printed digits back (`DigitsValue`) gives the number itself, and from 10 on the first digit is not 0. |
| FinanceMath.NatToStringInjective | components/compound-interest-calculator.tsx:165 | Two different numbers never print the same digits, so chart labels never repeat. |
| FirstMillion.Validate | components/first-million-calculator.tsx:60-79 | Each of the three fields gets a message exactly when its own rule fails, with that rule's message. The map is empty exactly when the data is acceptable. |
| FirstMillion.Acceptable | components/first-million-calculator.tsx:76-79 | Data that passes the checks has a positive monthly rate and at least 12 months. |
| FirstMillion.ErrorGate | components/first-million-calculator.tsx:76-79 | The calculation stops with errors exactly when the data is not acceptable. |
| FirstMillion.CollectErrors | components/first-million-calculator.tsx:60-74 | The error map built check by check is exactly `Validate`. |
| FirstMillion.MonthlyRate | components/first-million-calculator.tsx:84 | r = rate / 1200, positive for every accepted rate. |
| FirstMillion.Months | components/first-million-calculator.tsx:83 | n = years * 12 >= 12 for every accepted term. |
| FirstMillion.Growth | components/first-million-calculator.tsx:86-88 | `(1+r)^n > 1` for accepted data, so the payment formula never divides by zero. |
| FirstMillion.Payment | components/first-million-calculator.tsx:86-88 | The unclamped PMT closes the annuity: `PV g + PMT (g - 1)/r = 1,000,000`. PMT < 0 exactly when `PV g > 1,000,000`, and PMT = 0 exactly when they are equal. |
| FirstMillion.PaymentFor | components/first-million-calculator.tsx:81-88 | The unclamped PMT for the form's data closes the annuity: `PV (1+r)^n + PMT ((1+r)^n - 1)/r = 1,000,000`. |
| FirstMillion.AnnuityClosure | components/first-million-calculator.tsx:81-88 | Month by month, PV plus n end-of-month payments of PMT, at rate r, ends at exactly 1,000,000. |
| FirstMillion.RequiredContribution | components/first-million-calculator.tsx:88-90 | The stored amount is never negative. It is 0 exactly when `PV (1+r)^n >= 1,000,000`, and otherwise it is the unclamped PMT. |
| FirstMillion.Explain | components/first-million-calculator.tsx:104-119 | No amount gives no explanation, and an amount of 0 gives the "already reached" text. Otherwise the total invested and the interest earned add up to 1,000,000. |
| FirstMillion.ExplainComputedAmount | components/first-million-calculator.tsx:107-119 | For a computed amount, "already reached" appears exactly when the initial investment alone reaches the target. Otherwise the total invested is PV + amount * n and the interest earned is strictly positive. |
| FirstMillion.InterestPositive | components/first-million-calculator.tsx:117-119 | If the annuity closes at 1,000,000 and `(1+r)^n > 1 + n r`, then PV plus n payments stays below 1,000,000. |
| FirstMillion.BlankFieldsValidation | components/first-million-calculator.tsx:94-97 | An empty rate or term field (read as 0) is rejected, and an empty initial investment is accepted. |
| FirstMillion.FirstMillionCalculator.constructor | components/first-million-calculator.tsx:23-29 | Initial state: investment 0, rate 10, 20 years, no amount, no errors. |
| FirstMillion.FirstMillionCalculator.CalculateMonthlyAmount | components/first-million-calculator.tsx:58-92 | Invalid data replaces only the errors (with `Validate`), and the amount keeps its value. Valid data stores `RequiredContribution` and clears the errors. A stored amount is never negative. |
| FirstMillion.FirstMillionCalculator.HandleInputChange | components/first-million-calculator.tsx:94-98 | The named field becomes the parsed number, or 0 for an empty field; the other fields are unchanged. |
| FirstMillion.FirstMillionCalculator.HandleCalculate | components/first-million-calculator.tsx:100-102 | Calculates from the current form data, with the same outcome as `CalculateMonthlyAmount`. |
| FirstMillion.FirstMillionCalculator.GetExplanation | components/first-million-calculator.tsx:104-119 | The explanation of the stored amount: none before a calculation, "already reached" for 0. Otherwise PV + amount * years * 12 invested, with the rest of the million as interest. |
| CompoundInterest.Validate | components/compound-interest-calculator.tsx:84-107 | Each of the four fields gets a message exactly when its own rule fails, with that rule's message. The map is empty exactly when the data is acceptable. |
| CompoundInterest.Acceptable | components/compound-interest-calculator.tsx:104-107 | Data that passes the checks has a positive monthly rate in both modes: rate / 1200 is positive and the yearly factor 1 + rate / 100 is above 1. |
| CompoundInterest.ErrorGate | components/compound-interest-calculator.tsx:104-107 | The calculation stops with errors exactly when the data is not acceptable. |
| CompoundInterest.CollectErrors | components/compound-interest-calculator.tsx:84-102 | The error map built check by check is exactly `Validate`. |
| CompoundInterest.RootAboveOne | components/compound-interest-calculator.tsx:121 | A positive twelfth root of a number above 1 is above 1. |
| CompoundInterest.MonthlyRate | components/compound-interest-calculator.tsx:120-124 | The monthly rate is positive for every accepted rate. With monthly capitalization it is rate / 1200. With yearly capitalization, twelve months at it compound to exactly 1 + rate / 100. |
| CompoundInterest.Periods | components/compound-interest-calculator.tsx:126-132 | The month count is time * 12 in years mode and time in months mode, and at least 1. |
| CompoundInterest.Projection | components/compound-interest-calculator.tsx:134-141 | For any non-negative contribution, the formula (the annuity term added only when M > 0) equals the month-by-month balance. |
| CompoundInterest.Project | components/compound-interest-calculator.tsx:136-148 | The final amount is the balance after the whole term. It equals capital plus contributions plus interest gained, and the interest gained is strictly positive. |
| CompoundInterest.ComputeResult | components/compound-interest-calculator.tsx:109-148 | The rate and period normalisation and the amount computed step by step give exactly `Project`, `MonthlyRate` and `Periods`. |
| CompoundInterest.PointAt | components/compound-interest-calculator.tsx:157-167 | A chart point's label is the prefix followed by digits that name the index (`LabelNames`). For a non-negative contribution its amount is the month-by-month balance, rounded to cents. |
| CompoundInterest.YearSeries | components/compound-interest-calculator.tsx:155-168 | Years mode has t + 1 points, and point k shows the balance after 12k months, rounded to cents. |
| CompoundInterest.SampledMonths | components/compound-interest-calculator.tsx:171-173 | The months the loop visits start at 0 and each is the previous one plus the stride. The last one is not past t, and one more stride would pass t. |
| CompoundInterest.MonthSeries | components/compound-interest-calculator.tsx:171-184 | Months mode has one point per sampled month, and each shows that month's balance, rounded to cents. |
| CompoundInterest.Series | components/compound-interest-calculator.tsx:152-185 | The chart has t + 1 points in years mode and one per sampled month in months mode. Its first point is the capital, rounded to cents. |
| CompoundInterest.SampleInterval | components/compound-interest-calculator.tsx:171 | The stride is at least 1, and exactly 1 below 24 months. From a year on, it is the largest whole number of months with `12 * iv <= t`. |
| CompoundInterest.SampledMonthsShape | components/compound-interest-calculator.tsx:171-173 | The sampled months are 0, iv, 2 iv, ... They strictly increase, none is past t, and there are `t / iv + 1` of them. |
| CompoundInterest.SampledMonthsMembers | components/compound-interest-calculator.tsx:173 | A month is sampled exactly when it is a multiple of the stride and not past t. |
| CompoundInterest.TermSampledIff | components/compound-interest-calculator.tsx:171-173 | The last month of the term is sampled exactly when the stride divides it. |
| CompoundInterest.SampleCountBounds | components/compound-interest-calculator.tsx:171-173 | Months mode draws t + 1 points below a year, and between 13 and 24 points from a year on. |
| CompoundInterest.TwentyThreeMonths | components/compound-interest-calculator.tsx:171 | The "at most 12 points" comment does not hold: 23 months give stride 1 and 24 points. |
| CompoundInterest.YearSeriesLabels | components/compound-interest-calculator.tsx:163-166 | Point k of years mode is labelled "Ano " and digits that name k. |
| CompoundInterest.MonthSeriesLabels | components/compound-interest-calculator.tsx:179-182 | Each point of months mode is labelled "Mês " and digits that name its sampled month. |
| CompoundInterest.YearSeriesEnds | components/compound-interest-calculator.tsx:155-168 | Years mode starts at the rounded capital and ends at the rounded balance after the whole term, the same value as the final amount. |
| CompoundInterest.MonthSeriesEnds | components/compound-interest-calculator.tsx:171-184 | Months mode starts at the rounded capital and ends at month `t - t % iv`, which is the whole term only when the stride divides it. |
| CompoundInterest.SeriesEndsAtFinalAmount | components/compound-interest-calculator.tsx:136-185 | In years mode, and in months mode when the stride divides the term, the chart's last point is the final amount of the result panel, rounded to cents. |
| CompoundInterest.SeriesNondecreasing | components/compound-interest-calculator.tsx:150-185 | For accepted data the chart never goes down from one point to the next. |
| CompoundInterest.BlankFieldsValidation | components/compound-interest-calculator.tsx:192-196 | An empty capital, rate or term field (read as 0) is rejected, and an empty monthly contribution is accepted. |
| CompoundInterest.BuildYearSeries | components/compound-interest-calculator.tsx:155-168 | The counting loop over years pushes exactly the years-mode series. |
| CompoundInterest.BuildMonthSeries | components/compound-interest-calculator.tsx:171-184 | The loop stepping by the stride pushes exactly the months-mode series, and stops after the last sampled month. |
| CompoundInterest.CompoundInterestCalculator.constructor | components/compound-interest-calculator.tsx:40-55 | Initial state: 1000 capital, rate 10, 5 years, no contribution, yearly capitalization; no result, empty chart, no errors, results hidden. |
| CompoundInterest.CompoundInterestCalculator.CalculateCompoundInterest | components/compound-interest-calculator.tsx:82-190 | Invalid data replaces only the errors: result, chart and visibility keep their values. Valid data stores `Project`'s result and `Series`'s chart, clears the errors and shows the results. Results show exactly when a result exists, with positive interest and a non-empty chart. |
| CompoundInterest.CompoundInterestCalculator.HandleInputChange | components/compound-interest-calculator.tsx:192-196 | The named field becomes the parsed number, or 0 for an empty field; the other fields are unchanged. |
| CompoundInterest.CompoundInterestCalculator.HandleCalculate | components/compound-interest-calculator.tsx:203-206 | Calculates from the current form data, with the same outcome as `CalculateCompoundInterest`. |

## Left out

- Loading and saving the form data in `localStorage`, and the recalculation after loading: browser storage and JSON parsing are I/O.
- Exporting the results as a text file: Blob, object URL and anchor click are I/O.
- The random choice of a motivational phrase: it is non-deterministic and only shown as text.
- `formatCurrency`, the explanation and export texts, the chart configuration and all JSX rendering: display only, or defined outside these components.
- The profile radio handler and the time-unit and capitalization select handlers: each only stores the chosen option in `data`, and the calculations take the option as part of their input.
- Floating point: every amount is an exact real. Formulas that agree only up to rounding in IEEE-754 doubles are exact equalities here. `Round2` rounds the exact value, so a double that sits just below a half cent may round differently in the program.
- `Number.parseFloat` on text that is not a number (giving NaN): an entered field is modelled as holding a number.
- CompoundInterest.MonthlyRate: `Math.pow(1 + i, 1/12)` is not computed. The caller supplies the twelfth root, which must be positive with twelfth power `1 + rate / 100` (`RootFor`).
- FirstMillion.FirstMillionCalculator.HandleInputChange: the years field is required to hold a whole number. A fractional value from `parseFloat` is not modelled, and `years` is an integer.
- CompoundInterest.CompoundInterestCalculator.HandleInputChange: the term field is required to hold a whole number, for the same reason. `time` is an integer, so fractional terms and strides are not modelled.
- CompoundInterest.ComputeResult: the result is stated only for accepted data. The program never computes on rejected data, and the calculate method stops there.
