/**
 * What the three calculator components share: an optional state value
 * (`T | null` in the components), the value a numeric `<input>` hands to its
 * change handler, and the interest-rate range check with its two messages.
 */
module Common {

  datatype Option<T> = None | Some(value: T)

  /**
   * The text of a numeric input field: left empty, or holding the number the
   * browser's `parseFloat` read from it.
   */
  datatype Entry = Blank | Entered(value: real)

  /**
   * The handlers read an empty field as 0 and otherwise take the parsed
   * number, so a cleared field cannot be told from a typed 0.
   */
  function ReadNumber(e: Entry): (x: real)
    ensures e.Entered? ==> x == e.value
    ensures x == 0.0 <==> e == Blank || e == Entered(0.0)
  {
    match e
    case Blank => 0.0
    case Entered(v) => v
  }

  /** The number a field with `step="1"` holds is whole. */
  predicate IsWhole(x: real)
  {
    x.Floor as real == x
  }

  const RateTooLow: string := "A taxa deve ser maior que 0.1%"
  const RateTooHigh: string := "A taxa deve ser menor que 100%"

  /** The percentage range both rate fields accept: from 0.1 to 100, both included. */
  predicate RateInRange(ratePct: real)
  {
    0.1 <= ratePct <= 100.0
  }

  /**
   * The message a rate field gets: the low-side check runs first and the
   * high-side one only in its `else`, so at most one message is recorded.
   */
  function RateError(ratePct: real): (msg: Option<string>)
    ensures msg.None? <==> RateInRange(ratePct)
    ensures ratePct < 0.1 ==> msg == Some(RateTooLow)
    ensures ratePct > 100.0 ==> msg == Some(RateTooHigh)
  {
    if ratePct < 0.1 then Some(RateTooLow)
    else if ratePct > 100.0 then Some(RateTooHigh)
    else None
  }
}
