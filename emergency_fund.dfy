/**
 * The emergency-fund calculator: the reserve is the monthly fixed expenses
 * times a number of months fixed by the kind of employment.
 */
module EmergencyFund {
  import opened Common

  datatype Profile = Public | Clt | Autonomous

  datatype EmergencyFundData = EmergencyFundData(monthlyExpenses: real, profile: Profile)

  const InvalidValue: string := "Informe um valor válido"

  /** Months of expenses the reserve must cover, per profile. */
  function Multiplier(p: Profile): (months: nat)
    ensures months in {3, 6, 12}
  {
    match p
    case Public => 3
    case Clt => 6
    case Autonomous => 12
  }

  /** The check the calculation starts with: only positive expenses are accepted. */
  predicate ExpensesAccepted(expenses: real)
  {
    expenses > 0.0
  }

  /**
   * The ideal reserve for given expenses and profile: for accepted expenses
   * it covers at least three and at most twelve months of them.
   */
  function Reserve(expenses: real, p: Profile): (reserve: real)
    ensures ExpensesAccepted(expenses) ==> 3.0 * expenses <= reserve <= 12.0 * expenses
  {
    expenses * Multiplier(p) as real
  }

  /** A reserve is only ever computed from accepted expenses, so it is positive. */
  lemma ReservePositive(expenses: real, p: Profile)
    requires ExpensesAccepted(expenses)
    ensures Reserve(expenses, p) > 0.0
  {
  }

  /** For a fixed profile, more expenses mean a strictly larger reserve. */
  lemma ReserveStrictlyIncreasing(a: real, b: real, p: Profile)
    requires a < b
    ensures Reserve(a, p) < Reserve(b, p)
  {
  }

  /** For fixed positive expenses, public < CLT < autonomous. */
  lemma ReserveOrderedByProfile(expenses: real)
    requires expenses > 0.0
    ensures Reserve(expenses, Public) < Reserve(expenses, Clt) < Reserve(expenses, Autonomous)
    ensures Reserve(expenses, Clt) == 2.0 * Reserve(expenses, Public)
    ensures Reserve(expenses, Autonomous) == 2.0 * Reserve(expenses, Clt)
  {
  }

  /** A cleared expenses field is read as 0, which the calculation rejects. */
  lemma BlankExpensesRejected()
    ensures !ExpensesAccepted(ReadNumber(Blank))
  {
  }

  /** The component's state: the form data, the stored reserve and the error message. */
  class EmergencyFundCalculator {
    var data: EmergencyFundData
    var emergencyFund: Option<real>
    var error: Option<string>

    /** Every reserve the component stores is strictly positive. */
    ghost predicate Valid()
      reads this
    {
      emergencyFund.Some? ==> emergencyFund.value > 0.0
    }

    constructor ()
      ensures Valid()
      ensures data == EmergencyFundData(0.0, Clt)
      ensures emergencyFund == None && error == None
    {
      data := EmergencyFundData(0.0, Clt);
      emergencyFund := None;
      error := None;
    }

    /**
     * Non-positive expenses set the error and leave the reserve as it was;
     * otherwise the reserve becomes expenses times the profile's multiplier
     * and the error is cleared.
     */
    method CalculateEmergencyFund(current: EmergencyFundData)
      requires Valid()
      modifies this`emergencyFund, this`error
      ensures Valid()
      ensures !ExpensesAccepted(current.monthlyExpenses) ==>
        error == Some(InvalidValue) && emergencyFund == old(emergencyFund)
      ensures ExpensesAccepted(current.monthlyExpenses) ==>
        error == None && emergencyFund == Some(Reserve(current.monthlyExpenses, current.profile))
    {
      if current.monthlyExpenses <= 0.0 {
        error := Some(InvalidValue);
        return;
      }
      var result := current.monthlyExpenses * Multiplier(current.profile) as real;
      assert result == Reserve(current.monthlyExpenses, current.profile);
      ReservePositive(current.monthlyExpenses, current.profile);
      emergencyFund := Some(result);
      error := None;
    }

    /** The expenses field's change handler: an empty field is stored as 0. */
    method HandleInputChange(raw: Entry)
      modifies this`data
      ensures data == old(data).(monthlyExpenses := ReadNumber(raw))
    {
      var value := if raw.Blank? then 0.0 else raw.value;
      data := data.(monthlyExpenses := value);
    }

    /** The form's submit handler: calculate from the current form data. */
    method HandleCalculate()
      requires Valid()
      modifies this`emergencyFund, this`error
      ensures Valid()
      ensures !ExpensesAccepted(data.monthlyExpenses) ==>
        error == Some(InvalidValue) && emergencyFund == old(emergencyFund)
      ensures ExpensesAccepted(data.monthlyExpenses) ==>
        error == None && emergencyFund == Some(Reserve(data.monthlyExpenses, data.profile))
    {
      CalculateEmergencyFund(data);
    }
  }
}
