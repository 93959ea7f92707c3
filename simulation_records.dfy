/**
 * The stored loan simulation (`LoanSimulation`, loan-simulator/app/database.py),
 * the save request the simulation service reads its fields from, and the
 * history entry it returns.
 *
 * Every column of the table is non-nullable, so a stored record has no
 * optional field; the request, as the client sends it, may lack the names
 * and the categories, which the service then rejects.
 */
module SimulationRecords {
  import opened Wrappers
  import opened Timestamps

  /** One row of `loan_simulations`; `id` is assigned by the store. */
  datatype LoanSimulation = LoanSimulation(
    id: int,
    firstName: string,
    lastName: string,
    ageCategory: string,
    professionalCategory: string,
    monthlyNetIncome: real,
    loanAmount: real,
    durationYears: int,
    annualInterestRate: real,
    totalInterest: real,
    totalCost: real,
    monthlyPayment: real,
    createdAt: DateTime)

  /** The loan request part of a save request: who asks, and for which loan. */
  datatype SimulationLoanRequest = SimulationLoanRequest(
    firstName: Option<string>,
    lastName: Option<string>,
    ageCategory: Option<string>,
    professionalCategory: Option<string>,
    monthlyNetIncome: real,
    amount: real,
    durationYears: int)

  /** The computed figures part of a save request. */
  datatype SimulationLoanResponse = SimulationLoanResponse(
    annualInterestRate: real,
    monthlyPayment: real,
    totalInterest: real,
    totalCost: real)

  /** `SaveSimulationRequest`: the request and the figures computed for it. */
  datatype SaveSimulationRequest = SaveSimulationRequest(
    loanRequest: SimulationLoanRequest,
    loanResponse: SimulationLoanResponse)

  /** `SaveSimulationResponse`: the id of the new record and a confirmation. */
  datatype SaveSimulationResponse = SaveSimulationResponse(id: int, message: string)

  const SavedMessage: string := "Simulation sauvegardée avec succès"

  /** `SimulationHistory`: a stored record as the history and the lookup return it. */
  datatype SimulationHistory = SimulationHistory(
    id: int,
    firstName: string,
    lastName: string,
    ageCategory: string,
    professionalCategory: string,
    monthlyNetIncome: real,
    loanAmount: real,
    durationYears: int,
    annualInterestRate: real,
    totalInterest: real,
    totalCost: real,
    monthlyPayment: real,
    createdAt: string,
    clientName: string,
    formattedCreatedAt: string)

  /** Python's truth value of an optional string: present and not empty. */
  predicate Given(s: Option<string>)
  {
    s.Some? && s.value != []
  }

  /** A record as the service stores it: names and categories present, a real timestamp. */
  predicate Complete(r: LoanSimulation)
  {
    r.firstName != [] && r.lastName != [] && r.ageCategory != [] && r.professionalCategory != []
    && ValidDateTime(r.createdAt)
  }

  /** The client's display name: first name, one space, last name. */
  function ClientName(firstName: string, lastName: string): (name: string)
    ensures |name| == |firstName| + |lastName| + 1
    ensures name[..|firstName|] == firstName && name[|firstName|] == ' '
    ensures name[|firstName| + 1..] == lastName
  {
    firstName + " " + lastName
  }

  /** Splits a string at its first space; `None` when it has none. */
  function SplitAtFirstSpace(s: string): (split: Option<(string, string)>)
  {
    if s == [] then None
    else if s[0] == ' ' then Some(([], s[1..]))
    else match SplitAtFirstSpace(s[1..])
      case None => None
      case Some(rest) => Some(([s[0]] + rest.0, rest.1))
  }

  /** When the first name holds no space, both names can be recovered from the client name. */
  lemma {:induction false} ClientNameSplitsBack(firstName: string, lastName: string)
    requires forall i :: 0 <= i < |firstName| ==> firstName[i] != ' '
    ensures SplitAtFirstSpace(ClientName(firstName, lastName)) == Some((firstName, lastName))
  {
    if firstName != [] {
      var rest := firstName[1..];
      assert ClientName(firstName, lastName)[1..] == ClientName(rest, lastName);
      ClientNameSplitsBack(rest, lastName);
      assert [firstName[0]] + rest == firstName;
    } else {
      assert ClientName(firstName, lastName)[1..] == lastName;
    }
  }

  /** The history entry of a stored record: every column, plus the derived display fields. */
  function ToHistory(r: LoanSimulation): (h: SimulationHistory)
    requires ValidDateTime(r.createdAt)
    ensures h.id == r.id && h.firstName == r.firstName && h.lastName == r.lastName
    ensures h.ageCategory == r.ageCategory && h.professionalCategory == r.professionalCategory
    ensures h.monthlyNetIncome == r.monthlyNetIncome && h.loanAmount == r.loanAmount
    ensures h.durationYears == r.durationYears && h.annualInterestRate == r.annualInterestRate
    ensures h.totalInterest == r.totalInterest && h.totalCost == r.totalCost
    ensures h.monthlyPayment == r.monthlyPayment
    ensures h.clientName == ClientName(r.firstName, r.lastName)
  {
    SimulationHistory(
      r.id, r.firstName, r.lastName, r.ageCategory, r.professionalCategory, r.monthlyNetIncome,
      r.loanAmount, r.durationYears, r.annualInterestRate, r.totalInterest, r.totalCost,
      r.monthlyPayment, IsoFormat(r.createdAt), ClientName(r.firstName, r.lastName),
      FormatCreatedAt(r.createdAt))
  }

  /**
   * Both dates of a history entry show its record's `created_at`: the ISO one
   * in full, the displayed one to the minute.
   */
  lemma ToHistoryDates(r: LoanSimulation)
    requires ValidDateTime(r.createdAt)
    ensures |ToHistory(r).createdAt| == if r.createdAt.microsecond == 0 then 19 else 26
    ensures ReadIsoFormat(ToHistory(r).createdAt) == Some(r.createdAt)
    ensures ReadCreatedAt(ToHistory(r).formattedCreatedAt)
      == Some(DisplayedFields(r.createdAt.day, r.createdAt.month, r.createdAt.year, r.createdAt.hour, r.createdAt.minute))
  {
    IsoFormatReadsBack(r.createdAt);
    FormatCreatedAtReadsBack(r.createdAt);
  }
}
