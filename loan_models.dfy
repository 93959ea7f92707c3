/** The loan simulator's request and response (loan-simulator/app/models.py). */
module LoanModels {

  /** `LoanRequest`: amount in euros, duration in whole years, annual rate in percent. */
  datatype LoanRequest = LoanRequest(amount: real, durationYears: int, annualInterestRate: real)

  /** The field constraints of `LoanRequest`: `amount gt=0`, `duration_years gt=0`, `annual_interest_rate ge=0`. */
  predicate ValidLoanRequest(r: LoanRequest)
  {
    r.amount > 0.0 && r.durationYears > 0 && r.annualInterestRate >= 0.0
  }

  /** `LoanResponse`: four amounts in euros. */
  datatype LoanResponse = LoanResponse(loanAmount: real, monthlyPayment: real, totalInterest: real, totalCost: real)

  /** The documented request example: 250000 euros over 20 years at 1.7 %. */
  const RequestExample: LoanRequest := LoanRequest(250000.0, 20, 1.7)

  /** The documented response example. */
  const ResponseExample: LoanResponse := LoanResponse(250000.0, 1289.25, 59420.0, 309420.0)

  /**
   * The response example is internally consistent: cost = amount + interest, and
   * cost = payment x 240, the number of monthly payments of the 20-year request
   * example (whether its payment is the formula's is another matter).
   */
  lemma ResponseExampleIdentities()
    ensures ValidLoanRequest(RequestExample)
    ensures ResponseExample.totalCost == ResponseExample.loanAmount + ResponseExample.totalInterest
    ensures ResponseExample.totalCost == ResponseExample.monthlyPayment * (RequestExample.durationYears * 12) as real
  {
  }
}
