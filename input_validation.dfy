/**
 * The loan form's client-side check (`validateInput`,
 * loan-simulator/static/script.js), before the request is sent.
 *
 * The form's fields come from `parseFloat` and `parseInt`, so a field is a
 * JavaScript number, possibly NaN or infinite, or a missing value.
 */
module InputValidation {
  import LoanModels

  /** A JavaScript value in a numeric field: `undefined`, `null`, NaN, the infinities or a finite number. */
  datatype JsNumber = Undefined | Null | NaN | PlusInfinity | MinusInfinity | Finite(value: real)

  /** The loan request as the form builds it. */
  datatype LoanInput = LoanInput(amount: JsNumber, durationYears: JsNumber, annualInterestRate: JsNumber)

  /** What `validateInput` returns. */
  datatype ValidationResult = ValidationResult(isValid: bool, errors: seq<string>)

  const AmountError: string := "Le montant du prêt doit être supérieur à 0€"
  const DurationError: string := "La durée du prêt doit être supérieure à 0 année"
  const RateError: string := "Le taux d'intérêt doit être positif ou nul"

  /** JavaScript's ToNumber on these values: `null` becomes 0, `undefined` becomes NaN. */
  function ToNumber(v: JsNumber): (n: JsNumber)
    ensures !n.Undefined? && !n.Null?
    ensures v.Null? ==> n == Finite(0.0)
    ensures v.Undefined? ==> n.NaN?
    ensures !v.Null? && !v.Undefined? ==> n == v
  {
    match v
    case Undefined => NaN
    case Null => Finite(0.0)
    case _ => v
  }

  /** JavaScript truthiness: zero, NaN, `null` and `undefined` are false. */
  function Truthy(v: JsNumber): (b: bool)
    ensures !b <==> v.Undefined? || v.Null? || v.NaN? || v == Finite(0.0)
  {
    match v
    case Undefined => false
    case Null => false
    case NaN => false
    case PlusInfinity => true
    case MinusInfinity => true
    case Finite(x) => x != 0.0
  }

  /** JavaScript `v <= 0`: both sides through ToNumber, and a comparison with NaN is false. */
  function AtMostZero(v: JsNumber): (b: bool)
    ensures b <==> ToNumber(v).MinusInfinity? || (ToNumber(v).Finite? && ToNumber(v).value <= 0.0)
  {
    match v
    case Undefined => false
    case Null => true
    case NaN => false
    case PlusInfinity => false
    case MinusInfinity => true
    case Finite(x) => x <= 0.0
  }

  /** JavaScript `v < 0`, with the same conversions. */
  function BelowZero(v: JsNumber): (b: bool)
    ensures b <==> ToNumber(v).MinusInfinity? || (ToNumber(v).Finite? && ToNumber(v).value < 0.0)
    ensures b ==> AtMostZero(v)
  {
    match v
    case Undefined => false
    case Null => false
    case NaN => false
    case PlusInfinity => false
    case MinusInfinity => true
    case Finite(x) => x < 0.0
  }

  /** A number greater than zero: positive infinity or a positive finite number. */
  predicate Positive(v: JsNumber)
  {
    v.PlusInfinity? || (v.Finite? && v.value > 0.0)
  }

  /** The values the rate check refuses: missing values and negative numbers; NaN is not among them. */
  predicate RateRefused(v: JsNumber)
  {
    v.Undefined? || v.Null? || v.MinusInfinity? || (v.Finite? && v.value < 0.0)
  }

  /** The place of each message in the list: amount, duration, rate. */
  function Rank(message: string): (rank: int)
  {
    if message == AmountError then 0 else if message == DurationError then 1 else 2
  }

  /**
   * `validateInput`: collects one message per refused field, amount, then
   * duration, then rate; the input is valid exactly when none was collected.
   * Amount and duration must be greater than zero; the rate must be present
   * and not negative, so zero and NaN pass.
   */
  method ValidateInput(data: LoanInput) returns (result: ValidationResult)
    ensures result.isValid <==> result.errors == []
    ensures AmountError in result.errors <==> !Positive(data.amount)
    ensures DurationError in result.errors <==> !Positive(data.durationYears)
    ensures RateError in result.errors <==> RateRefused(data.annualInterestRate)
    ensures forall m :: m in result.errors ==> m == AmountError || m == DurationError || m == RateError
    ensures forall i, j :: 0 <= i < j < |result.errors| ==> Rank(result.errors[i]) < Rank(result.errors[j])
    ensures |result.errors| <= 3
  {
    var errors: seq<string> := [];

    if !Truthy(data.amount) || AtMostZero(data.amount) {
      errors := errors + [AmountError];
    }

    if !Truthy(data.durationYears) || AtMostZero(data.durationYears) {
      errors := errors + [DurationError];
    }

    if data.annualInterestRate.Null? || data.annualInterestRate.Undefined? || BelowZero(data.annualInterestRate) {
      errors := errors + [RateError];
    }

    result := ValidationResult(|errors| == 0, errors);
  }

  /**
   * The amount and duration test `!v || v <= 0` refuses exactly the values
   * that are not greater than zero; the rate test refuses exactly the missing
   * and the negative values, and lets NaN through.
   */
  lemma FieldTests(v: JsNumber)
    ensures !Truthy(v) || AtMostZero(v) <==> !Positive(v)
    ensures v.Null? || v.Undefined? || BelowZero(v) <==> RateRefused(v)
    ensures !RateRefused(NaN) && !Positive(NaN)
  {
  }

  /**
   * On finite numbers, the form refuses exactly what the loan service's
   * request model refuses: a non-positive amount or duration, a negative rate.
   */
  lemma FormAgreesWithService(amount: real, years: int, rate: real)
    ensures Positive(Finite(amount)) && Positive(Finite(years as real)) && !RateRefused(Finite(rate))
      <==> LoanModels.ValidLoanRequest(LoanModels.LoanRequest(amount, years, rate))
  {
  }
}
