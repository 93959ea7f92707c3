/**
 * `LoanCalculationService.calculate_loan` (loan-simulator/app/services/loan_service.py):
 * the annuity formula on exact reals, with the straight-line case at rate zero.
 * The identities hold before rounding; `round(..., 2)` is applied at the output only.
 */
module LoanService {
  import opened Rounding
  import opened LoanModels

  /** `x ** n` for a whole exponent. */
  function Pow(x: real, n: nat): (p: real)
    ensures x > 0.0 ==> p > 0.0
  {
    if n == 0 then 1.0 else x * Pow(x, n - 1)
  }

  /** 1 + x + ... + x^(n-1). */
  function GeometricSum(x: real, n: nat): (s: real)
  {
    if n == 0 then 0.0 else GeometricSum(x, n - 1) + Pow(x, n - 1)
  }

  /** `annual_interest_rate / 100 / 12`. */
  function MonthlyRate(annualRate: real): (r: real)
    ensures r * 1200.0 == annualRate
  {
    annualRate / 100.0 / 12.0
  }

  /** `duration_years * 12`. */
  function NumberOfPayments(years: int): (n: int)
    ensures n % 12 == 0 && n / 12 == years
  {
    years * 12
  }

  // Small facts of real arithmetic, each proved on its own so that the solver
  // never has to search a large nonlinear context.

  /** c a <= c b when c >= 0 and a <= b. */
  lemma MultiplyMonotone(c: real, a: real, b: real)
    requires c >= 0.0 && a <= b
    ensures c * a <= c * b
  {
  }

  /** c a < c b when c > 0 and a < b. */
  lemma MultiplyStrict(c: real, a: real, b: real)
    requires c > 0.0 && a < b
    ensures c * a < c * b
  {
  }

  /** A positive common factor can be cancelled from a strict inequality. */
  lemma CancelPositive(c: real, a: real, b: real)
    requires c > 0.0 && a * c < b * c
    ensures a < b
  {
  }

  /** A nonzero common factor can be cancelled from an equation. */
  lemma CancelNonZero(c: real, a: real, b: real)
    requires c != 0.0 && c * a == c * b
    ensures a == b
  {
  }

  lemma {:induction false} PowAtLeastOne(x: real, n: nat)
    requires x >= 1.0
    ensures Pow(x, n) >= 1.0
  {
    if n > 0 {
      PowAtLeastOne(x, n - 1);
      MultiplyMonotone(Pow(x, n - 1), 1.0, x);
    }
  }

  lemma PowGrowsStrictly(x: real, n: nat)
    requires x > 1.0 && n > 0
    ensures Pow(x, n - 1) < Pow(x, n)
  {
    PowAtLeastOne(x, n - 1);
    MultiplyStrict(Pow(x, n - 1), 1.0, x);
  }

  /** (x - 1)(1 + x + ... + x^(n-1)) = x^n - 1. */
  lemma {:induction false} GeometricSumIdentity(x: real, n: nat)
    ensures (x - 1.0) * GeometricSum(x, n) == Pow(x, n) - 1.0
  {
    if n > 0 {
      GeometricSumIdentity(x, n - 1);
      var s := GeometricSum(x, n - 1);
      var q := Pow(x, n - 1);
      assert (x - 1.0) * (s + q) == (x - 1.0) * s + x * q - q;
    }
  }

  /** For x >= 1, each of the n terms of the geometric sum is at most x^(n-1). */
  lemma {:induction false} GeometricSumBound(x: real, n: nat)
    requires x >= 1.0 && n > 0
    ensures GeometricSum(x, n) <= n as real * Pow(x, n - 1)
  {
    if n > 1 {
      GeometricSumBound(x, n - 1);
      PowAtLeastOne(x, n - 2);
      MultiplyMonotone(Pow(x, n - 2), 1.0, x);
      MultiplyMonotone((n - 1) as real, Pow(x, n - 2), Pow(x, n - 1));
      assert n as real * Pow(x, n - 1) == (n - 1) as real * Pow(x, n - 1) + Pow(x, n - 1);
    }
  }

  /** (1 + r)(1 + m r) = 1 + (m + 1) r + m r^2. */
  lemma FirstOrderExpansion(r: real, m: real)
    ensures (1.0 + r) * (1.0 + m * r) == 1.0 + (m + 1.0) * r + m * (r * r)
  {
  }

  /** Bernoulli's inequality: (1 + r)^n >= 1 + n r for r >= 0. */
  lemma {:induction false} Bernoulli(r: real, n: nat)
    requires r >= 0.0
    ensures Pow(1.0 + r, n) >= 1.0 + n as real * r
  {
    if n > 0 {
      var m := (n - 1) as real;
      Bernoulli(r, n - 1);
      assert Pow(1.0 + r, n) == (1.0 + r) * Pow(1.0 + r, n - 1);
      MultiplyMonotone(1.0 + r, 1.0 + m * r, Pow(1.0 + r, n - 1));
      FirstOrderExpansion(r, m);
      MultiplyMonotone(m, 0.0, r * r);
    }
  }

  /** For r > 0 and n >= 1 the annuity denominator (1 + r)^n - 1 is at least n r, hence positive. */
  lemma AnnuityDenominatorPositive(r: real, n: nat)
    requires r > 0.0 && n > 0
    ensures Pow(1.0 + r, n) - 1.0 >= n as real * r > 0.0
  {
    Bernoulli(r, n);
    MultiplyStrict(n as real, 0.0, r);
  }

  /**
   * The monthly payment: `amount / n` at rate zero, otherwise
   * `amount * r (1 + r)^n / ((1 + r)^n - 1)`. It is characterised without
   * division: at rate zero n payments make up the amount; otherwise the
   * payment times (1 + r)^n - 1 equals amount * r * (1 + r)^n.
   */
  function MonthlyPayment(amount: real, r: real, n: nat): (p: real)
    requires r >= 0.0 && n > 0
    ensures r == 0.0 ==> p * n as real == amount
    ensures r > 0.0 ==> p * (Pow(1.0 + r, n) - 1.0) == amount * r * Pow(1.0 + r, n)
    ensures amount > 0.0 ==> p > 0.0
  {
    if r == 0.0 then amount / n as real
    else
      AnnuityDenominatorPositive(r, n);
      PowAtLeastOne(1.0 + r, n);
      amount * (r * Pow(1.0 + r, n)) / (Pow(1.0 + r, n) - 1.0)
  }

  /** For x > 1 the geometric sum of n terms is below n x^n. */
  lemma GeometricSumBelow(x: real, n: nat)
    requires x > 1.0 && n > 0
    ensures GeometricSum(x, n) < n as real * Pow(x, n)
  {
    GeometricSumBound(x, n);
    BelowNextPower(x, n, GeometricSum(x, n));
  }

  /** Anything at most n x^(n-1) is below n x^n when x > 1. */
  lemma BelowNextPower(x: real, n: nat, s: real)
    requires x > 1.0 && n > 0
    requires s <= n as real * Pow(x, n - 1)
    ensures s < n as real * Pow(x, n)
  {
    PowGrowsStrictly(x, n);
    MultiplyStrict(n as real, Pow(x, n - 1), Pow(x, n));
  }

  /** At a positive rate the payment times 1 + (1+r) + ... + (1+r)^(n-1) is amount x (1+r)^n. */
  lemma PaymentTimesGeometricSum(amount: real, r: real, n: nat)
    requires r > 0.0 && n > 0
    ensures MonthlyPayment(amount, r, n) * GeometricSum(1.0 + r, n) == amount * Pow(1.0 + r, n)
  {
    var p := MonthlyPayment(amount, r, n);
    var s := GeometricSum(1.0 + r, n);
    var q := Pow(1.0 + r, n);
    GeometricSumIdentity(1.0 + r, n);
    assert r * (p * s) == r * (amount * q);
    CancelNonZero(r, p * s, amount * q);
  }

  /** If p s = a q with s < N q and p, q > 0, then a < p N. */
  lemma ScaledBound(p: real, s: real, a: real, q: real, bigN: real)
    requires p > 0.0 && q > 0.0
    requires p * s == a * q && s < bigN * q
    ensures a < p * bigN
  {
    MultiplyStrict(p, s, bigN * q);
    CancelPositive(q, a, p * bigN);
  }

  /**
   * At a positive rate n payments cost strictly more than the amount: the
   * payment is amount x (1+r)^n / (1 + (1+r) + ... + (1+r)^(n-1)), and each of
   * those n terms is below (1+r)^n.
   */
  lemma PaymentExceedsStraightLine(amount: real, r: real, n: nat)
    requires amount > 0.0 && r > 0.0 && n > 0
    ensures MonthlyPayment(amount, r, n) * n as real > amount
  {
    PaymentTimesGeometricSum(amount, r, n);
    GeometricSumBelow(1.0 + r, n);
    PowAtLeastOne(1.0 + r, n);
    ScaledBound(MonthlyPayment(amount, r, n), GeometricSum(1.0 + r, n), amount, Pow(1.0 + r, n), n as real);
  }

  /** The exact figures before rounding. */
  datatype LoanFigures = LoanFigures(monthlyPayment: real, totalCost: real, totalInterest: real)

  /**
   * The arithmetic of `calculate_loan` before rounding: total cost is n
   * payments, total interest is cost minus amount; interest is zero exactly at
   * rate zero and positive otherwise.
   */
  function Amortize(request: LoanRequest): (f: LoanFigures)
    requires ValidLoanRequest(request)
    ensures var n := NumberOfPayments(request.durationYears);
      && f.totalCost == f.monthlyPayment * n as real
      && f.totalCost - f.totalInterest == request.amount
      && f.monthlyPayment > 0.0
    ensures request.annualInterestRate == 0.0 ==>
      f.monthlyPayment * NumberOfPayments(request.durationYears) as real == request.amount && f.totalInterest == 0.0
    ensures request.annualInterestRate > 0.0 ==> f.totalInterest > 0.0
  {
    var monthlyRate := MonthlyRate(request.annualInterestRate);
    var n := NumberOfPayments(request.durationYears);
    var monthlyPayment := MonthlyPayment(request.amount, monthlyRate, n);
    var totalCost := monthlyPayment * n as real;
    assert monthlyRate > 0.0 ==> totalCost > request.amount by {
      if monthlyRate > 0.0 {
        PaymentExceedsStraightLine(request.amount, monthlyRate, n);
      }
    }
    LoanFigures(monthlyPayment, totalCost, totalCost - request.amount)
  }

  /**
   * `calculate_loan`: the four outputs are the exact figures rounded to the
   * cent, so each lies within half a cent of its exact value, the rounded cost
   * minus the rounded interest is the rounded amount to within one cent, and
   * an interest-free loan shows zero interest.
   */
  function CalculateLoan(request: LoanRequest): (response: LoanResponse)
    requires ValidLoanRequest(request)
    ensures var f := Amortize(request);
      && -1.0 / 200.0 <= response.loanAmount - request.amount <= 1.0 / 200.0
      && -1.0 / 200.0 <= response.monthlyPayment - f.monthlyPayment <= 1.0 / 200.0
      && -1.0 / 200.0 <= response.totalInterest - f.totalInterest <= 1.0 / 200.0
      && -1.0 / 200.0 <= response.totalCost - f.totalCost <= 1.0 / 200.0
    ensures -1.0 / 100.0 <= response.totalCost - response.totalInterest - response.loanAmount <= 1.0 / 100.0
    ensures request.annualInterestRate == 0.0 ==> response.totalInterest == 0.0
    ensures (response.loanAmount * 100.0).Floor as real == response.loanAmount * 100.0
    ensures (response.monthlyPayment * 100.0).Floor as real == response.monthlyPayment * 100.0
    ensures (response.totalInterest * 100.0).Floor as real == response.totalInterest * 100.0
    ensures (response.totalCost * 100.0).Floor as real == response.totalCost * 100.0
  {
    var f := Amortize(request);
    RoundedDifferenceWithinOneCent(f.totalCost, f.totalInterest, request.amount);
    Round2OfZero();
    LoanResponse(Round2(request.amount), Round2(f.monthlyPayment), Round2(f.totalInterest), Round2(f.totalCost))
  }

  /** The balance still owed after k monthly payments of p at monthly rate r. */
  function Balance(amount: real, r: real, p: real, k: nat): (balance: real)
  {
    if k == 0 then amount else Balance(amount, r, p, k - 1) * (1.0 + r) - p
  }

  /** One month of the closed form: if b r = A r q - p (q - 1) then the next balance satisfies it with (1 + r) q. */
  lemma BalanceStep(amount: real, r: real, p: real, b: real, q: real)
    requires b * r == amount * r * q - p * (q - 1.0)
    ensures (b * (1.0 + r) - p) * r == amount * r * ((1.0 + r) * q) - p * ((1.0 + r) * q - 1.0)
  {
    assert (b * (1.0 + r) - p) * r == (b * r) * (1.0 + r) - p * r;
  }

  /** Closed form of the balance, multiplied through by r. */
  lemma {:induction false} BalanceClosedForm(amount: real, r: real, p: real, k: nat)
    ensures Balance(amount, r, p, k) * r == amount * r * Pow(1.0 + r, k) - p * (Pow(1.0 + r, k) - 1.0)
  {
    if k > 0 {
      var b := Balance(amount, r, p, k - 1);
      var q := Pow(1.0 + r, k - 1);
      assert Balance(amount, r, p, k) == b * (1.0 + r) - p;
      assert Pow(1.0 + r, k) == (1.0 + r) * q;
      BalanceClosedForm(amount, r, p, k - 1);
      BalanceStep(amount, r, p, b, q);
    }
  }

  /** Without interest the balance falls by p each month. */
  lemma {:induction false} BalanceWithoutInterest(amount: real, p: real, k: nat)
    ensures Balance(amount, 0.0, p, k) == amount - k as real * p
  {
    if k > 0 {
      BalanceWithoutInterest(amount, p, k - 1);
    }
  }

  /**
   * The payment the service computes repays the loan exactly: after the n-th
   * payment nothing is owed, whatever the (valid) amount, duration and rate.
   */
  lemma AnnuityRepaysLoan(request: LoanRequest)
    requires ValidLoanRequest(request)
    ensures var r := MonthlyRate(request.annualInterestRate);
      var n := NumberOfPayments(request.durationYears);
      Balance(request.amount, r, Amortize(request).monthlyPayment, n) == 0.0
  {
    var r := MonthlyRate(request.annualInterestRate);
    var n := NumberOfPayments(request.durationYears);
    var p := Amortize(request).monthlyPayment;
    if r == 0.0 {
      BalanceWithoutInterest(request.amount, p, n);
    } else {
      BalanceClosedForm(request.amount, r, p, n);
      assert Balance(request.amount, r, p, n) * r == 0.0;
    }
  }
}
