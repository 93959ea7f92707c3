# Loan simulator and interest-rate service: a Dafny model

This project models the computational core of two small web services used to
simulate home loans:

- **interest-rate-api** computes a borrower's annual interest rate. The rate is
  a base rate plus a modifier for the age category, one for the professional
  category and one for the monthly net income bucket. The result is rounded to
  two decimals. The service also lists both category tables.
- **loan-simulator** has three parts:
  - it turns an amount, a duration in years and an annual rate into a monthly
    payment, a total cost and a total interest (the annuity formula);
  - it stores simulations in a database: validated save, history newest first,
    lookup by id and deletion by id;
  - its web form checks the three inputs on the client side before sending them.

Modelling choices:

- **Rates** are whole numbers of hundredths of a percentage point, so 1.5 % is
  150 and a modifier of -0.1 is -10. Every configured figure is such a
  multiple, so the sum is exact and `round(…, 2)` leaves it unchanged (proved).
- **Incomes and loan figures** are exact reals. Python's `round(x, 2)` is
  `Rounding.Round2`, which rounds to the nearest cent and sends ties to the even
  cent. The loan identities are proved before rounding, and their rounded forms
  within a cent.
- **The rate configuration** is a parameter of `CalculateInterestRate`.
  `RateConfig.Settings` is the module-level `settings`, the only configuration
  the running service reads.
- **The simulation database** is the class `SimulationService.SimulationDatabase`:
  - the table rows, kept as a sequence in insertion order;
  - the counter behind the autoincrement primary key.

  Each service call is one atomic update. The current time is the `now`
  argument of `Save`.
- **`SaveSimulationRequest`, `SimulationHistory` and their parts** are imported
  by the simulation service, but the loan-simulator's `app/models.py` does not
  define them. `SimulationRecords` defines them with the fields the service
  reads and writes. Names and categories are optional strings there: Python's
  `not x` rejects both a missing and an empty string.
- **Form fields** are JavaScript numbers: `undefined`, `null`, NaN, the two
  infinities, or a finite value (`InputValidation.JsNumber`). `validateInput`
  is modelled with JavaScript's truthiness and comparison rules for these values.

Modules, by source file:

| module | file | source |
|---|---|---|
| `Wrappers` | wrappers.dfy | (Option, Result) |
| `RateModels` | rate_models.dfy | interest-rate-api/app/models.py |
| `RateConfig` | rate_config.dfy | interest-rate-api/app/config.py |
| `RateService` | rate_service.dfy | interest-rate-api/app/services/interest_rate_service.py |
| `Rounding` | rounding.dfy | Python's `round(x, 2)` as both services use it |
| `LoanModels` | loan_models.dfy | loan-simulator/app/models.py |
| `LoanService` | loan_service.dfy | loan-simulator/app/services/loan_service.py |
| `Digits` | digits.dfy | zero-padded fields and `str(n)` in the simulation service |
| `Timestamps` | timestamps.dfy | `created_at`, `isoformat()` and `strftime` in the simulation service |
| `SimulationRecords` | simulation_records.dfy | loan-simulator/app/database.py and the records the simulation service builds |
| `SimulationService` | simulation_service.dfy | loan-simulator/app/services/simulation_service.py |
| `InputValidation` | input_validation.dfy | `validateInput` in loan-simulator/static/script.js |

## Model

| member | source | states |
|---|---|---|
| RateModels.AgeCode | interest-rate-api/app/models.py:6-10 | an age category's value is its member name, written in upper-case letters and underscores |
| RateModels.ProfessionalCode | interest-rate-api/app/models.py:22-29 | a professional category's value is its member name, written in upper-case letters and underscores |
| RateModels.ParseAgeCategory | interest-rate-api/app/models.py:6-10 | `AgeCategory(s)` yields a member only if that member's code is `s` |
| RateModels.ParseProfessionalCategory | interest-rate-api/app/models.py:22-29 | `ProfessionalCategory(s)` yields a member only if that member's code is `s` |
| RateModels.AgeCodeRoundTrip | interest-rate-api/app/models.py:6-10 | a code parses to a member exactly when it is that member's code, so code and member round-trip |
| RateModels.ProfessionalCodeRoundTrip | interest-rate-api/app/models.py:22-29 | the same round trip for the seven professional codes |
| RateModels.CodesAreDistinct | interest-rate-api/app/models.py:6-10 | different members of either enumeration have different codes |
| RateModels.EnumerationsAreComplete | interest-rate-api/app/models.py:12-19 | every member is in the declaration-order listing, and each appears there once (`get_info` is total) |
| RateModels.AgeInfoOf | interest-rate-api/app/models.py:12-19 | every age modifier lies in [-0.10, 0.30] |
| RateModels.ProfessionalInfoOf | interest-rate-api/app/models.py:31-41 | every professional modifier lies in [-0.30, 0.80] |
| RateModels.ModifierTables | interest-rate-api/app/models.py:14-39 | the fixed modifiers: YOUNG_ADULT 0.2, ADULT 0.0, MIDDLE_AGED -0.1, SENIOR 0.3; EMPLOYEE 0.0, EXECUTIVE -0.2, CIVIL_SERVANT -0.3, FREELANCER 0.4, RETIRED 0.1, STUDENT 0.5, UNEMPLOYED 0.8 |
| RateModels.NewInterestRateRequest | interest-rate-api/app/models.py:51-54 | a request is built exactly when both codes parse and the income is strictly positive; the built request keeps the codes and the income |
| RateConfig.DefaultSettingsWellOrdered | interest-rate-api/app/config.py:5-20 | default base rate 1.5; breakpoints 2000 < 4000 < 8000; modifiers 0.3 >= 0.0 >= -0.1 >= -0.2 |
| RateService.IncomeModifier | interest-rate-api/app/services/interest_rate_service.py:53-63 | each of the four left-closed, right-open income buckets selects its own modifier |
| RateService.IncomeBucketMonotone | interest-rate-api/app/services/interest_rate_service.py:56-63 | a larger income never falls in a lower bucket, whatever the breakpoints |
| RateService.IncomeModifierMonotone | interest-rate-api/app/services/interest_rate_service.py:56-63 | with non-increasing bucket modifiers (the defaults among them), the income modifier is non-increasing in the income |
| RateService.DefaultIncomeBoundaries | interest-rate-api/app/services/interest_rate_service.py:56-63 | a breakpoint belongs to the upper bucket: 1999.99 gives 0.3, 2000 gives 0.0, 4000 gives -0.1 and 8000 gives -0.2 |
| RateService.CalculateInterestRate | interest-rate-api/app/services/interest_rate_service.py:8-25 | the rounded rate is exactly base + age + professional + income modifier; the response echoes each term, both categories and the income |
| RateService.DefaultRateBounds | interest-rate-api/app/services/interest_rate_service.py:9-17 | with the default settings every rate lies in [0.90, 2.90], and both ends are reached |
| RateService.DefaultRateExamples | interest-rate-api/app/services/interest_rate_service.py:9-17 | ADULT/EMPLOYEE/3500 gives 1.50; YOUNG_ADULT/STUDENT/1500 gives 2.50 |
| RateService.ResponseExampleInconsistent | interest-rate-api/app/models.py:76-88 | the documented response (ADULT with age modifier 0.2, rate 1.7) is not what the service answers for ADULT; it is the YOUNG_ADULT answer |
| RateService.GetAgeCategories | interest-rate-api/app/services/interest_rate_service.py:27-37 | four entries in declaration order; each entry's name parses back to its category, and it carries that category's description, age range and modifier |
| RateService.GetProfessionalCategories | interest-rate-api/app/services/interest_rate_service.py:39-48 | seven entries in declaration order; each carries its category's display name, description and modifier, and no age range |
| Rounding.RoundCents | interest-rate-api/app/services/interest_rate_service.py:17 | `round(x, 2)` in cents is within half a cent of x, and is x itself when x is a whole number of cents |
| Rounding.Round2 | loan-simulator/app/services/loan_service.py:23-28 | the rounded value is within half a cent of x and is a whole number of cents |
| Rounding.RoundCentsOfHundredths | interest-rate-api/app/services/interest_rate_service.py:17 | rounding a whole number of hundredths gives it back |
| Rounding.RoundedDifferenceWithinOneCent | loan-simulator/app/services/loan_service.py:21-27 | if cost - interest = amount holds exactly, the rounded values satisfy it to within one cent |
| LoanModels.ResponseExampleIdentities | loan-simulator/app/models.py:11-33 | the request example is valid; in the response example cost = amount + interest and cost = payment x 240 |
| LoanService.MonthlyRate | loan-simulator/app/services/loan_service.py:8 | the monthly rate times 1200 is the annual rate in percent |
| LoanService.NumberOfPayments | loan-simulator/app/services/loan_service.py:9 | the number of payments is a whole number of years of twelve monthly payments: a multiple of 12 whose twelfth is the duration |
| LoanService.Pow | loan-simulator/app/services/loan_service.py:15-17 | `**` with a natural exponent; a positive base gives a positive power |
| LoanService.PowAtLeastOne | loan-simulator/app/services/loan_service.py:15-17 | (1 + r)^n >= 1 for r >= 0 |
| LoanService.GeometricSumIdentity | loan-simulator/app/services/loan_service.py:15-17 | (x - 1)(1 + x + ... + x^(n-1)) = x^n - 1 |
| LoanService.Bernoulli | loan-simulator/app/services/loan_service.py:17 | Bernoulli's inequality (1 + r)^n >= 1 + n r for r >= 0 |
| LoanService.AnnuityDenominatorPositive | loan-simulator/app/services/loan_service.py:16-18 | for r > 0 and n >= 1 the denominator (1 + r)^n - 1 is at least n r > 0, so in exact arithmetic the division is defined (floating point is not covered, see Left out) |
| LoanService.MonthlyPayment | loan-simulator/app/services/loan_service.py:11-18 | at rate zero n payments make up the amount; otherwise payment x ((1 + r)^n - 1) = amount x r x (1 + r)^n; the payment is positive |
| LoanService.PaymentTimesGeometricSum | loan-simulator/app/services/loan_service.py:14-18 | at a positive rate, payment x (1 + (1+r) + ... + (1+r)^(n-1)) = amount x (1 + r)^n |
| LoanService.GeometricSumBelow | loan-simulator/app/services/loan_service.py:14-18 | for x > 1 the n-term geometric sum is below n x^n |
| LoanService.PaymentExceedsStraightLine | loan-simulator/app/services/loan_service.py:14-21 | at a positive rate the payment exceeds amount / n, so n payments cost more than the amount |
| LoanService.Amortize | loan-simulator/app/services/loan_service.py:8-21 | before rounding: cost = payment x n; cost - interest = amount; the payment is positive; interest is exactly 0 at rate zero and positive at any positive rate |
| LoanService.CalculateLoan | loan-simulator/app/services/loan_service.py:7-28 | each output is within half a cent of its exact figure, the amount is echoed, rounded cost - interest - amount is within one cent of 0, an interest-free loan shows 0.00 interest, and all four outputs are whole numbers of cents |
| LoanService.BalanceClosedForm | loan-simulator/app/services/loan_service.py:13-18 | the balance after k payments, times r, is A r (1 + r)^k - p ((1 + r)^k - 1) |
| LoanService.BalanceWithoutInterest | loan-simulator/app/services/loan_service.py:11-12 | without interest the balance after k payments is A - k p |
| LoanService.AnnuityRepaysLoan | loan-simulator/app/services/loan_service.py:8-18 | the computed payment, paid n times, leaves a balance of exactly 0 for every valid request |
| Timestamps.TicksFollowTime | loan-simulator/app/database.py:37 | ordering timestamps by their tick count is chronological ordering, and equal ticks mean equal timestamps |
| Digits.PadDigits | loan-simulator/app/services/simulation_service.py:73 | a zero-padded field has exactly the requested width and only decimal digits |
| Digits.ReadPadDigits | loan-simulator/app/services/simulation_service.py:73 | reading a zero-padded number gives the number back |
| Timestamps.FormatCreatedAt | loan-simulator/app/services/simulation_service.py:73 | `dd/mm/YYYY à HH:MM` is 18 characters long |
| Timestamps.FormatCreatedAtReadsBack | loan-simulator/app/services/simulation_service.py:73 | the displayed string reads back as exactly the day, month, year, hour and minute of the timestamp |
| Timestamps.IsoFormat | loan-simulator/app/services/simulation_service.py:71 | `isoformat()` is 19 characters long, or 26 when the microseconds are not zero |
| Timestamps.IsoFormatReadsBack | loan-simulator/app/services/simulation_service.py:71 | the whole timestamp can be read back from its `isoformat()` |
| Timestamps.IsoFormatInjective | loan-simulator/app/services/simulation_service.py:71 | different timestamps have different `isoformat()` strings |
| SimulationRecords.ClientName | loan-simulator/app/services/simulation_service.py:72 | the client name is the first name, one space, then the last name |
| SimulationRecords.ClientNameSplitsBack | loan-simulator/app/services/simulation_service.py:72 | when the first name has no space, splitting the client name at its first space gives back both names |
| SimulationRecords.ToHistory | loan-simulator/app/services/simulation_service.py:58-74 | a history entry carries every column of its record unchanged, and its client name is the record's first and last name |
| SimulationRecords.ToHistoryDates | loan-simulator/app/services/simulation_service.py:71-73 | the entry's ISO date is 19 characters long, or 26 when the microseconds are not zero, and reads back to the record's `created_at` in full; its display date reads back to it to the minute |
| SimulationService.CheckSaveRequest | loan-simulator/app/services/simulation_service.py:18-22 | names are checked first, then categories: names error iff a name is missing or empty; categories error iff the names are present and a category is missing or empty; no error iff all four are present |
| SimulationService.ErrorMessage | loan-simulator/app/services/simulation_service.py:18-22 | the two refused saves have fixed sentences (lines 19 and 22); a missing id (lines 86 and 114) gives `Aucune simulation trouvée avec l'ID ` followed by a decimal number that reads back as the id |
| SimulationService.ErrorMessagesDistinct | loan-simulator/app/services/simulation_service.py:84-86 | different errors have different messages, including not-found errors for different ids |
| Digits.ReadNatString | loan-simulator/app/services/simulation_service.py:86 | the decimal digits of a natural number read back as that number |
| Digits.IntStringReadsBack | loan-simulator/app/services/simulation_service.py:86 | `str(n)` of any integer, sign included, reads back as n |
| SimulationService.NewRecord | loan-simulator/app/services/simulation_service.py:25-38 | the new row takes each column from its own field of the request or the computed figures, the store's id and `now` as `created_at`; with a valid clock value it is a complete record |
| SimulationService.HistoryBound | loan-simulator/app/services/simulation_service.py:49-52 | `LIMIT` passes min(limit, rows) rows, or every row for a negative limit |
| SimulationService.FindById | loan-simulator/app/services/simulation_service.py:81-83 | a found record is in the table and carries the requested id |
| SimulationService.FindByIdFindsFirst | loan-simulator/app/services/simulation_service.py:81-86 | a lookup fails exactly when no record has the id; otherwise it returns the (first) record with that id |
| SimulationService.RemoveIdAt | loan-simulator/app/services/simulation_service.py:116-117 | with distinct ids, removing a record's id cuts out exactly that record and keeps the others in order |
| SimulationService.RemoveIdFinds | loan-simulator/app/services/simulation_service.py:109-117 | after deleting an id, a lookup of it fails (so a second delete fails), and every other lookup is unchanged |
| SimulationService.FindAfterAppend | loan-simulator/app/services/simulation_service.py:40-47 | a record saved with an id above all others is found by its id, and every other lookup is unchanged |
| SimulationService.NewestFirstIsChronological | loan-simulator/app/services/simulation_service.py:52 | in a newest-first list no record was created before one that follows it |
| SimulationService.IndexOfNewest | loan-simulator/app/services/simulation_service.py:52 | returns the position of a record that no other record is newer than |
| SimulationService.SelectNewest | loan-simulator/app/services/simulation_service.py:52 | `ORDER BY created_at DESC LIMIT count`: count records, each used at most as often as stored, newest first, none left out newer than one taken |
| SimulationService.ToHistories | loan-simulator/app/services/simulation_service.py:56-76 | the result holds the history entry of each selected row, in the order of the selection |
| SimulationService.SimulationDatabase.constructor | loan-simulator/app/database.py:22-37 | an empty table whose first id will be 1 |
| SimulationService.SimulationDatabase.Save | loan-simulator/app/services/simulation_service.py:11-47 | a refused request returns the first failing check and changes nothing; otherwise the request's fields and `now` are stored under the counter's id, which is returned, and the counter advances; ids stay unique and increasing |
| SimulationService.SimulationDatabase.History | loan-simulator/app/services/simulation_service.py:49-76 | the result is the history entries, in order, of a newest-first selection of min(limit, rows) stored records |
| SimulationService.SimulationDatabase.DefaultHistory | loan-simulator/app/services/simulation_service.py:49-52 | without a limit the default of 50 applies: min(50, rows) entries, of a newest-first selection of stored records |
| SimulationService.SimulationDatabase.GetById | loan-simulator/app/services/simulation_service.py:78-104 | fails with `NotFound(id)` when no record has the id, otherwise returns that record's history entry |
| SimulationService.SimulationDatabase.Delete | loan-simulator/app/services/simulation_service.py:106-117 | fails with `NotFound(id)` and changes nothing when the id is absent; otherwise removes exactly that record; the counter is untouched |
| InputValidation.ValidateInput | loan-simulator/static/script.js:46-65 | valid iff no errors; amount error iff the amount is not > 0 (missing, zero, negative, NaN or -Infinity); the same for the duration; rate error iff the rate is null, undefined or negative, so 0 and NaN pass; errors come in the order amount, duration, rate, at most once each |
| InputValidation.ToNumber | loan-simulator/static/script.js:49-57 | JavaScript's ToNumber: `null` becomes 0, `undefined` becomes NaN, numbers stay as they are |
| InputValidation.Truthy | loan-simulator/static/script.js:49-53 | `!v` holds exactly for `undefined`, `null`, NaN and 0 |
| InputValidation.AtMostZero | loan-simulator/static/script.js:49-53 | `v <= 0` compares ToNumber(v) with 0, so `null` passes the test and `undefined` and NaN fail it |
| InputValidation.BelowZero | loan-simulator/static/script.js:57 | `v < 0` with the same conversion; it implies `v <= 0` |
| InputValidation.FieldTests | loan-simulator/static/script.js:49-57 | the amount and duration test (`!v` or `v <= 0`) refuses exactly what is not greater than zero; the rate test refuses exactly missing and negative values; NaN fails the first test and passes the second |
| InputValidation.FormAgreesWithService | loan-simulator/app/models.py:5-7 | on finite numbers the form accepts exactly the requests the loan service's field constraints accept |

## Left out

- HTTP plumbing is not part of this model: the FastAPI routers, the mapping of exceptions to HTTP status codes, application start-up, CORS and static file serving.
- The HTTP client from the loan simulator to the rate service is not part of this model, and neither are its time-outs. That client also reads a `code` key that `CategoryInfo` never provides.
- The SQLAlchemy engine, sessions and table creation are not part of this model.
- Asynchronous execution is not modelled: `commit` and `refresh` together are one atomic update of `SimulationDatabase`.
- The script's DOM handling, `fetch` calls and currency formatting are not part of this model; only `validateInput` is.
- `get_current_config` only returns `settings`. It is represented by the constant `RateConfig.Settings` rather than by a separate operation.
- IEEE-754 floating point is not modelled. Amounts, incomes and loan figures are exact reals, and rates are exact hundredths.
  - `monthly_rate == 0` is therefore exact equality with zero. In floating point, a tiny positive rate can underflow to zero.
  - LoanService.AnnuityDenominatorPositive: the denominator is positive only in exact arithmetic. In double precision a tiny positive rate (1e-15 %, say) gives `1 + monthly_rate == 1.0`, so the denominator at loan_service.py:17 is 0.0 and Python raises `ZeroDivisionError`. The model does not capture this failure.
  - LoanService.CalculateLoan: `duration_years` has no upper bound, so `(1 + monthly_rate) ** number_of_payments` can exceed the double range and raise `OverflowError`. The model's reals never overflow.
  - A rounded float can differ from the exact rounding at a tie.
- RateService.CalculateInterestRate: a configured modifier or base rate that is not a whole number of hundredths cannot be expressed. All defaults are whole hundredths.
- SimulationService.SimulationDatabase.Save: ids come from a counter that never goes back. SQLite's `INTEGER PRIMARY KEY` without the `AUTOINCREMENT` keyword can reuse the largest id once that row is deleted. The model keeps the counter that the `autoincrement=True` declaration announces.
- SimulationService.SelectNewest: rows with equal `created_at` may come in any order, as in SQL. The model commits to no tie order.
- Timestamps.ValidDateTime: the number of days in each month is not checked; every month allows days 1 to 31.
- Timestamps.FormatCreatedAt: `%Y` is modelled as four zero-padded digits. The C library may print years below 1000 with fewer digits.
- The clock (`datetime.utcnow()`) is not modelled; its value is the `now` argument of `Save`.
- LoanService.CalculateLoan: the documented payment 1289.25 for 250000 euros over 20 years at 1.7 % is not the formula's value, which is about 1229.5. Only the example's internal identities are proved (`LoanModels.ResponseExampleIdentities`); the gap with the formula is not.
- The loan-simulator's HTTP response for a failed save or lookup is not part of this model. The service methods return `Failure(...)` where Python raises `ValueError`.

Two documentation examples disagree with the code, and the model follows the code:
- the interest-rate response example gives ADULT a 0.2 age modifier (see `RateService.ResponseExampleInconsistent`);
- the loan response example's monthly payment does not follow from the formula.
