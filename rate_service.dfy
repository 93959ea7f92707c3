/**
 * `InterestRateCalculationService` (interest-rate-api/app/services/interest_rate_service.py).
 * The configuration the service reads from `settings` is passed in as `cfg`;
 * `RateConfig.Settings` is the one the running service uses.
 */
module RateService {
  import opened Wrappers
  import opened Rounding
  import opened RateModels
  import opened RateConfig

  /** `InterestRateResponse`: every rate figure in hundredths of a percentage point. */
  datatype InterestRateResponse = InterestRateResponse(
    annualInterestRate: int,
    baseRate: int,
    ageModifier: int,
    professionalModifier: int,
    incomeModifier: int,
    ageCategory: AgeCategory,
    professionalCategory: ProfessionalCategory,
    monthlyNetIncome: real)

  /** Which of the four left-closed, right-open buckets an income falls in (0 to 3). */
  function IncomeBucket(t: IncomeThresholds, income: real): (b: nat)
    ensures b <= 3
  {
    if income < t.low then 0
    else if income < t.medium then 1
    else if income < t.high then 2
    else 3
  }

  /**
   * `_calculate_income_modifier`: the first breakpoint the income lies strictly
   * below selects its modifier; an income at a breakpoint belongs to the bucket above.
   */
  function IncomeModifier(t: IncomeThresholds, income: real): (m: int)
    ensures income < t.low ==> m == t.lowModifier
    ensures t.low <= income < t.medium ==> m == t.mediumModifier
    ensures t.low <= income && t.medium <= income < t.high ==> m == t.highModifier
    ensures t.low <= income && t.medium <= income && t.high <= income ==> m == t.veryHighModifier
  {
    if income < t.low then t.lowModifier
    else if income < t.medium then t.mediumModifier
    else if income < t.high then t.highModifier
    else t.veryHighModifier
  }

  /** A larger income never lands in a lower bucket, whatever the breakpoints. */
  lemma IncomeBucketMonotone(t: IncomeThresholds, x: real, y: real)
    requires x <= y
    ensures IncomeBucket(t, x) <= IncomeBucket(t, y)
  {
  }

  /**
   * With modifiers that do not increase from bucket to bucket (the defaults among
   * them), the income modifier is non-increasing in the income.
   */
  lemma IncomeModifierMonotone(t: IncomeThresholds, x: real, y: real)
    requires ModifiersNonIncreasing(t)
    requires x <= y
    ensures IncomeModifier(t, x) >= IncomeModifier(t, y)
  {
    IncomeBucketMonotone(t, x, y);
  }

  /** The boundary cases under the default thresholds. */
  lemma DefaultIncomeBoundaries()
    ensures IncomeModifier(DefaultIncomeThresholds, 1999.99) == 30
    ensures IncomeModifier(DefaultIncomeThresholds, 2000.0) == 0
    ensures IncomeModifier(DefaultIncomeThresholds, 3999.99) == 0
    ensures IncomeModifier(DefaultIncomeThresholds, 4000.0) == -10
    ensures IncomeModifier(DefaultIncomeThresholds, 7999.99) == -10
    ensures IncomeModifier(DefaultIncomeThresholds, 8000.0) == -20
  {
  }

  /**
   * `calculate_interest_rate`: `round(base + age + professional + income, 2)`.
   * All four terms are whole hundredths, so the rounding is exact and the rate is
   * their sum; the response echoes the terms, both categories and the income.
   */
  function CalculateInterestRate(cfg: InterestRateConfig, request: InterestRateRequest)
    : (r: InterestRateResponse)
    ensures r.annualInterestRate == r.baseRate + r.ageModifier + r.professionalModifier + r.incomeModifier
    ensures r.baseRate == cfg.baseRate
    ensures r.ageModifier == AgeInfoOf(request.ageCategory).rateModifier
    ensures r.professionalModifier == ProfessionalInfoOf(request.professionalCategory).rateModifier
    ensures r.incomeModifier == IncomeModifier(cfg.incomeThresholds, request.monthlyNetIncome)
    ensures r.ageCategory == request.ageCategory && r.professionalCategory == request.professionalCategory
    ensures r.monthlyNetIncome == request.monthlyNetIncome
  {
    var baseRate := cfg.baseRate;
    var ageModifier := AgeInfoOf(request.ageCategory).rateModifier;
    var professionalModifier := ProfessionalInfoOf(request.professionalCategory).rateModifier;
    var incomeModifier := IncomeModifier(cfg.incomeThresholds, request.monthlyNetIncome);
    var finalRate := (baseRate + ageModifier + professionalModifier + incomeModifier) as real / 100.0;
    RoundCentsOfHundredths(baseRate + ageModifier + professionalModifier + incomeModifier);
    InterestRateResponse(
      RoundCents(finalRate), baseRate, ageModifier, professionalModifier, incomeModifier,
      request.ageCategory, request.professionalCategory, request.monthlyNetIncome)
  }

  /** Under the default settings every rate lies in [0.90, 2.90] and both ends are reached. */
  lemma DefaultRateBounds(request: InterestRateRequest)
    ensures 90 <= CalculateInterestRate(Settings, request).annualInterestRate <= 290
    ensures CalculateInterestRate(Settings, InterestRateRequest(MiddleAged, CivilServant, 8000.0)).annualInterestRate == 90
    ensures CalculateInterestRate(Settings, InterestRateRequest(Senior, Unemployed, 1000.0)).annualInterestRate == 290
  {
    var m := IncomeModifier(DefaultIncomeThresholds, request.monthlyNetIncome);
    assert -20 <= m <= 30;
  }

  /** ADULT / EMPLOYEE / 3500 gives 1.50; YOUNG_ADULT / STUDENT / 1500 gives 2.50. */
  lemma DefaultRateExamples()
    ensures CalculateInterestRate(Settings, InterestRateRequest(Adult, Employee, 3500.0)).annualInterestRate == 150
    ensures CalculateInterestRate(Settings, InterestRateRequest(YoungAdult, Student, 1500.0)).annualInterestRate == 250
  {
  }

  /** The documented response example of `InterestRateResponse`. */
  const ResponseExample: InterestRateResponse :=
    InterestRateResponse(170, 150, 20, 0, 0, Adult, Employee, 3500.0)

  /**
   * The documented example is not a response the service can give: ADULT carries
   * modifier 0.0, not 0.2. The same figures with YOUNG_ADULT are exactly the
   * service's answer.
   */
  lemma ResponseExampleInconsistent()
    ensures CalculateInterestRate(Settings, InterestRateRequest(Adult, Employee, 3500.0)) != ResponseExample
    ensures CalculateInterestRate(Settings, InterestRateRequest(YoungAdult, Employee, 3500.0))
      == ResponseExample.(ageCategory := YoungAdult)
  {
  }

  /** `get_age_categories`: one entry per member in declaration order, named by its code, with its age range. */
  method GetAgeCategories() returns (categories: seq<CategoryInfo>)
    ensures |categories| == |AllAgeCategories|
    ensures forall i :: 0 <= i < |categories| ==>
      var info := AgeInfoOf(AllAgeCategories[i]);
      && ParseAgeCategory(categories[i].name) == Some(AllAgeCategories[i])
      && categories[i].description == info.description
      && categories[i].ageRange == Some(info.ageRange)
      && categories[i].rateModifier == info.rateModifier
  {
    categories := [];
    for k := 0 to |AllAgeCategories|
      invariant |categories| == k
      invariant forall i :: 0 <= i < k ==>
        var info := AgeInfoOf(AllAgeCategories[i]);
        && ParseAgeCategory(categories[i].name) == Some(AllAgeCategories[i])
        && categories[i].description == info.description
        && categories[i].ageRange == Some(info.ageRange)
        && categories[i].rateModifier == info.rateModifier
    {
      var category := AllAgeCategories[k];
      var info := AgeInfoOf(category);
      AgeCodeRoundTrip(category, AgeCode(category));
      categories := categories + [CategoryInfo(AgeCode(category), info.description, Some(info.ageRange), info.rateModifier)];
    }
  }

  /** `get_professional_categories`: one entry per member in declaration order, named by its display name, no age range. */
  method GetProfessionalCategories() returns (categories: seq<CategoryInfo>)
    ensures |categories| == |AllProfessionalCategories|
    ensures forall i :: 0 <= i < |categories| ==>
      var info := ProfessionalInfoOf(AllProfessionalCategories[i]);
      && categories[i].name == info.name
      && categories[i].description == info.description
      && categories[i].ageRange == None
      && categories[i].rateModifier == info.rateModifier
  {
    categories := [];
    for k := 0 to |AllProfessionalCategories|
      invariant |categories| == k
      invariant forall i :: 0 <= i < k ==>
        var info := ProfessionalInfoOf(AllProfessionalCategories[i]);
        && categories[i].name == info.name
        && categories[i].description == info.description
        && categories[i].ageRange == None
        && categories[i].rateModifier == info.rateModifier
    {
      var info := ProfessionalInfoOf(AllProfessionalCategories[k]);
      categories := categories + [CategoryInfo(info.name, info.description, None, info.rateModifier)];
    }
  }
}
