/**
 * The interest-rate service's categories and request
 * (interest-rate-api/app/models.py).
 *
 * Every rate figure is a whole number of hundredths of a percentage point:
 * a modifier of 0.2 is 20, one of -0.1 is -10.
 */
module RateModels {
  import opened Wrappers

  /** `AgeCategory`, in declaration order. */
  datatype AgeCategory = YoungAdult | Adult | MiddleAged | Senior

  /** `ProfessionalCategory`, in declaration order. */
  datatype ProfessionalCategory =
    Employee | Executive | CivilServant | Freelancer | Retired | Student | Unemployed

  /** The entry `AgeCategory.get_info` returns. */
  datatype AgeInfo = AgeInfo(ageRange: string, description: string, rateModifier: int)

  /** The entry `ProfessionalCategory.get_info` returns. */
  datatype ProfessionalInfo = ProfessionalInfo(name: string, description: string, rateModifier: int)

  /** `CategoryInfo`: what the two category listings return; `ageRange` is optional. */
  datatype CategoryInfo = CategoryInfo(name: string, description: string, ageRange: Option<string>, rateModifier: int)

  /** The enumerations in declaration order, as Python's `for category in AgeCategory` visits them. */
  const AllAgeCategories: seq<AgeCategory> := [YoungAdult, Adult, MiddleAged, Senior]
  const AllProfessionalCategories: seq<ProfessionalCategory> :=
    [Employee, Executive, CivilServant, Freelancer, Retired, Student, Unemployed]

  /** A Python enum member name: upper-case letters and underscores, not empty. */
  predicate MemberName(s: string)
  {
    |s| > 0 && forall i :: 0 <= i < |s| ==> 'A' <= s[i] <= 'Z' || s[i] == '_'
  }

  /** The string value of an age category: its member name. */
  function AgeCode(c: AgeCategory): (code: string)
    ensures MemberName(code)
  {
    match c
    case YoungAdult => "YOUNG_ADULT"
    case Adult => "ADULT"
    case MiddleAged => "MIDDLE_AGED"
    case Senior => "SENIOR"
  }

  /** The string value of a professional category: its member name. */
  function ProfessionalCode(c: ProfessionalCategory): (code: string)
    ensures MemberName(code)
  {
    match c
    case Employee => "EMPLOYEE"
    case Executive => "EXECUTIVE"
    case CivilServant => "CIVIL_SERVANT"
    case Freelancer => "FREELANCER"
    case Retired => "RETIRED"
    case Student => "STUDENT"
    case Unemployed => "UNEMPLOYED"
  }

  /** `AgeCategory(s)`: the member whose value is `s`, if any. */
  function ParseAgeCategory(s: string): (r: Option<AgeCategory>)
    ensures r.Some? ==> AgeCode(r.value) == s
  {
    if s == "YOUNG_ADULT" then Some(YoungAdult)
    else if s == "ADULT" then Some(Adult)
    else if s == "MIDDLE_AGED" then Some(MiddleAged)
    else if s == "SENIOR" then Some(Senior)
    else None
  }

  /** `ProfessionalCategory(s)`: the member whose value is `s`, if any. */
  function ParseProfessionalCategory(s: string): (r: Option<ProfessionalCategory>)
    ensures r.Some? ==> ProfessionalCode(r.value) == s
  {
    if s == "EMPLOYEE" then Some(Employee)
    else if s == "EXECUTIVE" then Some(Executive)
    else if s == "CIVIL_SERVANT" then Some(CivilServant)
    else if s == "FREELANCER" then Some(Freelancer)
    else if s == "RETIRED" then Some(Retired)
    else if s == "STUDENT" then Some(Student)
    else if s == "UNEMPLOYED" then Some(Unemployed)
    else None
  }

  /** `AgeCategory.get_info`: a fixed table; every modifier lies in [-0.1, 0.3]. */
  function AgeInfoOf(c: AgeCategory): (info: AgeInfo)
    ensures -10 <= info.rateModifier <= 30
  {
    match c
    case YoungAdult => AgeInfo("18-30 ans", "Jeune adulte", 20)
    case Adult => AgeInfo("31-45 ans", "Adulte", 0)
    case MiddleAged => AgeInfo("46-60 ans", "Âge moyen", -10)
    case Senior => AgeInfo("61+ ans", "Senior", 30)
  }

  /** `ProfessionalCategory.get_info`: a fixed table; every modifier lies in [-0.3, 0.8]. */
  function ProfessionalInfoOf(c: ProfessionalCategory): (info: ProfessionalInfo)
    ensures -30 <= info.rateModifier <= 80
  {
    match c
    case Employee => ProfessionalInfo("Salarié CDI", "Employé en contrat à durée indéterminée", 0)
    case Executive => ProfessionalInfo("Cadre", "Cadre dirigeant ou ingénieur", -20)
    case CivilServant => ProfessionalInfo("Fonctionnaire", "Agent de la fonction publique", -30)
    case Freelancer => ProfessionalInfo("Indépendant", "Travailleur indépendant ou freelance", 40)
    case Retired => ProfessionalInfo("Retraité", "Personne à la retraite", 10)
    case Student => ProfessionalInfo("Étudiant", "Étudiant ou apprenti", 50)
    case Unemployed => ProfessionalInfo("Sans emploi", "Personne sans activité professionnelle", 80)
  }

  /** The modifiers of both tables, in hundredths. */
  lemma ModifierTables()
    ensures AgeInfoOf(YoungAdult).rateModifier == 20 && AgeInfoOf(Adult).rateModifier == 0
    ensures AgeInfoOf(MiddleAged).rateModifier == -10 && AgeInfoOf(Senior).rateModifier == 30
    ensures ProfessionalInfoOf(Employee).rateModifier == 0 && ProfessionalInfoOf(Executive).rateModifier == -20
    ensures ProfessionalInfoOf(CivilServant).rateModifier == -30 && ProfessionalInfoOf(Freelancer).rateModifier == 40
    ensures ProfessionalInfoOf(Retired).rateModifier == 10 && ProfessionalInfoOf(Student).rateModifier == 50
    ensures ProfessionalInfoOf(Unemployed).rateModifier == 80
  {
  }

  /** Code and parsing are inverse: every member's value parses back to it, and only values do. */
  lemma AgeCodeRoundTrip(c: AgeCategory, s: string)
    ensures ParseAgeCategory(AgeCode(c)) == Some(c)
    ensures ParseAgeCategory(s) == Some(c) <==> s == AgeCode(c)
  {
  }

  /** Code and parsing are inverse for professional categories. */
  lemma ProfessionalCodeRoundTrip(c: ProfessionalCategory, s: string)
    ensures ParseProfessionalCategory(ProfessionalCode(c)) == Some(c)
    ensures ParseProfessionalCategory(s) == Some(c) <==> s == ProfessionalCode(c)
  {
  }

  /** The codes are pairwise distinct, so a code names exactly one category. */
  lemma CodesAreDistinct(a: AgeCategory, b: AgeCategory, p: ProfessionalCategory, q: ProfessionalCategory)
    ensures AgeCode(a) == AgeCode(b) ==> a == b
    ensures ProfessionalCode(p) == ProfessionalCode(q) ==> p == q
  {
    AgeCodeRoundTrip(a, AgeCode(b));
    ProfessionalCodeRoundTrip(p, ProfessionalCode(q));
  }

  /** Iterating over either enumeration visits every member exactly once. */
  lemma EnumerationsAreComplete(a: AgeCategory, p: ProfessionalCategory)
    ensures a in AllAgeCategories && p in AllProfessionalCategories
    ensures |AllAgeCategories| == 4 && |AllProfessionalCategories| == 7
    ensures forall i, j :: 0 <= i < j < |AllAgeCategories| ==> AllAgeCategories[i] != AllAgeCategories[j]
    ensures forall i, j :: 0 <= i < j < |AllProfessionalCategories| ==>
      AllProfessionalCategories[i] != AllProfessionalCategories[j]
  {
  }

  /** `InterestRateRequest`, once validated. */
  datatype InterestRateRequest = InterestRateRequest(
    ageCategory: AgeCategory,
    professionalCategory: ProfessionalCategory,
    monthlyNetIncome: real)

  /** Why validating an `InterestRateRequest` fails. */
  datatype RequestError = InvalidAgeCategory(code: string) | InvalidProfessionalCategory(code: string) | IncomeNotPositive

  /**
   * Validation of an incoming `InterestRateRequest`: both codes must name a
   * member of their enumeration and `monthly_net_income` must be `gt=0`.
   */
  function NewInterestRateRequest(ageCode: string, professionalCode: string, income: real)
    : (r: Result<InterestRateRequest, RequestError>)
    ensures r.Success? <==>
      ParseAgeCategory(ageCode).Some? && ParseProfessionalCategory(professionalCode).Some? && income > 0.0
    ensures r.Success? ==>
      AgeCode(r.value.ageCategory) == ageCode && ProfessionalCode(r.value.professionalCategory) == professionalCode
      && r.value.monthlyNetIncome == income
  {
    match ParseAgeCategory(ageCode)
    case None => Failure(InvalidAgeCategory(ageCode))
    case Some(age) =>
      match ParseProfessionalCategory(professionalCode)
      case None => Failure(InvalidProfessionalCategory(professionalCode))
      case Some(profession) =>
        if income <= 0.0 then Failure(IncomeNotPositive)
        else Success(InterestRateRequest(age, profession, income))
  }
}
