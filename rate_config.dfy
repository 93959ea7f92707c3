/**
 * The interest-rate service's configuration (interest-rate-api/app/config.py).
 * Breakpoints are euros per month; modifiers and the base rate are hundredths
 * of a percentage point.
 */
module RateConfig {

  /** `IncomeThresholds`: three breakpoints and the four bucket modifiers. */
  datatype IncomeThresholds = IncomeThresholds(
    low: real, medium: real, high: real,
    lowModifier: int, mediumModifier: int, highModifier: int, veryHighModifier: int)

  /** `InterestRateConfig`. */
  datatype InterestRateConfig = InterestRateConfig(baseRate: int, incomeThresholds: IncomeThresholds)

  /** `IncomeThresholds()` with its default field values. */
  const DefaultIncomeThresholds: IncomeThresholds :=
    IncomeThresholds(2000.0, 4000.0, 8000.0, 30, 0, -10, -20)

  /** The module-level `settings = InterestRateConfig()`, the one configuration the service reads. */
  const Settings: InterestRateConfig := InterestRateConfig(150, DefaultIncomeThresholds)

  /** The breakpoints are strictly increasing. */
  predicate BreakpointsIncreasing(t: IncomeThresholds)
  {
    t.low < t.medium < t.high
  }

  /** A higher income bucket never carries a higher modifier. */
  predicate ModifiersNonIncreasing(t: IncomeThresholds)
  {
    t.lowModifier >= t.mediumModifier >= t.highModifier >= t.veryHighModifier
  }

  /** The defaults: base rate 1.5, breakpoints 2000 < 4000 < 8000, modifiers 0.3 >= 0.0 >= -0.1 >= -0.2. */
  lemma DefaultSettingsWellOrdered()
    ensures Settings.baseRate == 150
    ensures BreakpointsIncreasing(Settings.incomeThresholds)
    ensures ModifiersNonIncreasing(Settings.incomeThresholds)
  {
  }
}
