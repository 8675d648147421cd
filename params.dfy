/** The fixed parameters of the projection: six annual growth rates, two 2024
    base values for the economy, the year axis and the unit of the rescaled
    macro columns. */
module Params {

  /** Natural path: 1997-2024 average growth of GDP and FDI, 2012-2021 of housing. */
  const GDP_RATE_NATURAL: real := 0.03642405889760747
  const FDI_RATE_NATURAL: real := 0.022877126440026485
  const HOUSE_RATE_NATURAL: real := 0.0409105229702702

  /** China-model path: the natural rates after the Hong Kong handover shock factor. */
  const GDP_RATE_CHINA: real := 0.010086986828831218
  const FDI_RATE_CHINA: real := 0.011270998331796981
  const HOUSE_RATE_CHINA: real := 0.007923277505180824

  /** 2024 base values in US dollars. */
  const BASE_GDP: real := 796_904_000_000.0
  const BASE_FDI: real := 7_858_117_000.0

  /** The projection horizon, both ends included. */
  const BASE_YEAR: int := 2024
  const END_YEAR: int := 2029

  /** The rescaled macro columns count in units of ten million US dollars. */
  const TEN_MILLION: real := 10_000_000.0

  /** Every China-model rate lies below its natural counterpart, and every
      rate is a genuine growth rate (above -1), in fact positive. */
  lemma ShockRatesBelowNatural()
    ensures 0.0 < GDP_RATE_CHINA < GDP_RATE_NATURAL
    ensures 0.0 < FDI_RATE_CHINA < FDI_RATE_NATURAL
    ensures 0.0 < HOUSE_RATE_CHINA < HOUSE_RATE_NATURAL
    ensures BASE_GDP > 0.0 && BASE_FDI > 0.0
    ensures END_YEAR - BASE_YEAR + 1 == 6
  {
  }
}
