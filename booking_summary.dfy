/**
 * The booking summary card: the protection surcharge, the total and the Pay button. Money
 * is in whole cents.
 */
module BookingSummary {
  import opened Wrappers

  /** The base fare, $1245. */
  const BaseFareCents: nat := 124500

  const LuxeCents: nat := 48510
  const ClassicCents: nat := 2900

  /** A tier is given when the value is present and not the empty string. */
  predicate TierSet(tier: Option<string>) {
    tier.Some? && tier.value != ""
  }

  /** `getProtectionCost` over the protection type, which may be absent. */
  function ProtectionCostCents(tier: Option<string>): nat {
    if !TierSet(tier) then 0
    else if tier.value == "luxe" then LuxeCents
    else if tier.value == "classic" then ClassicCents
    else 0
  }

  /** `total` */
  function TotalCents(tier: Option<string>): nat {
    BaseFareCents + ProtectionCostCents(tier)
  }

  /** The surcharge is $485.10 for LUXE, $29 for CLASSIC and nothing otherwise: for 'none',
      an absent or empty type and any unknown type. The total is the base fare plus the
      surcharge, between $1245 and $1730.10. */
  lemma PricingRules(tier: Option<string>)
    ensures ProtectionCostCents(tier) == 48510 <==> tier == Some("luxe")
    ensures ProtectionCostCents(tier) == 2900 <==> tier == Some("classic")
    ensures ProtectionCostCents(tier) == 0 <==> !(tier == Some("luxe") || tier == Some("classic"))
    ensures TotalCents(tier) in {124500, 173010, 127400}
    ensures 124500 <= TotalCents(tier) <= 173010
  {
  }

  /** The state has no protection type, so the summary as wired always shows the base fare. */
  lemma TotalAsWired()
    ensures TotalCents(None) == BaseFareCents && ProtectionCostCents(Some("none")) == 0
  {
  }

  /** The protection row of the price breakdown: its caption and its price text. */
  datatype ProtectionLine = ProtectionLine(caption: string, priceText: string)

  function ProtectionRow(tier: Option<string>): Option<ProtectionLine> {
    if !TierSet(tier) then None
    else if tier.value == "luxe" then Some(ProtectionLine("LUXE", "+$485.10"))
    else if tier.value == "classic" then Some(ProtectionLine("CLASSIC", "$29"))
    else Some(ProtectionLine("NO PROTECTION", "$0"))
  }

  /** The row appears exactly when a tier is set, and its price text is the surcharge. */
  lemma ProtectionRowRules(tier: Option<string>)
    ensures ProtectionRow(tier).Some? <==> TierSet(tier)
    ensures ProtectionRow(tier).Some? ==>
      (ProtectionRow(tier).value.priceText == "$0" <==> ProtectionCostCents(tier) == 0)
    ensures ProtectionRow(tier).Some? && ProtectionCostCents(tier) == 0 ==>
      ProtectionRow(tier).value.caption == "NO PROTECTION"
  {
  }

  /** The Pay button, when shown, and whether it is disabled. The props default to step 1
      and an invalid form. */
  function PayButton(currentStep: Option<int>, isFormValid: Option<bool>): (disabled: Option<bool>) {
    var step := currentStep.GetOr(1);
    var valid := isFormValid.GetOr(false);
    if step == 3 then Some(!valid) else None
  }

  /** The button is shown only on the payment step and is enabled only for a valid form;
      with the default props there is no button. */
  lemma PayButtonRules(currentStep: Option<int>, isFormValid: Option<bool>)
    ensures PayButton(currentStep, isFormValid).Some? <==> currentStep == Some(3)
    ensures PayButton(currentStep, isFormValid) == Some(false) <==> currentStep == Some(3) && isFormValid == Some(true)
    ensures PayButton(None, None) == None
  {
  }
}
