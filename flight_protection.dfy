/**
 * The flight protection picker: the three plans with their feature lists, the exclusion
 * test that crosses a feature out, and the selection handler.
 */
module FlightProtection {
  import opened Wrappers
  import BookingSummary

  datatype ProtectionType = Luxe | Classic | NoProtection

  datatype ProtectionOption = ProtectionOption(
    id: string, name: string, kind: ProtectionType, price: string, description: string,
    features: seq<string>, excludedFeatures: seq<string>, popular: bool)

  /** The ten features every plan lists, in display order. */
  const Features: seq<string> := [
    "Lost or mishandled baggage",
    "Missed Connection",
    "Compensation for Flight Delays",
    "Hospitalization (prohibiting travel)",
    "Health Issues (prohibiting travel)",
    "Free seat assignment",
    "24/7 Concierge Support",
    "Price drop Guarantee",
    "Refund as a Credit Voucher",
    "Priority on Upgrade Waitlist with Fare Difference"]

  /** The plans; a plan without an exclusion list excludes nothing. */
  const Options: seq<ProtectionOption> := [
    ProtectionOption("luxe", "LUXE", Luxe, "+$485.10", "Complex protection", Features, [], true),
    ProtectionOption("classic", "CLASSIC", Classic, "$29", "Essential protection for your journey", Features, Features[5..], false),
    ProtectionOption("none", "NO PROTECTION", NoProtection, "$0", "Continue without protection", Features, Features, false)]

  /** A feature is crossed out on a plan when the plan's exclusion list holds it. */
  predicate IsExcluded(option: ProtectionOption, feature: string) {
    feature in option.excludedFeatures
  }

  /** The ten feature texts are pairwise different. */
  lemma FeaturesDistinct()
    ensures |Features| == 10
    ensures forall i, j :: 0 <= i < j < |Features| ==> Features[i] != Features[j]
  {
    forall i, j | 0 <= i < j < |Features|
      ensures Features[i] != Features[j]
    {
      assert |Features[i]| != |Features[j]| || Features[i][0] != Features[j][0];
    }
  }

  /** The three ids differ, every exclusion is one of the plan's features, LUXE crosses out
      nothing, CLASSIC the last five and NO PROTECTION all ten. */
  lemma TableInvariants()
    ensures |Options| == 3
    ensures forall i, j :: 0 <= i < j < |Options| ==> Options[i].id != Options[j].id
    ensures forall k :: 0 <= k < |Options| ==>
      forall f :: f in Options[k].excludedFeatures ==> f in Options[k].features
    ensures |Options[0].excludedFeatures| == 0
    ensures |Options[1].excludedFeatures| == 5 && |Options[2].excludedFeatures| == 10
    ensures forall f :: f in Features ==> !IsExcluded(Options[0], f) && IsExcluded(Options[2], f)
    ensures forall k :: 0 <= k < |Features| ==> (IsExcluded(Options[1], Features[k]) <==> k >= 5)
  {
    FeaturesDistinct();
    forall k | 0 <= k < |Features|
      ensures IsExcluded(Options[1], Features[k]) <==> k >= 5
    {
      if k < 5 {
        assert forall m :: 0 <= m < |Features[5..]| ==> Features[5..][m] == Features[m + 5];
      } else {
        assert Features[5..][k - 5] == Features[k];
      }
    }
  }

  /** The plans shown as selected: those whose id equals the selection. */
  function SelectedPlans(selected: string): set<nat> {
    set k: nat | k < |Options| && Options[k].id == selected
  }

  /** After choosing a plan exactly that plan shows as selected; before any choice none is. */
  lemma ExactlyOneSelected(k: nat)
    requires k < |Options|
    ensures SelectedPlans(Options[k].id) == {k}
    ensures |SelectedPlans(Options[k].id)| == 1
    ensures SelectedPlans("") == {}
  {
    TableInvariants();
    assert forall m: nat :: m < |Options| && Options[m].id == Options[k].id ==> m == k;
  }

  /** The flag handed to the store: protection is taken unless 'none' is chosen. */
  function ProtectionFlag(optionId: string): bool {
    optionId != "none"
  }

  /** Among the plans the flag is off only for NO PROTECTION. */
  lemma ProtectionFlagOfPlans(k: nat)
    requires k < |Options|
    ensures ProtectionFlag(Options[k].id) <==> Options[k].kind != NoProtection
  {
  }

  /** Each plan's caption and price agree with the summary's protection row for its id. */
  lemma PlansAgreeWithSummary(k: nat)
    requires k < |Options|
    ensures BookingSummary.ProtectionRow(Some(Options[k].id)) ==
      Some(BookingSummary.ProtectionLine(Options[k].name, Options[k].price))
  {
  }

  class ProtectionPicker {
    var selectedOption: string

    /** Nothing is chosen at first. */
    constructor ()
      ensures selectedOption == ""
    {
      selectedOption := "";
    }

    /** `handleOptionSelect`: records the choice and returns what it passes on, the id for
        the page and the protection flag for the store. */
    method HandleOptionSelect(optionId: string) returns (forwarded: string, protectionFlag: bool)
      modifies this
      ensures selectedOption == optionId && forwarded == optionId
      ensures protectionFlag == ProtectionFlag(optionId)
      ensures protectionFlag <==> optionId != "none"
    {
      selectedOption := optionId;
      forwarded := optionId;
      protectionFlag := optionId != "none";
    }
  }
}
