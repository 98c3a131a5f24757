/**
 * The three-step progress indicator: the step shown as current, the completed flags, and
 * the click, next and previous rules.
 */
module CheckoutSteps {
  import opened Wrappers

  datatype Step = Step(id: int, title: string, description: string, completed: bool)

  const InitialSteps: seq<Step> := [
    Step(1, "Flight Details", "Flight information and passengers", false),
    Step(2, "Flight Protection", "Choose your protection plan", false),
    Step(3, "Payment", "Complete your booking", false)]

  /** The steps are numbered 1, 2, 3 in order. */
  predicate Numbered(steps: seq<Step>) {
    |steps| == 3 && forall i :: 0 <= i < |steps| ==> steps[i].id == i + 1
  }

  /** The same steps with other completed flags. */
  predicate SameSteps(a: seq<Step>, b: seq<Step>) {
    |a| == |b| && forall i :: 0 <= i < |a| ==> a[i].(completed := b[i].completed) == b[i]
  }

  /** The effect on a supplied current step: a step is completed exactly when it comes before. */
  function CompletedBefore(steps: seq<Step>, current: int): (r: seq<Step>)
    ensures SameSteps(steps, r)
    ensures forall i :: 0 <= i < |r| ==> (r[i].completed <==> r[i].id < current)
  {
    if steps == [] then []
    else [steps[0].(completed := steps[0].id < current)] + CompletedBefore(steps[1..], current)
  }

  /** `handleNext`'s flag update: the step with the given id is completed. */
  function MarkCompleted(steps: seq<Step>, id: int): (r: seq<Step>)
    ensures SameSteps(steps, r)
  {
    if steps == [] then []
    else [if steps[0].id == id then steps[0].(completed := true) else steps[0]] + MarkCompleted(steps[1..], id)
  }

  /** Marking completes that step and leaves every other flag as it was. */
  lemma {:induction false} MarkCompletedFlags(steps: seq<Step>, id: int)
    ensures forall i :: 0 <= i < |steps| ==>
      MarkCompleted(steps, id)[i].completed == (steps[i].completed || steps[i].id == id)
  {
    if steps != [] {
      MarkCompletedFlags(steps[1..], id);
    }
  }

  /** The flags agree with the current step: completed exactly before it. */
  predicate ConsistentFlags(steps: seq<Step>, current: int) {
    forall i :: 0 <= i < |steps| ==> (steps[i].completed <==> steps[i].id < current)
  }

  /** `handleStepClick` */
  function ClickStep(current: int, target: int): (r: int)
    ensures r <= current
  {
    if target <= current then target else current
  }

  /** `handleNext`'s step update over a list of `count` steps. */
  function NextStep(current: int, count: int): int {
    if current < count then current + 1 else current
  }

  /** `handlePrev` */
  function PrevStep(current: int): int {
    if current > 1 then current - 1 else current
  }

  predicate InRange(current: int) { 1 <= current <= 3 }

  /** Clicking moves only back (or stays): the target is taken when it is not ahead. */
  lemma ClickRule(current: int, target: int)
    ensures ClickStep(current, target) == target <==> target <= current
    ensures target > current ==> ClickStep(current, target) == current
    ensures InRange(current) && 1 <= target ==> InRange(ClickStep(current, target))
  {
  }

  /** Next and previous change the step by one inside 1..3 and stop at its ends. */
  lemma NextPrevRules(current: int)
    requires InRange(current)
    ensures InRange(NextStep(current, 3)) && InRange(PrevStep(current))
    ensures NextStep(current, 3) == if current == 3 then 3 else current + 1
    ensures PrevStep(current) == if current == 1 then 1 else current - 1
    ensures current < 3 ==> PrevStep(NextStep(current, 3)) == current
  {
  }

  /** Moving on keeps the flags consistent with the step: the step left behind becomes
      completed and nothing else changes. */
  lemma NextKeepsFlagsConsistent(steps: seq<Step>, current: int)
    requires Numbered(steps) && InRange(current) && ConsistentFlags(steps, current) && current < 3
    ensures ConsistentFlags(MarkCompleted(steps, current), NextStep(current, 3))
  {
    MarkCompletedFlags(steps, current);
  }

  /** Going back leaves the flags alone, so the step left behind stays marked completed. */
  lemma PrevKeepsStepCompleted(steps: seq<Step>, current: int)
    requires Numbered(steps) && InRange(current) && ConsistentFlags(steps, current) && current > 1
    ensures steps[current - 2].completed && steps[current - 2].id == PrevStep(current)
    ensures !ConsistentFlags(steps, PrevStep(current))
  {
  }

  /** Changing flags keeps the numbering. */
  lemma SameStepsKeepNumbering(a: seq<Step>, b: seq<Step>)
    requires Numbered(a) && SameSteps(a, b)
    ensures Numbered(b)
  {
    assert forall i :: 0 <= i < |a| ==> a[i].(completed := b[i].completed).id == a[i].id;
  }

  class Stepper {
    var currentStep: int
    var steps: seq<Step>

    /** Steps 1 to 3 and a current step among them. */
    predicate Valid()
      reads this
    {
      Numbered(steps) && InRange(currentStep)
    }

    /** Before the effect runs: a supplied step that is not 0, otherwise step 1, and no
        step completed. */
    constructor (prop: Option<int>)
      ensures steps == InitialSteps
      ensures currentStep == if prop.Some? && prop.value != 0 then prop.value else 1
      ensures (prop.None? || InRange(prop.value)) ==> Valid()
    {
      currentStep := if prop.Some? && prop.value != 0 then prop.value else 1;
      steps := InitialSteps;
    }

    /** The effect on a supplied current step. */
    method SyncFromProp(prop: int)
      modifies this
      ensures currentStep == prop
      ensures steps == CompletedBefore(old(steps), prop)
      ensures ConsistentFlags(steps, currentStep)
      ensures Numbered(old(steps)) && InRange(prop) ==> Valid()
    {
      currentStep := prop;
      if Numbered(steps) {
        SameStepsKeepNumbering(steps, CompletedBefore(steps, prop));
      }
      steps := CompletedBefore(steps, prop);
    }

    method HandleStepClick(stepId: int)
      modifies this
      ensures currentStep == ClickStep(old(currentStep), stepId)
      ensures steps == old(steps)
      ensures old(Valid()) && 1 <= stepId ==> Valid()
    {
      if stepId <= currentStep {
        currentStep := stepId;
      }
    }

    method HandleNext()
      modifies this
      ensures currentStep == NextStep(old(currentStep), |old(steps)|)
      ensures steps == if old(currentStep) < |old(steps)| then MarkCompleted(old(steps), old(currentStep)) else old(steps)
      ensures old(Valid()) ==> Valid()
    {
      if currentStep < |steps| {
        if Numbered(steps) {
          SameStepsKeepNumbering(steps, MarkCompleted(steps, currentStep));
        }
        steps := MarkCompleted(steps, currentStep);
        currentStep := currentStep + 1;
      }
    }

    method HandlePrev()
      modifies this
      ensures currentStep == PrevStep(old(currentStep))
      ensures steps == old(steps)
      ensures old(Valid()) ==> Valid()
    {
      if currentStep > 1 {
        currentStep := currentStep - 1;
      }
    }
  }

  /** The initial list is numbered 1 to 3 and nothing in it is completed. */
  lemma InitialStepsShape()
    ensures Numbered(InitialSteps) && ConsistentFlags(InitialSteps, 1)
  {
  }
}
