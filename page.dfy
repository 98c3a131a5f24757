/**
 * The checkout page: which of the three steps is shown (the store's current step) and the
 * protection choice that gates the move to payment.
 */
module Page {
  import Booking

  /** The page's buttons and the protection callback. */
  datatype Action =
    | ContinueToProtection
    | BackToDetails
    | BackToProtection
    | ContinueToPayment
    | EditFlight
    | EditContact
    | EditPassenger
    | SelectProtection(option: string)

  /** What the page's handlers change: the store's step and the local protection choice. */
  datatype PageState = PageState(step: int, selectedProtection: string)

  /** The initial page: the store's initial step and no protection chosen. */
  const InitialPage: PageState := PageState(Booking.InitialState.currentStep, "")

  /** Each handler's effect on the page. */
  function Apply(p: PageState, a: Action): PageState {
    match a
    case ContinueToProtection => p.(step := 2)
    case BackToDetails => p.(step := 1)
    case BackToProtection => p.(step := 2)
    case ContinueToPayment => if p.selectedProtection != "" then p.(step := 3) else p
    case EditFlight => p.(step := 1)
    case EditContact => p.(step := 1)
    case EditPassenger => p.(step := 1)
    case SelectProtection(option) => p.(selectedProtection := option)
  }

  /** A run of handlers, first to last. */
  function Run(p: PageState, actions: seq<Action>): PageState
    decreases |actions|
  {
    if actions == [] then p else Run(Apply(p, actions[0]), actions[1..])
  }

  /** Every choice the protection list can report is a non-empty option id. */
  predicate ChoicesNonEmpty(actions: seq<Action>) {
    forall k :: 0 <= k < |actions| ==> (actions[k].SelectProtection? ==> actions[k].option != "")
  }

  /** The page starts on step 1 with nothing chosen. */
  lemma InitialPageShape()
    ensures InitialPage == PageState(1, "")
  {
    Booking.InitialStateShape();
  }

  /** Continuing to protection and every back or edit button set their step whatever the
      step was, and leave the choice alone. */
  lemma UngatedTransitions(p: PageState)
    ensures Apply(p, ContinueToProtection) == PageState(2, p.selectedProtection)
    ensures Apply(p, BackToProtection) == PageState(2, p.selectedProtection)
    ensures Apply(p, BackToDetails) == PageState(1, p.selectedProtection)
    ensures Apply(p, EditFlight) == Apply(p, BackToDetails)
    ensures Apply(p, EditContact) == Apply(p, BackToDetails)
    ensures Apply(p, EditPassenger) == Apply(p, BackToDetails)
  {
  }

  /** Payment is reached by its button exactly when some protection is chosen, 'none'
      included; otherwise the button changes nothing. */
  lemma PaymentGate(p: PageState)
    ensures Apply(p, ContinueToPayment).step == 3 <==> p.selectedProtection != "" || p.step == 3
    ensures p.selectedProtection == "" ==> Apply(p, ContinueToPayment) == p
    ensures Apply(Apply(p, SelectProtection("none")), ContinueToPayment).step == 3
  {
  }

  /** Only the payment button enters step 3, and only with a choice made. */
  lemma OnlyPaymentButtonEntersPayment(p: PageState, a: Action)
    requires p.step != 3 && Apply(p, a).step == 3
    ensures a == ContinueToPayment && p.selectedProtection != ""
  {
  }

  /** Whatever the user does, the page shows one of the three steps, and while every choice
      reported is a real option id, the payment step is never shown without a choice. */
  lemma {:induction false} RunInvariant(p: PageState, actions: seq<Action>)
    requires 1 <= p.step <= 3 && (p.step == 3 ==> p.selectedProtection != "")
    requires ChoicesNonEmpty(actions)
    ensures var q := Run(p, actions);
      1 <= q.step <= 3 && (q.step == 3 ==> q.selectedProtection != "")
    decreases |actions|
  {
    if actions != [] {
      assert ChoicesNonEmpty(actions[1..]) by {
        forall k | 0 <= k < |actions[1..]|
          ensures actions[1..][k].SelectProtection? ==> actions[1..][k].option != ""
        {
          assert actions[1..][k] == actions[k + 1];
        }
      }
      RunInvariant(Apply(p, actions[0]), actions[1..]);
    }
  }

  /** From the initial page the invariant holds for every run. */
  lemma ReachablePages(actions: seq<Action>)
    requires ChoicesNonEmpty(actions)
    ensures var q := Run(InitialPage, actions);
      1 <= q.step <= 3 && (q.step == 3 ==> q.selectedProtection != "")
  {
    InitialPageShape();
    RunInvariant(InitialPage, actions);
  }

  /** The page over the shared store. */
  class CheckoutPage {
    const store: Booking.BookingStore
    var selectedProtection: string

    /** The page over a store, with no protection chosen. */
    constructor (store: Booking.BookingStore)
      ensures this.store == store && selectedProtection == ""
    {
      this.store := store;
      selectedProtection := "";
    }

    /** The page state the handlers act on. */
    function Current(): PageState
      reads this, store
    {
      PageState(store.state.currentStep, selectedProtection)
    }

    /** Performs one handler: the page moves as `Apply` says and, in the store, only the
        step may change. */
    method Handle(a: Action)
      modifies this, store
      ensures Current() == Apply(old(Current()), a)
      ensures store.state == old(store.state).(currentStep := Current().step)
    {
      match a {
        case ContinueToProtection => store.SetCurrentStep(2);
        case BackToDetails => store.SetCurrentStep(1);
        case BackToProtection => store.SetCurrentStep(2);
        case ContinueToPayment =>
          if selectedProtection != "" {
            store.SetCurrentStep(3);
          }
        case EditFlight => store.SetCurrentStep(1);
        case EditContact => store.SetCurrentStep(1);
        case EditPassenger => store.SetCurrentStep(1);
        case SelectProtection(option) => selectedProtection := option;
      }
    }
  }
}
