# Flight checkout wizard, modelled in Dafny

This project models the logic of a three-step flight checkout wizard written in React and
TypeScript. The three steps are flight and passenger details, flight protection, and payment.

- **Booking store** (`booking.dfy`, module `Booking`). The store is an id-keyed list of
  passenger records, a contact slot, a flight slot and the wizard step. `BookingStore` is a
  class whose single `state` field each mutator replaces, as the provider's `setBookingState`
  does.
- **Passenger form** (`passenger_details.dfy`). The schema's field rules and its two date
  refinements, the input formatters, the progress count, the field indicator and the
  submission into the store.
- **Contact form** (`contact_information.dfy`). Reading the stored contact back into a
  country and digits, the phone display, the e-mail and phone classifications, the country
  search, and the `ContactForm` class with its handlers and the store synchronisation.
- **Payment step** (`payment.dfy`). The card-input formatters, the billing and card
  validators (the card number is checked with the Luhn algorithm of ISO/IEC 7812-1,
  Annex B, written as the source's loop), the passenger display helpers, and the
  `PaymentForm` class.
- **Stepper** (`checkout_steps.dfy`). The progress indicator's click, next and previous
  rules, and its completed flags.
- **Page** (`page.dfy`). The page-level step handlers; only the move to payment is gated,
  on the protection choice.
- **Booking summary** (`booking_summary.dfy`). The protection surcharge and the total in
  integer cents, the price row and the Pay button.
- **Protection picker** (`flight_protection.dfy`). The plan table with its exclusions, and
  the selection handler.
- **Shared helpers** (`common.dfy`). The JavaScript string operations the components use:
  whitespace classes, `trim`, regex-style filtering, grouping, `split`/`join` and
  `parseInt`. Also the calendar triple and the three-way field status.

External predicates the code calls are parameters of type `string -> bool`:

- `validator.isEmail`;
- libphonenumber's `isValidPhoneNumber`.

The clock (`new Date()`) is a parameter too: a `Date` value named `today`.

## Model

| member | source | states |
|---|---|---|
| Text.ParseHexExample | src/components/ui/passenger-details.tsx:306 | `parseInt` with no radix reads `0x5` in base 16, as 5 |
| Text.ParseBareHexPrefix | src/components/ui/passenger-details.tsx:306 | `parseInt("0x")` is `NaN`: the prefix alone has no digit |
| Text.ParseNegatedHexExample | src/components/ui/passenger-details.tsx:306 | the sign is read before the prefix: `-0X1A` is -26 |
| Text.ParseLeadingZeroExample | src/components/ui/passenger-details.tsx:306 | a leading zero does not select octal: `08` is 8 |
| Booking.InitialStateShape | src/contexts/BookingContext.tsx:76-126 | the initial store holds two blank passengers with ids 1 and 2 (unique), no contact, and step 1 |
| Booking.UpdatedPassengersShape | src/contexts/BookingContext.tsx:128-137 | the update keeps length and order, merges the patch into every record with the id and leaves the others unchanged |
| Booking.UpdateOfAbsentIdIsNoOp | src/contexts/BookingContext.tsx:128-137 | updating an id no passenger has changes nothing |
| Booking.UpdateKeepsIds | src/contexts/BookingContext.tsx:128-137 | a patch that omits the id or repeats it keeps every id in place, so unique ids stay unique |
| Booking.UpdateWithForeignIdCanDuplicate | src/contexts/BookingContext.tsx:128-137 | a patch carrying another passenger's id can make two records share an id |
| Booking.WithoutPassenger | src/contexts/BookingContext.tsx:185-190 | removal never lengthens the list |
| Booking.WithoutPassengerContents | src/contexts/BookingContext.tsx:185-190 | a record survives removal exactly when it was present and has another id |
| Booking.WithoutPassengerAppend | src/contexts/BookingContext.tsx:185-190 | removal works element by element, so the survivors keep their order |
| Booking.RemoveOfAbsentIdIsNoOp | src/contexts/BookingContext.tsx:185-190 | removing an absent id changes nothing |
| Booking.RemoveWithUniqueIds | src/contexts/BookingContext.tsx:185-190 | with unique ids, removal keeps them unique and drops exactly one record when the id is present |
| Booking.FindPassenger | src/contexts/BookingContext.tsx:192-194 | the result is absent exactly when no record has the id; otherwise it is the first record with it |
| Booking.FindAfterUpdate | src/contexts/BookingContext.tsx:128-137 | after an update that keeps the id, looking it up finds the old first match merged with the patch |
| Booking.MaxId | src/contexts/BookingContext.tsx:161 | the largest id of a non-empty list: every id is at most it, and some record has it |
| Booking.NextId | src/contexts/BookingContext.tsx:161 | the new id is above every present id and one more than an existing id; 1 for an empty list |
| Booking.JsNewPassengerIdOnEmptyList | src/contexts/BookingContext.tsx:161 | `Math.max(...ids) + 1` as written is `-Infinity` on an empty list and equals `NextId` otherwise |
| Booking.AddKeepsUniqueIds | src/contexts/BookingContext.tsx:160-183 | appending a blank record with the next id keeps ids unique |
| Booking.RemovedIdIsReused | src/contexts/BookingContext.tsx:160-190 | after the highest-numbered passenger is removed, the next added passenger gets the same id again |
| Booking.BookingStore.constructor | src/contexts/BookingContext.tsx:76-126 | the store starts in the initial state |
| Booking.BookingStore.UpdatePassenger | src/contexts/BookingContext.tsx:128-137 | only the passengers change, as the list update says; an id-preserving patch keeps ids unique |
| Booking.BookingStore.UpdateContact | src/contexts/BookingContext.tsx:139-144 | only the contact slot changes, to the given contact |
| Booking.BookingStore.UpdateFlight | src/contexts/BookingContext.tsx:146-151 | only the flight slot changes, to the given flight |
| Booking.BookingStore.SetCurrentStep | src/contexts/BookingContext.tsx:153-158 | only the step changes, to `step` with no range check, so setting it twice equals setting it once |
| Booking.BookingStore.AddPassenger | src/contexts/BookingContext.tsx:160-183 | a blank record with the next id is appended and nothing else changes; unique ids stay unique |
| Booking.BookingStore.RemovePassenger | src/contexts/BookingContext.tsx:185-190 | only the passengers change, by the filter; unique ids stay unique |
| Booking.BookingStore.GetPassenger | src/contexts/BookingContext.tsx:192-194 | absent exactly when no stored record has the id; otherwise the first stored record with that id |
| PassengerDetails.FieldRules | src/components/ui/passenger-details.tsx:274-292 | a name has no message exactly when it is 2 to 50 name characters; a passport exactly when it is 6 to 15 of A-Z and 0-9; an empty name reports "is required" |
| PassengerDetails.DateRefinements | src/components/ui/passenger-details.tsx:302-323 | both date checks pass while a part is missing; an unparsable date fails both; a birth date after today or more than 120 years back fails; an expiry passes exactly when after today; today is a valid birth date but not a valid expiry |
| PassengerDetails.BirthAndExpiryExclusive | src/components/ui/passenger-details.tsx:302-323 | the same three filled parts can never pass both date checks |
| PassengerDetails.NameFieldMessages | src/components/ui/passenger-details.tsx:274-283 | each name field has no message exactly when the name rule holds |
| PassengerDetails.CodeFieldMessages | src/components/ui/passenger-details.tsx:288-301 | the passport field has no message exactly when its rule holds; the frequent-flyer field exactly when it is empty or 6 to 15 of A-Z and 0-9 |
| PassengerDetails.DateFieldMessages | src/components/ui/passenger-details.tsx:284-323 | each day field has no message exactly when it is filled and its date refinement holds |
| PassengerDetails.RequiredFieldMessages | src/components/ui/passenger-details.tsx:272-295 | each field that is only required has no message exactly when it is filled |
| PassengerDetails.SchemaValidIff | src/components/ui/passenger-details.tsx:271-323 | the schema accepts exactly the forms whose required fields are filled and whose name, code and date rules hold |
| PassengerDetails.UpperAlnumFormatters | src/components/ui/passenger-details.tsx:499-514 | both code formatters output only A-Z and 0-9, and applying either twice equals applying it once |
| PassengerDetails.FormattedPassportRule | src/components/ui/passenger-details.tsx:499-501 | a formatted passport number passes its rule exactly when it has 6 to 15 characters |
| PassengerDetails.CapitalizeWords | src/components/ui/passenger-details.tsx:506-508 | each space-separated word gets its first character upper-cased and the rest kept, the length unchanged |
| PassengerDetails.FormatNameCharset | src/components/ui/passenger-details.tsx:503-510 | the name formatter outputs only letters, whitespace, hyphens and apostrophes |
| PassengerDetails.FormatNameNotIdempotent | src/components/ui/passenger-details.tsx:503-510 | the formatter is not idempotent: "1john" gives "john" and a second pass gives "John" |
| PassengerDetails.CountEmpty | src/components/ui/passenger-details.tsx:569-576 | the count is at most the number of fields and is 0 exactly when every listed field is filled |
| PassengerDetails.RequiredFilledIff | src/components/ui/passenger-details.tsx:571-574 | the twelve listed fields are exactly the required fields |
| PassengerDetails.EmptyFieldsCountFacts | src/components/ui/passenger-details.tsx:569-581 | the count lies in 0..12 and ignores the frequent-flyer number; the form is complete exactly when every required field is filled; progress plus the count is 12 |
| PassengerDetails.ValidFormIsComplete | src/components/ui/passenger-details.tsx:579-581 | a form the schema accepts is complete |
| PassengerDetails.FieldIndicator | src/components/ui/passenger-details.tsx:517-525 | a field shows an error exactly when it has a message, and success exactly when it has none and is filled |
| PassengerDetails.NeutralOnlyForFrequentFlyer | src/components/ui/passenger-details.tsx:517-525 | the indicator is neutral only for an empty frequent-flyer number |
| PassengerDetails.MergeSubmitPatch | src/components/ui/passenger-details.tsx:602-609 | the submitted patch overwrites every field of any record; the form reopened on that record shows the submitted values |
| PassengerDetails.SubmitStoresForm | src/components/ui/passenger-details.tsx:602-609 | after a submission the store's record for the passenger is exactly the form, and every other record and the ids are unchanged |
| PassengerDetails.OnSubmit | src/components/ui/passenger-details.tsx:602-609 | a form the schema accepts is written into the store under the passenger's id; a rejected form changes nothing |
| ContactInformation.FindCountry | src/components/ui/contact-information.tsx:283 | the lookup is absent exactly when no entry has the code; otherwise it is an entry with that code |
| ContactInformation.TableCodesDistinct | src/components/ui/contact-information.tsx:34-40 | the table's codes are two letters each and pairwise different |
| ContactInformation.TableLookup | src/components/ui/contact-information.tsx:34-40 | looking up any entry's code finds that entry |
| ContactInformation.InitializePhoneFallbacks | src/components/ui/contact-information.tsx:278-292 | the country comes from the table, the first entry when there is no contact or the code is unknown; the digits are digits, empty when the phone lacks the calling code |
| ContactInformation.InitializeAfterSync | src/components/ui/contact-information.tsx:278-292 | reading back a contact written by the synchronisation gives the same country and digits |
| ContactInformation.InitializeKnownCountry | src/components/ui/contact-information.tsx:278-292 | a written contact of a country the table finds reads back as that country and those digits |
| ContactInformation.NorthAmericanDigits | src/components/ui/contact-information.tsx:496-511 | for the United States and Canada the display keeps exactly the first ten digits |
| ContactInformation.OtherCountryDigits | src/components/ui/contact-information.tsx:496-511 | for other countries the display keeps every digit |
| ContactInformation.PhoneDisplayDigits | src/components/ui/contact-information.tsx:496-511 | stripping non-digits from the display gives back the digits for other countries always, and for the United States and Canada when there are at most ten |
| ContactInformation.PhoneDisplayShape | src/components/ui/contact-information.tsx:496-507 | no digits display as ""; six or more in the United States or Canada display as "(AAA) BBB-CCCC" from the first ten |
| ContactInformation.PhoneClassification | src/components/ui/contact-information.tsx:394-446 | no digits is idle; fewer than three is an error; otherwise success exactly when the library accepts; short numbers report how many digits are missing, and that count reads back from the message |
| ContactInformation.SingleAt | src/components/ui/contact-information.tsx:339-359 | with exactly one `@`, splitting gives the local part and the domain, which join back to the address |
| ContactInformation.EmailKinds | src/components/ui/contact-information.tsx:320-372 | an empty address is idle; an address the library accepts is a valid success; any other is an invalid error |
| ContactInformation.EmailErrorMessage | src/components/ui/contact-information.tsx:344-369 | a rejected address is explained by the first that applies of: no `@`, several `@`, an empty domain, the generic message |
| ContactInformation.EmailSuccessMessage | src/components/ui/contact-information.tsx:327-343 | an accepted address at one of the seven common providers reads "Valid email address", any other accepted address "Email format is valid" |
| ContactInformation.FilterCountries | src/components/ui/contact-information.tsx:646-650 | the search never lists more countries than the table |
| ContactInformation.FilterCountriesContents | src/components/ui/contact-information.tsx:646-650 | a country is listed exactly when it is in the table and its lower-cased name contains the lower-cased term or its calling code contains the term |
| ContactInformation.EmptySearchListsAll | src/components/ui/contact-information.tsx:646-650 | an empty search lists the whole table in order |
| ContactInformation.ContactForm.constructor | src/components/ui/contact-information.tsx:278-317 | the form opens on the stored contact's e-mail and phone with the read-back country and digits, both checks idle and the list closed |
| ContactInformation.ContactForm.HandleEmailChange | src/components/ui/contact-information.tsx:475-477 | only the e-mail changes |
| ContactInformation.ContactForm.HandlePhoneChange | src/components/ui/contact-information.tsx:479-484 | the digits become the digits typed and the phone becomes the calling code followed by them; nothing else changes |
| ContactInformation.ContactForm.HandleCountrySelect | src/components/ui/contact-information.tsx:487-494 | the country changes and the list closes; the phone is rebuilt with the new code only when there are digits |
| ContactInformation.ContactForm.PickCountryFromList | src/components/ui/contact-information.tsx:655-659 | the country changes, the list closes and the search clears; the phone is left as it was |
| ContactInformation.ContactForm.ValidateEmail | src/components/ui/contact-information.tsx:320-372 | the e-mail check becomes the classification of the current e-mail; nothing else changes |
| ContactInformation.ContactForm.ValidatePhone | src/components/ui/contact-information.tsx:394-446 | the phone check becomes the classification of the current country and digits; nothing else changes |
| ContactInformation.ContactForm.SyncContactData | src/components/ui/contact-information.tsx:379-391 | when both checks are valid the store's contact becomes the e-mail, calling code plus digits, and country code; otherwise the store is unchanged |
| Payment.SpacedPrefix | src/components/ui/payment.tsx:486-487 | cutting the four-digit grouping after `g` groups gives the grouping of the first `4g` characters |
| Payment.FormatCardNumberLayout | src/components/ui/payment.tsx:485-488 | the number field shows the first sixteen non-space characters typed, in groups of four |
| Payment.CardNumberFormatting | src/components/ui/payment.tsx:485-488 | the formatted number has at most 19 characters, its non-space characters are a prefix of those typed, and formatting again changes nothing |
| Payment.ExpiryFormatting | src/components/ui/payment.tsx:491-494 | the expiry has at most five characters, a `/` at position 2 exactly when a third digit was typed, digits elsewhere, the first four digits typed, and formatting again changes nothing |
| Payment.FormattedExpiryShape | src/components/ui/payment.tsx:491-494 | the formatted expiry has the MM/YY shape exactly when four digits were typed and the first two name a month |
| Payment.CvcFormatting | src/components/ui/payment.tsx:497-500 | the CVC holds at most four digits, the first ones typed, and formatting again changes nothing |
| Payment.WithCardValue | src/components/ui/payment.tsx:502 | editing a card field keeps the focused-field name |
| Payment.BillingFieldState | src/components/ui/payment.tsx:511-534 | a billing field is idle exactly when it is empty or blank |
| Payment.BillingRules | src/components/ui/payment.tsx:517-531 | a non-blank billing field succeeds exactly when it meets its minimum length, and a zip code also the 10-character bound and character set; a chosen country never errs |
| Payment.DigitTerm | src/components/ui/payment.tsx:555-559 | a digit contributes at most 9, its own value when not doubled |
| Payment.LuhnCheck | src/components/ui/payment.tsx:551-563 | the right-to-left loop accepts exactly the numbers whose Luhn sum is a multiple of ten |
| Payment.WeightedUpdate | src/components/ui/payment.tsx:551-563 | changing one digit moves the Luhn sum by the difference of that position's two contributions |
| Payment.LuhnDetectsSingleDigitError | src/components/ui/payment.tsx:551-563 | a valid number with any single digit changed fails the check |
| Payment.CardFieldState | src/components/ui/payment.tsx:536-598 | a card field is idle exactly when it is empty or blank |
| Payment.CardNumberSuccess | src/components/ui/payment.tsx:544-565 | the number succeeds exactly when, without whitespace, it has 13 to 19 characters, all digits, passing the Luhn check |
| Payment.CardNumberOfDigits | src/components/ui/payment.tsx:544-565 | a run of 13 to 19 digits succeeds exactly when it passes the Luhn check |
| Payment.TestCardNumbers | src/components/ui/payment.tsx:551-565 | 4111111111111111 and 4111111111111112 are a 4, fourteen 1s and a last digit |
| Payment.LuhnExampleValid | src/components/ui/payment.tsx:544-565 | the test number 4111111111111111 has Luhn sum 30 and succeeds |
| Payment.LuhnExampleInvalid | src/components/ui/payment.tsx:544-565 | the same number ending in 2 has Luhn sum 31 and fails |
| Payment.ExpirySuccess | src/components/ui/payment.tsx:567-581 | expiry succeeds exactly on MM/YY not before today's (year mod 100, month); the range check after the pattern can never fail |
| Payment.ExpiryExamples | src/components/ui/payment.tsx:567-581 | in 2025, "01/20" fails and "01/30" succeeds |
| Payment.CvcAndNameSuccess | src/components/ui/payment.tsx:583-592 | the CVC succeeds exactly on 3 or 4 digits; the holder name exactly on at least two ASCII letters and whitespace, not all blank |
| Payment.FormattedCvcSuccess | src/components/ui/payment.tsx:583-586 | a formatted CVC succeeds exactly when at least three digits were typed |
| Payment.FormattedNumberAtMostSixteen | src/components/ui/payment.tsx:485-488 | a number typed through the formatter carries at most 16 digits |
| Payment.DayMonthYearFallback | src/components/ui/payment.tsx:679-697 | the date text is "Not specified" exactly when a part is missing |
| Payment.PassengerDatesFallback | src/components/ui/payment.tsx:679-697 | both date formatters fall back exactly when the passenger or one of the three parts is missing |
| Payment.MonthNameOfNumber | src/components/ui/payment.tsx:681-682 | a month stored as a number 1..12 prints as its abbreviation |
| Payment.MonthNameOfHex | src/components/ui/payment.tsx:681-682 | a month string `0xC` reads in base 16, as `parseInt` does, and prints as `Dec` |
| Payment.InitialsMatchName | src/components/ui/payment.tsx:652-665 | the initials are the first letters of the two words of the shown name; "Adult Passenger" and "AP" appear unless both names are filled |
| Payment.SelectedPassengerData | src/components/ui/payment.tsx:674-677 | the passenger with the selected id when there is one, else the first passenger, else nothing |
| Payment.CountryLookup | src/components/ui/payment.tsx:939-946 | a known code shows its country's name and flag; an unknown code shows itself and the white flag |
| Payment.PaymentForm.constructor | src/components/ui/payment.tsx:454-476 | the billing and card forms start empty and no passenger is selected |
| Payment.PaymentForm.HandleCardInputChange | src/components/ui/payment.tsx:479-503 | the edited card field takes the formatted value; nothing else changes |
| Payment.PaymentForm.HandleCardInputFocus | src/components/ui/payment.tsx:506-508 | only the focused-field name changes |
| Payment.PaymentForm.SetBillingField | src/components/ui/payment.tsx:461-467 | the edited billing field takes the raw value and every other field stays |
| Payment.PaymentForm.OpenPassengerModal | src/components/ui/payment.tsx:668-671 | the given passenger becomes the selected one |
| Payment.PaymentForm.GetFieldValidationState | src/components/ui/payment.tsx:511-534 | the billing state of the current value, idle exactly when it is blank |
| Payment.PaymentForm.GetCardFieldValidationState | src/components/ui/payment.tsx:536-598 | running the Luhn loop gives the card-field state of the current value |
| CheckoutSteps.CompletedBefore | src/components/ui/checkout-steps.tsx:22-32 | with a supplied step, the steps keep their content and each is completed exactly when it comes before |
| CheckoutSteps.MarkCompleted | src/components/ui/checkout-steps.tsx:48-50 | marking changes only completed flags |
| CheckoutSteps.MarkCompletedFlags | src/components/ui/checkout-steps.tsx:48-50 | marking completes the step with the id and leaves every other flag as it was |
| CheckoutSteps.ClickStep | src/components/ui/checkout-steps.tsx:40-44 | a click never moves forward |
| CheckoutSteps.ClickRule | src/components/ui/checkout-steps.tsx:40-44 | the target is taken exactly when it is not ahead, and the step stays in 1..3 |
| CheckoutSteps.NextPrevRules | src/components/ui/checkout-steps.tsx:46-59 | next and previous move by one inside 1..3 and stop at its ends |
| CheckoutSteps.NextKeepsFlagsConsistent | src/components/ui/checkout-steps.tsx:46-53 | moving on keeps the flags equal to "before the current step" |
| CheckoutSteps.PrevKeepsStepCompleted | src/components/ui/checkout-steps.tsx:55-59 | going back leaves the flags alone, so the step left keeps its completed mark and the flags no longer match the step |
| CheckoutSteps.SameStepsKeepNumbering | src/components/ui/checkout-steps.tsx:25-50 | changing flags keeps the steps numbered 1 to 3 |
| CheckoutSteps.InitialStepsShape | src/components/ui/checkout-steps.tsx:34-38 | the initial list is numbered 1 to 3 with nothing completed |
| CheckoutSteps.Stepper.constructor | src/components/ui/checkout-steps.tsx:21-38 | the current step is the supplied one unless absent or 0, then 1, and no step is completed |
| CheckoutSteps.Stepper.SyncFromProp | src/components/ui/checkout-steps.tsx:22-32 | the supplied step becomes current and the flags match it |
| CheckoutSteps.Stepper.HandleStepClick | src/components/ui/checkout-steps.tsx:40-44 | the step follows the click rule, the flags are unchanged, the step stays in range |
| CheckoutSteps.Stepper.HandleNext | src/components/ui/checkout-steps.tsx:46-53 | below the last step it marks the current step and advances; at the last it changes nothing |
| CheckoutSteps.Stepper.HandlePrev | src/components/ui/checkout-steps.tsx:55-59 | above step 1 it goes back one; flags are unchanged; the step stays in range |
| Page.InitialPageShape | src/app/page.tsx:16-18 | the page starts on step 1 with no protection chosen |
| Page.UngatedTransitions | src/app/page.tsx:20-52 | continuing to protection and every back or edit button set their step, whatever it was, and leave the choice alone |
| Page.PaymentGate | src/app/page.tsx:32-40 | the payment button reaches step 3 exactly when a protection is chosen ('none' included); otherwise it changes nothing |
| Page.OnlyPaymentButtonEntersPayment | src/app/page.tsx:20-52 | only the payment button enters step 3, and only with a choice made |
| Page.RunInvariant | src/app/page.tsx:20-52 | any run keeps the step in 1..3 and never shows payment without a choice |
| Page.ReachablePages | src/app/page.tsx:16-52 | from the initial page every run keeps that invariant |
| Page.CheckoutPage.constructor | src/app/page.tsx:16-18 | the page sits over the store with no protection chosen |
| Page.CheckoutPage.Handle | src/app/page.tsx:20-52 | each handler moves the page as its transition rule says and changes only the store's step |
| BookingSummary.PricingRules | src/components/ui/booking-summary.tsx:24-35 | the surcharge is 48510 cents for luxe, 2900 for classic and 0 otherwise; the total lies between 124500 and 173010 cents |
| BookingSummary.TotalAsWired | src/components/ui/booking-summary.tsx:26-35 | with no protection type in the state the total is the base fare, as it is for 'none' |
| BookingSummary.ProtectionRowRules | src/components/ui/booking-summary.tsx:77-85 | the row appears exactly when a tier is set; its price text is "$0" exactly when the surcharge is 0, and then the caption is NO PROTECTION |
| BookingSummary.PayButtonRules | src/components/ui/booking-summary.tsx:150-156 | the Pay button is shown only on step 3 and enabled only for a valid form; the default props show none |
| FlightProtection.FeaturesDistinct | src/components/ui/flight-protection.tsx:29-40 | the ten feature texts are pairwise different |
| FlightProtection.TableInvariants | src/components/ui/flight-protection.tsx:21-99 | the ids differ; every exclusion is one of the plan's features; luxe excludes nothing, classic the last five, none all ten |
| FlightProtection.ExactlyOneSelected | src/components/ui/flight-protection.tsx:107-138 | after choosing a plan exactly that plan shows as selected; before any choice none does |
| FlightProtection.ProtectionFlagOfPlans | src/components/ui/flight-protection.tsx:113 | among the plans, the flag is off only for NO PROTECTION |
| FlightProtection.PlansAgreeWithSummary | src/components/ui/flight-protection.tsx:21-99 | each plan's caption and price agree with the summary's row for its id |
| FlightProtection.ProtectionPicker.constructor | src/components/ui/flight-protection.tsx:107 | nothing is selected at first |
| FlightProtection.ProtectionPicker.HandleOptionSelect | src/components/ui/flight-protection.tsx:109-114 | the choice is recorded and forwarded unchanged; the flag the call would pass is on exactly when the id is not 'none' (the setter is undefined, so the source throws there) |

## Left out

- Where the code and its design description disagree, the model follows the code:
  - there is no persistence layer;
  - the store holds no billing, card or protection fields;
  - only the move to payment is gated, and there is no step-1 or step-3 gate;
  - the tiers are luxe, classic and none;
  - ids are reused after removal (see `Booking.RemovedIdIsReused`).
- `setFlightProtection` (flight-protection.tsx:106, 113) is not provided by the store, so the destructured name is `undefined`.
- `FlightProtection.ProtectionPicker.HandleOptionSelect`: the source throws a `TypeError` at flight-protection.tsx:113, after it has recorded the choice and forwarded it to `onSelectionChange`. The model does not capture the throw. Its out-parameter is the flag the call would have passed, and no store receives it.
- `addPassenger` and `removePassenger` (BookingContext.tsx:202-203) are exported, but no component in this model calls them. The same holds for `formatPassportNumber`, `formatName` and `formatFrequentFlyerNumber` (passenger-details.tsx:499-514), `handleCountrySelect` (contact-information.tsx:487) and the stepper's `handleNext`/`handlePrev` (checkout-steps.tsx:46-59). They are defined but never called. They are modelled as written and are reachable only through their APIs, not from user input; this includes the `-Infinity` case under Findings.
- `flightProtectionType` (booking-summary.tsx:26) does not exist on the state. Pricing is a function of an optional tier, and `TotalAsWired` records that the summary as wired always shows the base fare.
- The booking drawer and the mobile bar compute a flat total of 1245 plus 45. They read a `flightProtection` field the store lacks, which disagrees with the summary's tiered prices. Those files are not part of this model.
- Prices are integer cents, not JavaScript floating point. The rendering of the number total (`$1730.1`) is not modelled.
- Dates are integer triples compared lexicographically. JavaScript `Date` rolls invalid days over (31 Feb becomes early March) and maps two-digit years to 19xx; neither is modelled.
- Strings are sequences of Unicode characters. JavaScript measures lengths in UTF-16 code units. Case mapping is ASCII only, and non-ASCII mappings are not modelled.
- `validator.isEmail`, `isValidPhoneNumber`, zod, react-hook-form and the card preview widget are foreign code. The two predicates are parameters. The `try`/`catch` paths around the phone check and the synchronisation are not modelled, because the predicates are total.
- Timers, debouncing, effect scheduling, the modal, keyboard and scroll handlers, and the click-outside listener are timing and DOM behaviour. The validation effects are methods the caller invokes. The email effect's dependency list is a reactivity detail, not a rule.
- `Payment.GetCountryName` and `Payment.GetNationalityFlag` look codes up in a Dafny map. A JavaScript object lookup also finds inherited keys, so `countryData["constructor"]?.name` is `"Object"`, while the model returns the code. Nationality codes come from the select, which never yields such a key.
- The 250-entry country tables are reference data. Each is a sample of a few entries: seven in the contact form and five in the payment lookup.
- JSX, styling, class-name builders and validation icons are presentation only.
- The stale read of `bookingState` in `addPassenger` matters only under batched updates. The model is sequential.
- `getPassengerName`/`getPassengerInitials` in passenger-details.tsx:584-600 read the same way as the payment step's helpers. They are modelled once, as `Payment.GetPassengerName` and `Payment.GetPassengerInitials`.
- `ContactInformation.FormatPhoneDisplay`: requires its input to be digits. Its only caller passes the digit state, which `handlePhoneChange` keeps digit-only.
- `Payment.LuhnCheck`: requires its input to be digits. Its only caller runs it after the all-digits test.
- `ContactInformation.ContactForm.HandleCountrySelect` and `ContactInformation.ContactForm.PickCountryFromList`: require the country to come from the table, which every list entry does.
- `PassengerDetails.FieldIndicator`: describes the indicator once the form has been validated. Before the first validation, react-hook-form shows no errors.
- `Payment.LuhnExampleValid` and `Payment.LuhnExampleInvalid`: state the test numbers by their shape (a 4, fourteen 1s, a last digit). `Payment.TestCardNumbers` proves the two literal numbers have that shape.

## Findings

| source | as written | input that shows it | evidently intended | confidence | as-written member | corrected member |
|---|---|---|---|---|---|---|
| src/contexts/BookingContext.tsx:161 | the new id is `Math.max(...ids) + 1` | remove every passenger, then add one: `Math.max()` of no ids is `-Infinity`, so the new record's id is `-Infinity` | an integer id, 1 for an empty list | not executed | Booking.JsNewPassengerIdOnEmptyList | Booking.NextId |
