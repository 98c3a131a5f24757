/**
 * The passenger form: the field rules and the two date refinements of its schema, the
 * input formatters, the progress count, the per-field indicator and the submission that
 * writes the form into the booking store.
 */
module PassengerDetails {
  import opened Wrappers
  import opened Text
  import opened Calendar
  import opened Forms
  import Booking

  /** The form's values: one string per input. */
  datatype FormData = FormData(
    title: string,
    gender: string,
    firstName: string,
    lastName: string,
    birthDay: string,
    birthMonth: string,
    birthYear: string,
    nationality: string,
    passportNumber: string,
    expiryDay: string,
    expiryMonth: string,
    expiryYear: string,
    frequentFlyerNumber: string)

  datatype FormField =
    | Title | Gender | FirstName | LastName | BirthDay | BirthMonth | BirthYear
    | Nationality | PassportNumber | ExpiryDay | ExpiryMonth | ExpiryYear | FrequentFlyerNumber

  function Value(data: FormData, f: FormField): string {
    match f
    case Title => data.title
    case Gender => data.gender
    case FirstName => data.firstName
    case LastName => data.lastName
    case BirthDay => data.birthDay
    case BirthMonth => data.birthMonth
    case BirthYear => data.birthYear
    case Nationality => data.nationality
    case PassportNumber => data.passportNumber
    case ExpiryDay => data.expiryDay
    case ExpiryMonth => data.expiryMonth
    case ExpiryYear => data.expiryYear
    case FrequentFlyerNumber => data.frequentFlyerNumber
  }

  // ---------------------------------------------------------------- field rules

  /** `[a-zA-Z\s'-]` */
  predicate NameChar(c: char) { IsLetter(c) || IsWhitespace(c) || c == '\'' || c == '-' }

  predicate AllNameChars(s: string) { forall i :: 0 <= i < |s| ==> NameChar(s[i]) }

  predicate AllUpperOrDigit(s: string) { forall i :: 0 <= i < |s| ==> IsUpperOrDigit(s[i]) }

  /** The first failing check of a name field, in the order the schema lists them. */
  function NameMessage(caption: string, s: string): Option<string> {
    if |s| < 1 then Some(caption + " is required")
    else if |s| < 2 then Some(caption + " must be at least 2 characters")
    else if |s| > 50 then Some(caption + " must be less than 50 characters")
    else if !AllNameChars(s) then Some(caption + " can only contain letters, spaces, hyphens, and apostrophes")
    else None
  }

  predicate NameOk(s: string) { 2 <= |s| <= 50 && AllNameChars(s) }

  function PassportMessage(s: string): Option<string> {
    if |s| < 1 then Some("Passport number is required")
    else if |s| < 6 then Some("Passport number must be at least 6 characters")
    else if |s| > 15 then Some("Passport number must be less than 15 characters")
    else if !AllUpperOrDigit(s) then Some("Passport number can only contain uppercase letters and numbers")
    else None
  }

  predicate PassportOk(s: string) { 6 <= |s| <= 15 && AllUpperOrDigit(s) }

  /** Empty, or `[A-Z0-9]{6,15}`. */
  predicate FrequentFlyerOk(s: string) { s == "" || (6 <= |s| <= 15 && AllUpperOrDigit(s)) }

  /** A name is accepted exactly when it has 2 to 50 characters, all letters, whitespace,
      hyphens or apostrophes; a passport number exactly when it has 6 to 15 characters from
      A-Z and 0-9. */
  lemma FieldRules(caption: string, s: string)
    ensures NameMessage(caption, s).None? <==> NameOk(s)
    ensures PassportMessage(s).None? <==> PassportOk(s)
    ensures NameMessage(caption, s) == Some(caption + " is required") <== s == ""
  {
  }

  // ---------------------------------------------------------------- date refinements

  /** `parseInt` of the three parts, when all three give a number. */
  function ParseDate(day: string, month: string, year: string): Option<Date> {
    var y, m, d := ParseInt(year), ParseInt(month), ParseInt(day);
    if y.Some? && m.Some? && d.Some? then Some(Date(y.value, m.value, d.value)) else None
  }

  /** Vacuous until all three parts are chosen; then the date must parse, lie between 0 and
      120 calendar years before today's year, and not be after today. */
  predicate BirthDateOk(day: string, month: string, year: string, today: Date) {
    if day == "" || month == "" || year == "" then true
    else match ParseDate(day, month, year)
      case None => false
      case Some(b) => 0 <= today.year - b.year <= 120 && !Before(today, b)
  }

  /** Vacuous until all three parts are chosen; then the date must parse and be after today. */
  predicate ExpiryDateOk(day: string, month: string, year: string, today: Date) {
    if day == "" || month == "" || year == "" then true
    else match ParseDate(day, month, year)
      case None => false
      case Some(e) => Before(today, e)
  }

  /** The refinements: a missing part passes both; a birth date after today or more than
      120 years back fails; a passport expiring today fails, though one born today passes. */
  lemma DateRefinements(day: string, month: string, year: string, today: Date)
    ensures day == "" || month == "" || year == "" ==>
      BirthDateOk(day, month, year, today) && ExpiryDateOk(day, month, year, today)
    ensures day != "" && month != "" && year != "" && ParseDate(day, month, year).None? ==>
      !BirthDateOk(day, month, year, today) && !ExpiryDateOk(day, month, year, today)
    ensures day != "" && month != "" && year != "" && ParseDate(day, month, year) == Some(today) ==>
      BirthDateOk(day, month, year, today) && !ExpiryDateOk(day, month, year, today)
    ensures day != "" && month != "" && year != "" && ParseDate(day, month, year).Some? ==>
      var d := ParseDate(day, month, year).value;
      (Before(today, d) || d.year < today.year - 120 ==> !BirthDateOk(day, month, year, today))
      && (Before(today, d) <==> ExpiryDateOk(day, month, year, today))
  {
  }

  /** The same three parts can never pass both checks: a birth date is at the latest today,
      an expiry date strictly after it. */
  lemma BirthAndExpiryExclusive(day: string, month: string, year: string, today: Date)
    requires day != "" && month != "" && year != ""
    ensures !(BirthDateOk(day, month, year, today) && ExpiryDateOk(day, month, year, today))
  {
  }

  /** The message shown under a field, `None` when the field has no error. The birth-day and
      expiry-day fields also carry the refinements' messages. */
  function FieldMessage(data: FormData, f: FormField, today: Date): Option<string> {
    match f
    case Title => if data.title == "" then Some("Title is required") else None
    case Gender => if data.gender == "" then Some("Gender is required") else None
    case FirstName => NameMessage("First name", data.firstName)
    case LastName => NameMessage("Last name", data.lastName)
    case BirthDay =>
      if data.birthDay == "" then Some("Day is required")
      else if !BirthDateOk(data.birthDay, data.birthMonth, data.birthYear, today)
      then Some("Please enter a valid birth date")
      else None
    case BirthMonth => if data.birthMonth == "" then Some("Month is required") else None
    case BirthYear => if data.birthYear == "" then Some("Year is required") else None
    case Nationality => if data.nationality == "" then Some("Nationality is required") else None
    case PassportNumber => PassportMessage(data.passportNumber)
    case ExpiryDay =>
      if data.expiryDay == "" then Some("Day is required")
      else if !ExpiryDateOk(data.expiryDay, data.expiryMonth, data.expiryYear, today)
      then Some("Passport must not be expired")
      else None
    case ExpiryMonth => if data.expiryMonth == "" then Some("Month is required") else None
    case ExpiryYear => if data.expiryYear == "" then Some("Year is required") else None
    case FrequentFlyerNumber =>
      if FrequentFlyerOk(data.frequentFlyerNumber) then None
      else Some("Frequent flyer number must be 6-15 characters with only letters and numbers")
  }

  /** The schema accepts the form when no field has a message. */
  predicate SchemaValid(data: FormData, today: Date) {
    && FieldMessage(data, Title, today).None?
    && FieldMessage(data, Gender, today).None?
    && FieldMessage(data, FirstName, today).None?
    && FieldMessage(data, LastName, today).None?
    && FieldMessage(data, BirthDay, today).None?
    && FieldMessage(data, BirthMonth, today).None?
    && FieldMessage(data, BirthYear, today).None?
    && FieldMessage(data, Nationality, today).None?
    && FieldMessage(data, PassportNumber, today).None?
    && FieldMessage(data, ExpiryDay, today).None?
    && FieldMessage(data, ExpiryMonth, today).None?
    && FieldMessage(data, ExpiryYear, today).None?
    && FieldMessage(data, FrequentFlyerNumber, today).None?
  }

  /** Every field but the frequent-flyer number is filled. */
  predicate RequiredFilled(data: FormData) {
    && data.title != "" && data.gender != "" && data.firstName != "" && data.lastName != ""
    && data.birthDay != "" && data.birthMonth != "" && data.birthYear != ""
    && data.nationality != "" && data.passportNumber != ""
    && data.expiryDay != "" && data.expiryMonth != "" && data.expiryYear != ""
  }

  /** A name field has no message exactly when the name rule holds. */
  lemma NameFieldMessages(data: FormData, today: Date)
    ensures FieldMessage(data, FirstName, today).None? <==> NameOk(data.firstName)
    ensures FieldMessage(data, LastName, today).None? <==> NameOk(data.lastName)
  {
    FieldRules("First name", data.firstName);
    FieldRules("Last name", data.lastName);
  }

  /** The passport and frequent-flyer fields have no message exactly when their rules hold. */
  lemma CodeFieldMessages(data: FormData, today: Date)
    ensures FieldMessage(data, PassportNumber, today).None? <==> PassportOk(data.passportNumber)
    ensures FieldMessage(data, FrequentFlyerNumber, today).None? <==> FrequentFlyerOk(data.frequentFlyerNumber)
  {
    FieldRules("", data.passportNumber);
  }

  /** The day fields have no message exactly when filled and their refinement holds. */
  lemma DateFieldMessages(data: FormData, today: Date)
    ensures FieldMessage(data, BirthDay, today).None? <==>
      data.birthDay != "" && BirthDateOk(data.birthDay, data.birthMonth, data.birthYear, today)
    ensures FieldMessage(data, ExpiryDay, today).None? <==>
      data.expiryDay != "" && ExpiryDateOk(data.expiryDay, data.expiryMonth, data.expiryYear, today)
  {
  }

  /** A field that is only required has no message exactly when it is filled. */
  lemma RequiredFieldMessages(data: FormData, today: Date)
    ensures FieldMessage(data, Title, today).None? <==> data.title != ""
    ensures FieldMessage(data, Gender, today).None? <==> data.gender != ""
    ensures FieldMessage(data, BirthMonth, today).None? <==> data.birthMonth != ""
    ensures FieldMessage(data, BirthYear, today).None? <==> data.birthYear != ""
    ensures FieldMessage(data, Nationality, today).None? <==> data.nationality != ""
    ensures FieldMessage(data, ExpiryMonth, today).None? <==> data.expiryMonth != ""
    ensures FieldMessage(data, ExpiryYear, today).None? <==> data.expiryYear != ""
  {
  }

  /** The schema accepts exactly the forms whose required fields are filled, whose names,
      passport and frequent-flyer numbers follow their rules and whose dates pass both
      refinements. */
  lemma SchemaValidIff(data: FormData, today: Date)
    ensures SchemaValid(data, today) <==>
      && RequiredFilled(data)
      && NameOk(data.firstName) && NameOk(data.lastName)
      && PassportOk(data.passportNumber)
      && FrequentFlyerOk(data.frequentFlyerNumber)
      && BirthDateOk(data.birthDay, data.birthMonth, data.birthYear, today)
      && ExpiryDateOk(data.expiryDay, data.expiryMonth, data.expiryYear, today)
  {
    RequiredFieldMessages(data, today);
    NameFieldMessages(data, today);
    CodeFieldMessages(data, today);
    DateFieldMessages(data, today);
  }

  // ---------------------------------------------------------------- formatters

  /** `toUpperCase().replace(/[^A-Z0-9]/g, '')` */
  function FormatPassportNumber(v: string): string {
    Filter(ToUpper(v), IsUpperOrDigit)
  }

  /** The frequent-flyer input uses the same formatter as the passport input. */
  function FormatFrequentFlyerNumber(v: string): string {
    Filter(ToUpper(v), IsUpperOrDigit)
  }

  lemma ToUpperOfUpperOrDigit(s: string)
    requires AllUpperOrDigit(s)
    ensures ToUpper(s) == s
  {
  }

  /** Both formatters output only A-Z and 0-9, and applying either twice equals applying it
      once. */
  lemma UpperAlnumFormatters(v: string)
    ensures AllUpperOrDigit(FormatPassportNumber(v)) && AllUpperOrDigit(FormatFrequentFlyerNumber(v))
    ensures FormatPassportNumber(FormatPassportNumber(v)) == FormatPassportNumber(v)
    ensures FormatFrequentFlyerNumber(FormatFrequentFlyerNumber(v)) == FormatFrequentFlyerNumber(v)
  {
    var r := FormatPassportNumber(v);
    ToUpperOfUpperOrDigit(r);
    FilterAllKept(r, IsUpperOrDigit);
  }

  /** A formatted passport number passes the passport rule exactly when it has 6 to 15
      characters. */
  lemma FormattedPassportRule(v: string)
    ensures PassportOk(FormatPassportNumber(v)) <==> 6 <= |FormatPassportNumber(v)| <= 15
  {
    UpperAlnumFormatters(v);
  }

  /**
   * `split(' ').map(word => word.charAt(0).toUpperCase() + word.slice(1)).join(' ')`:
   * the character at the start of the string or right after a space is upper-cased, every
   * other character kept.
   */
  function CapitalizeWords(s: string, atWordStart: bool): (r: string)
    ensures |r| == |s|
    ensures forall i :: 0 <= i < |s| ==>
      r[i] == if (if i == 0 then atWordStart else s[i - 1] == ' ') then ToUpperChar(s[i]) else s[i]
  {
    if s == [] then []
    else [if atWordStart then ToUpperChar(s[0]) else s[0]] + CapitalizeWords(s[1..], s[0] == ' ')
  }

  /** `formatName`: lower-case, capitalise each space-separated word, keep `[a-zA-Z\s'-]`. */
  function FormatName(v: string): string {
    Filter(CapitalizeWords(ToLower(v), true), NameChar)
  }

  /** The name formatter outputs only letters, whitespace, hyphens and apostrophes. */
  lemma FormatNameCharset(v: string)
    ensures AllNameChars(FormatName(v))
  {
  }

  /** Formatting a second time can change a name: a leading digit is dropped only after the
      capitalisation, so the letter behind it is capitalised only on the second pass. */
  lemma FormatNameNotIdempotent(v: string)
    requires v == "1john"
    ensures FormatName(v) == "john"
    ensures FormatName(FormatName(v)) == "John"
  {
    FormatLeadingDigitName(v);
    FormatLowerName(FormatName(v));
  }

  lemma FormatLeadingDigitName(v: string)
    requires v == "1john"
    ensures FormatName(v) == "john"
  {
    LowerOfLowerName(v);
    CapitalizeAfterDigit(v);
    DropLeadingDigit(v);
  }

  lemma LowerOfLowerName(v: string)
    requires v == "1john"
    ensures ToLower(v) == v
  {
    var lower := ToLower(v);
    assert lower[0] == '1' && lower[1] == 'j' && lower[2] == 'o' && lower[3] == 'h' && lower[4] == 'n';
  }

  lemma CapitalizeAfterDigit(v: string)
    requires v == "1john"
    ensures CapitalizeWords(v, true) == v
  {
    assert v[0] == '1' && v[1] == 'j' && v[2] == 'o' && v[3] == 'h' && v[4] == 'n';
    var cap := CapitalizeWords(v, true);
    assert cap[0] == '1' && cap[1] == 'j' && cap[2] == 'o' && cap[3] == 'h' && cap[4] == 'n';
  }

  lemma DropLeadingDigit(v: string)
    requires v == "1john"
    ensures Filter(v, NameChar) == "john"
  {
    var w := v[1..];
    assert !NameChar(v[0]);
    assert Filter(v, NameChar) == Filter(w, NameChar);
    assert w == "john";
    FilterAllKept(w, NameChar);
  }

  lemma FormatLowerName(w: string)
    requires w == "john"
    ensures FormatName(w) == "John"
  {
    var lower := ToLower(w);
    assert lower[0] == 'j' && lower[1] == 'o' && lower[2] == 'h' && lower[3] == 'n';
    var cap := CapitalizeWords(lower, true);
    assert cap[0] == 'J' && cap[1] == 'o' && cap[2] == 'h' && cap[3] == 'n';
    assert cap == "John";
    FilterAllKept(cap, NameChar);
  }

  // ---------------------------------------------------------------- progress

  /** The twelve fields the progress count watches; the frequent-flyer number is not one. */
  const RequiredFields: seq<FormField> := [
    Title, Gender, FirstName, LastName, BirthDay, BirthMonth, BirthYear,
    Nationality, PassportNumber, ExpiryDay, ExpiryMonth, ExpiryYear]

  const TotalRequiredFields: nat := 12

  function CountEmpty(data: FormData, fields: seq<FormField>): (n: nat)
    ensures n <= |fields|
    ensures n == 0 <==> forall k :: 0 <= k < |fields| ==> Value(data, fields[k]) != ""
  {
    if fields == [] then 0
    else (if Value(data, fields[0]) == "" then 1 else 0) + CountEmpty(data, fields[1..])
  }

  /** `getEmptyFieldsCount` */
  function EmptyFieldsCount(data: FormData): nat {
    CountEmpty(data, RequiredFields)
  }

  /** `isFormComplete` */
  predicate IsFormComplete(data: FormData) {
    EmptyFieldsCount(data) == 0
  }

  /** The progress caption's numerator. */
  function Progress(data: FormData): int {
    TotalRequiredFields - EmptyFieldsCount(data)
  }

  /** Changing the frequent-flyer number changes no other field's value. */
  lemma ValueIgnoresFrequentFlyer(data: FormData, f: FormField, ff: string)
    requires f != FrequentFlyerNumber
    ensures Value(data.(frequentFlyerNumber := ff), f) == Value(data, f)
  {
  }

  lemma {:induction false} CountEmptyIgnoresFrequentFlyer(data: FormData, fields: seq<FormField>, ff: string)
    requires FrequentFlyerNumber !in fields
    ensures CountEmpty(data.(frequentFlyerNumber := ff), fields) == CountEmpty(data, fields)
  {
    if fields != [] {
      assert fields[0] in fields;
      ValueIgnoresFrequentFlyer(data, fields[0], ff);
      assert FrequentFlyerNumber !in fields[1..];
      CountEmptyIgnoresFrequentFlyer(data, fields[1..], ff);
    }
  }

  /** Every required field filled is every field of the list filled. */
  lemma RequiredFilledIff(data: FormData)
    ensures RequiredFilled(data) <==> forall k :: 0 <= k < |RequiredFields| ==> Value(data, RequiredFields[k]) != ""
  {
    if forall k :: 0 <= k < |RequiredFields| ==> Value(data, RequiredFields[k]) != "" {
      FilledFieldsAreRequiredFilled(data);
    }
  }

  lemma FilledFieldsAreRequiredFilled(data: FormData)
    requires forall k :: 0 <= k < |RequiredFields| ==> Value(data, RequiredFields[k]) != ""
    ensures RequiredFilled(data)
  {
    var r := RequiredFields;
    assert Value(data, r[0]) != "" && Value(data, r[1]) != "" && Value(data, r[2]) != "";
    assert Value(data, r[3]) != "" && Value(data, r[4]) != "" && Value(data, r[5]) != "";
    assert Value(data, r[6]) != "" && Value(data, r[7]) != "" && Value(data, r[8]) != "";
    assert Value(data, r[9]) != "" && Value(data, r[10]) != "" && Value(data, r[11]) != "";
  }

  /** The count lies in 0..12 and ignores the frequent-flyer number; the form is complete
      exactly when it is 0, that is when every required field is filled; progress shows
      12 minus the count. */
  lemma EmptyFieldsCountFacts(data: FormData, ff: string)
    ensures 0 <= EmptyFieldsCount(data) <= 12
    ensures EmptyFieldsCount(data.(frequentFlyerNumber := ff)) == EmptyFieldsCount(data)
    ensures IsFormComplete(data) <==> RequiredFilled(data)
    ensures 0 <= Progress(data) <= 12 && Progress(data) + EmptyFieldsCount(data) == 12
  {
    CountEmptyIgnoresFrequentFlyer(data, RequiredFields, ff);
    RequiredFilledIff(data);
  }

  /** A schema-valid form is complete. */
  lemma ValidFormIsComplete(data: FormData, today: Date)
    requires SchemaValid(data, today)
    ensures IsFormComplete(data)
  {
    SchemaValidIff(data, today);
    EmptyFieldsCountFacts(data, data.frequentFlyerNumber);
  }

  // ---------------------------------------------------------------- field indicator

  /** `getFieldValidationState` once the form has been validated: `Error` when the field
      has a message, `Success` when it is filled, otherwise `Idle` (the source's 'default'). */
  function FieldIndicator(data: FormData, f: FormField, today: Date): (r: Status)
    ensures r == Error <==> FieldMessage(data, f, today).Some?
    ensures r == Success <==> FieldMessage(data, f, today).None? && Value(data, f) != ""
  {
    if FieldMessage(data, f, today).Some? then Error
    else if Value(data, f) != "" then Success
    else Idle
  }

  /** Every required field reports its emptiness as an error, so only the frequent-flyer
      number can show the neutral state, and it does exactly when empty. */
  lemma NeutralOnlyForFrequentFlyer(data: FormData, f: FormField, today: Date)
    ensures FieldIndicator(data, f, today) == Idle <==> f == FrequentFlyerNumber && data.frequentFlyerNumber == ""
  {
  }

  // ---------------------------------------------------------------- submission

  /** `{ id: passengerNumber, ...data }` */
  function SubmitPatch(id: int, data: FormData): Booking.PassengerPatch {
    Booking.PassengerPatch(
      Some(id), Some(data.title), Some(data.gender), Some(data.firstName), Some(data.lastName),
      Some(data.birthDay), Some(data.birthMonth), Some(data.birthYear), Some(data.nationality),
      Some(data.passportNumber), Some(data.expiryDay), Some(data.expiryMonth), Some(data.expiryYear),
      Some(data.frequentFlyerNumber))
  }

  /** The record the form describes. */
  function PassengerOf(id: int, data: FormData): Booking.Passenger {
    Booking.Passenger(
      id, data.title, data.gender, data.firstName, data.lastName, data.birthDay, data.birthMonth,
      data.birthYear, data.nationality, data.passportNumber, data.expiryDay, data.expiryMonth,
      data.expiryYear, data.frequentFlyerNumber)
  }

  /** The form's default values: the stored passenger's fields, `''` when there is none. */
  function DefaultValues(existing: Option<Booking.Passenger>): FormData {
    match existing
    case None => FormData("", "", "", "", "", "", "", "", "", "", "", "", "")
    case Some(p) => FormData(
      p.title, p.gender, p.firstName, p.lastName, p.birthDay, p.birthMonth, p.birthYear,
      p.nationality, p.passportNumber, p.expiryDay, p.expiryMonth, p.expiryYear,
      p.frequentFlyerNumber)
  }

  /** The patch overwrites every field of any record with the form's values. */
  lemma MergeSubmitPatch(p: Booking.Passenger, id: int, data: FormData)
    ensures Booking.Merge(p, SubmitPatch(id, data)) == PassengerOf(id, data)
    ensures DefaultValues(Some(PassengerOf(id, data))) == data
  {
  }

  /** After a submission the store's record for the passenger is exactly the form, no other
      record changes, ids stay as they were, and reopening the form shows what was
      submitted. */
  lemma SubmitStoresForm(ps: seq<Booking.Passenger>, id: int, data: FormData)
    requires Booking.HasId(ps, id)
    ensures var after := Booking.UpdatedPassengers(ps, id, SubmitPatch(id, data));
      && Booking.FindPassenger(after, id) == Some(PassengerOf(id, data))
      && |after| == |ps|
      && (forall k :: 0 <= k < |ps| && ps[k].id != id ==> after[k] == ps[k])
      && Booking.Ids(after) == Booking.Ids(ps)
      && DefaultValues(Booking.FindPassenger(after, id)) == data
  {
    var patch := SubmitPatch(id, data);
    Booking.UpdatedPassengersShape(ps, id, patch);
    Booking.UpdateKeepsIds(ps, id, patch);
    Booking.FindAfterUpdate(ps, id, patch);
    MergeSubmitPatch(Booking.FindPassenger(ps, id).value, id, data);
  }

  /** `handleSubmit(onSubmit)`: a form the schema accepts is written to the store under the
      passenger's number; a rejected form leaves the store alone. */
  method OnSubmit(store: Booking.BookingStore, passengerNumber: int, data: FormData, today: Date)
    modifies store
    ensures SchemaValid(data, today) ==>
      store.state == old(store.state).(passengers :=
        Booking.UpdatedPassengers(old(store.state.passengers), passengerNumber, SubmitPatch(passengerNumber, data)))
    ensures !SchemaValid(data, today) ==> store.state == old(store.state)
  {
    if SchemaValid(data, today) {
      store.UpdatePassenger(passengerNumber, SubmitPatch(passengerNumber, data));
    }
  }
}
