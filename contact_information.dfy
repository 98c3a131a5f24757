/**
 * The contact form: the phone number split into a country and its digits, the phone
 * display formatter, the email and phone classifications, the country search and the
 * write of a validated contact into the booking store.
 */
module ContactInformation {
  import opened Wrappers
  import opened Text
  import opened Forms
  import Booking

  datatype Country = Country(code: string, name: string, flag: string, callingCode: string, exampleLength: nat)

  /** The first entries of the country table, in table order (the United States first). */
  const Countries: seq<Country> := [
    Country("US", "United States", "\U{1F1FA}\U{1F1F8}", "+1", 10),
    Country("GB", "United Kingdom", "\U{1F1EC}\U{1F1E7}", "+44", 10),
    Country("DE", "Germany", "\U{1F1E9}\U{1F1EA}", "+49", 11),
    Country("FR", "France", "\U{1F1EB}\U{1F1F7}", "+33", 10),
    Country("RU", "Russia", "\U{1F1F7}\U{1F1FA}", "+7", 10),
    Country("UA", "Ukraine", "\U{1F1FA}\U{1F1E6}", "+380", 9),
    Country("CA", "Canada", "\U{1F1E8}\U{1F1E6}", "+1", 10)]

  /** The outcome of a field check with the message shown under the field. */
  datatype ValidationState = ValidationState(isValid: bool, message: string, kind: Status)

  const IdleState: ValidationState := ValidationState(false, "", Idle)

  /** `allCountries.find(c => c.code === code)` */
  function FindCountry(cs: seq<Country>, code: string): (r: Option<Country>)
    ensures r.None? <==> forall k :: 0 <= k < |cs| ==> cs[k].code != code
    ensures r.Some? ==> r.value in cs && r.value.code == code
  {
    if cs == [] then None
    else if cs[0].code == code then Some(cs[0])
    else FindCountry(cs[1..], code)
  }

  predicate DistinctCodes(cs: seq<Country>) {
    forall i, j :: 0 <= i < j < |cs| ==> cs[i].code != cs[j].code
  }

  /** In a table whose codes are distinct, looking up an entry's code finds that entry. */
  lemma {:induction false} FindDistinct(cs: seq<Country>, k: nat)
    requires DistinctCodes(cs) && k < |cs|
    ensures FindCountry(cs, cs[k].code) == Some(cs[k])
  {
    if k > 0 {
      assert cs[0].code != cs[k].code;
      assert cs[1..][k - 1] == cs[k];
      FindDistinct(cs[1..], k - 1);
    }
  }

  /** Each code is two letters, and no two entries of the table share one. */
  lemma TableCodesDistinct()
    ensures DistinctCodes(Countries)
    ensures forall k :: 0 <= k < |Countries| ==> |Countries[k].code| == 2
  {
    var codes := seq(|Countries|, k requires 0 <= k < |Countries| => Countries[k].code);
    assert codes == ["US", "GB", "DE", "FR", "RU", "UA", "CA"];
    assert forall k :: 0 <= k < |codes| ==> |codes[k]| == 2;
    forall i, j | 0 <= i < j < |Countries|
      ensures Countries[i].code != Countries[j].code
    {
      assert codes[i] == Countries[i].code && codes[j] == Countries[j].code;
      assert codes[i][0] != codes[j][0] || codes[i][1] != codes[j][1];
    }
  }

  lemma TableLookup(k: nat)
    requires k < |Countries|
    ensures FindCountry(Countries, Countries[k].code) == Some(Countries[k])
  {
    TableCodesDistinct();
    FindDistinct(Countries, k);
  }

  // ---------------------------------------------------------------- initial phone data

  /** `initializePhoneData`: the stored contact's country (the first table entry when the code
      is missing or unknown) and the digits after that country's calling code. */
  function InitializePhoneData(contact: Option<Booking.Contact>): (Country, string) {
    var existingPhone := if contact.Some? then contact.value.phone else "";
    var existingCode := if contact.Some? && contact.value.countryCode != "" then contact.value.countryCode else "US";
    var country := FindCountry(Countries, existingCode).GetOr(Countries[0]);
    var digits :=
      if existingPhone != "" && StartsWith(existingPhone, country.callingCode)
      then KeepDigits(existingPhone[|country.callingCode|..])
      else "";
    (country, digits)
  }

  /** The country falls back to the first entry for an unknown code; the digits are empty
      unless the stored phone starts with the country's calling code, and are digits. */
  lemma InitializePhoneFallbacks(contact: Option<Booking.Contact>)
    ensures var (country, digits) := InitializePhoneData(contact);
      && country in Countries
      && AllDigits(digits)
      && (contact.None? ==> country == Countries[0] && digits == "")
      && ((contact.Some? && contact.value.countryCode != "" && FindCountry(Countries, contact.value.countryCode).None?)
            ==> country == Countries[0])
      && (contact.Some? && !StartsWith(contact.value.phone, country.callingCode) ==> digits == "")
  {
  }

  /** The contact that `syncContactData` writes. */
  function SyncedContact(email: string, country: Country, digits: string): Booking.Contact {
    Booking.Contact(email, country.callingCode + digits, country.code)
  }

  /** Reading back a written contact gives the same country and digits. */
  lemma InitializeAfterSync(email: string, k: nat, digits: string)
    requires k < |Countries| && AllDigits(digits)
    ensures InitializePhoneData(Some(SyncedContact(email, Countries[k], digits))) == (Countries[k], digits)
  {
    TableLookup(k);
    assert Countries[k].code != "" by { TableCodesDistinct(); }
    InitializeKnownCountry(email, Countries[k], digits);
  }

  /** The stored contact of a country the table finds by its code reads back as that
      country and the digits after its calling code. */
  lemma InitializeKnownCountry(email: string, country: Country, digits: string)
    requires country.code != "" && FindCountry(Countries, country.code) == Some(country)
    requires AllDigits(digits)
    ensures InitializePhoneData(Some(SyncedContact(email, country, digits))) == (country, digits)
  {
    var phone := country.callingCode + digits;
    assert phone[..|country.callingCode|] == country.callingCode;
    assert StartsWith(phone, country.callingCode);
    assert phone[|country.callingCode|..] == digits;
    FilterAllKept(digits, IsDigit);
  }

  // ---------------------------------------------------------------- phone display

  predicate GroupedAsNorthAmerican(code: string) { code == "US" || code == "CA" }

  /** `formatPhoneDisplay`: `(AAA) BBB-CCCC` for the United States and Canada once three
      digits are typed, otherwise groups of three separated by spaces. */
  function FormatPhoneDisplay(code: string, digits: string): string
    requires AllDigits(digits)
  {
    if digits == "" then ""
    else if GroupedAsNorthAmerican(code) && |digits| >= 6 then
      "(" + digits[..3] + ") " + digits[3..6] + "-" + digits[6..if |digits| < 10 then |digits| else 10]
    else if GroupedAsNorthAmerican(code) && |digits| >= 3 then
      "(" + digits[..3] + ") " + digits[3..]
    else Trim(Grouped(digits, 3))
  }

  lemma KeepDigitsOfDigits(d: string)
    requires AllDigits(d)
    ensures KeepDigits(d) == d
  {
    FilterAllKept(d, IsDigit);
  }

  /** The punctuation of the North American layout holds no digit. */
  lemma AppendDigits(s: string, x: string)
    requires AllDigits(x)
    ensures KeepDigits(s + x) == KeepDigits(s) + x
  {
    FilterAppend(s, x, IsDigit);
    KeepDigitsOfDigits(x);
  }

  lemma AppendPunctuation(s: string, p: string)
    requires forall i :: 0 <= i < |p| ==> !IsDigit(p[i])
    ensures KeepDigits(s + p) == KeepDigits(s)
  {
    FilterAppend(s, p, IsDigit);
    FilterNoneKept(p, IsDigit);
  }

  lemma LayoutDigits(a: string, b: string, c: string)
    requires AllDigits(a) && AllDigits(b) && AllDigits(c)
    ensures KeepDigits("(" + a + ") " + b + "-" + c) == a + b + c
    ensures KeepDigits("(" + a + ") " + b) == a + b
  {
    assert KeepDigits("(") == [] by { FilterNoneKept("(", IsDigit); }
    assert KeepDigits("(" + a) == a by { AppendDigits("(", a); }
    assert KeepDigits("(" + a + ") ") == a by { AppendPunctuation("(" + a, ") "); }
    assert KeepDigits("(" + a + ") " + b) == a + b by { AppendDigits("(" + a + ") ", b); }
    assert KeepDigits("(" + a + ") " + b + "-") == a + b by { AppendPunctuation("(" + a + ") " + b, "-"); }
    assert KeepDigits("(" + a + ") " + b + "-" + c) == a + b + c by { AppendDigits("(" + a + ") " + b + "-", c); }
  }

  lemma NorthAmericanDigits(code: string, d: string)
    requires AllDigits(d) && GroupedAsNorthAmerican(code)
    ensures KeepDigits(FormatPhoneDisplay(code, d)) == Take(d, 10)
  {
    if |d| >= 6 {
      var e := if |d| < 10 then |d| else 10;
      assert FormatPhoneDisplay(code, d) == "(" + d[..3] + ") " + d[3..6] + "-" + d[6..e];
      assert KeepDigits("(" + d[..3] + ") " + d[3..6] + "-" + d[6..e]) == d[..3] + d[3..6] + d[6..e] by {
        LayoutDigits(d[..3], d[3..6], d[6..e]);
      }
      assert d[..3] + d[3..6] + d[6..e] == d[..e];
    } else if |d| >= 3 {
      assert FormatPhoneDisplay(code, d) == "(" + d[..3] + ") " + d[3..];
      assert KeepDigits("(" + d[..3] + ") " + d[3..]) == d[..3] + d[3..] by {
        LayoutDigits(d[..3], d[3..], "");
      }
      assert d[..3] + d[3..] == d;
    } else if d != "" {
      assert FormatPhoneDisplay(code, d) == Trim(Grouped(d, 3));
      OtherLayoutDigits(d);
    }
  }

  /** Groups of three, trimmed, keep every digit. */
  lemma OtherLayoutDigits(d: string)
    requires AllDigits(d)
    ensures KeepDigits(Trim(Grouped(d, 3))) == d
  {
    TrimGrouped(d, 3);
    FilterSpaced(d, 3, IsDigit);
  }

  lemma OtherCountryDigits(code: string, d: string)
    requires AllDigits(d) && !GroupedAsNorthAmerican(code)
    ensures KeepDigits(FormatPhoneDisplay(code, d)) == d
  {
    if d != "" {
      OtherLayoutDigits(d);
    }
  }

  /** Removing the non-digits from the display gives back the digits: always outside the
      United States and Canada, and there the first ten, so all of them up to ten. */
  lemma PhoneDisplayDigits(code: string, d: string)
    requires AllDigits(d)
    ensures !GroupedAsNorthAmerican(code) ==> KeepDigits(FormatPhoneDisplay(code, d)) == d
    ensures GroupedAsNorthAmerican(code) ==> KeepDigits(FormatPhoneDisplay(code, d)) == Take(d, 10)
    ensures |d| <= 10 ==> KeepDigits(FormatPhoneDisplay(code, d)) == d
  {
    if GroupedAsNorthAmerican(code) {
      NorthAmericanDigits(code, d);
    } else {
      OtherCountryDigits(code, d);
    }
  }

  /** The display of no digits is empty; with six or more digits in the United States or
      Canada it reads `(AAA) BBB-CCCC` over at most the first ten digits. */
  lemma PhoneDisplayShape(code: string, d: string)
    requires AllDigits(d)
    ensures FormatPhoneDisplay(code, "") == ""
    ensures GroupedAsNorthAmerican(code) && |d| >= 6 ==>
      var r := FormatPhoneDisplay(code, d);
      var e := if |d| < 10 then |d| else 10;
      && |r| == e + 4
      && r[0] == '(' && r[1..4] == d[..3] && r[4] == ')' && r[5] == ' '
      && r[6..9] == d[3..6] && r[9] == '-' && r[10..] == d[6..e]
  {
  }

  // ---------------------------------------------------------------- classifications

  /** `Enter N more digits` */
  function MissingDigitsMessage(missing: int): string {
    "Enter " + IntToString(missing) + " more digits"
  }

  /** The phone check for the selected country; `isValidPhone` stands for the phone-number
      library's validity test on the full international number. */
  function PhoneValidation(country: Country, digits: string, isValidPhone: string -> bool): ValidationState {
    if digits == "" then IdleState
    else if |digits| < 3 then
      ValidationState(false, MissingDigitsMessage(country.exampleLength - |digits|), Error)
    else if isValidPhone(country.callingCode + digits) then
      ValidationState(true, "Valid phone number", Success)
    else if |digits| < country.exampleLength then
      ValidationState(false, MissingDigitsMessage(country.exampleLength - |digits|), Error)
    else
      ValidationState(false, "Please enter a valid phone number", Error)
  }

  /** No digits is idle; fewer than three is an error; otherwise the library decides. A
      failure short of the country's length reports how many digits are missing, a number
      that reads back exactly. */
  lemma PhoneClassification(country: Country, digits: string, isValidPhone: string -> bool)
    ensures var v := PhoneValidation(country, digits, isValidPhone);
      && (v.kind == Idle <==> digits == "")
      && (v.isValid <==> v.kind == Success)
      && (v.kind == Success <==> |digits| >= 3 && isValidPhone(country.callingCode + digits))
      && (0 < |digits| < 3 ==> v.kind == Error)
      && (v.kind == Error && |digits| < country.exampleLength ==>
            v.message == MissingDigitsMessage(country.exampleLength - |digits|))
      && (v.kind == Error && 3 <= |digits| && country.exampleLength <= |digits| ==>
            v.message == "Please enter a valid phone number")
    ensures var v := PhoneValidation(country, digits, isValidPhone);
      v.kind == Error && |digits| < country.exampleLength ==>
        var msg := v.message;
        && |msg| > 18 && msg[..6] == "Enter " && msg[|msg| - 12..] == " more digits"
        && ParseInt(msg[6..|msg| - 12]) == Some(country.exampleLength - |digits|)
  {
    var v := PhoneValidation(country, digits, isValidPhone);
    if v.kind == Error && |digits| < country.exampleLength {
      var n := country.exampleLength - |digits|;
      var w := IntToString(n);
      assert v.message == "Enter " + w + " more digits";
      assert v.message[6..|v.message| - 12] == w;
      ParseIntRoundTrip(n);
    }
  }

  const CommonDomains: seq<string> :=
    ["gmail.com", "yahoo.com", "hotmail.com", "outlook.com", "icloud.com", "mail.ru", "yandex.ru"]

  /** The email check; `isEmail` stands for the validator library's address test. */
  function EmailValidation(email: string, isEmail: string -> bool): ValidationState {
    var parts := Split(email, '@');
    if email == "" then IdleState
    else if isEmail(email) then
      if |parts| >= 2 && parts[1] in CommonDomains
      then ValidationState(true, "Valid email address", Success)
      else ValidationState(true, "Email format is valid", Success)
    else if '@' !in email then ValidationState(false, "Email must contain @ symbol", Error)
    else if |parts| > 2 then ValidationState(false, "Email contains too many @ symbols", Error)
    else if parts[1] == "" then ValidationState(false, "Email must have a domain", Error)
    else ValidationState(false, "Please enter a valid email address", Error)
  }

  /** With exactly one `@`, the address is its local part, the `@` and its domain. */
  lemma SingleAt(email: string)
    requires CountChar(email, '@') == 1
    ensures var parts := Split(email, '@');
      email == parts[0] + "@" + parts[1] && '@' !in parts[1]
      && (parts[1] == "" <==> email[|email| - 1] == '@')
  {
    var parts := Split(email, '@');
    JoinSplit(email, '@');
    assert Join(parts, '@') == parts[0] + "@" + Join(parts[1..], '@');
    assert parts[1..] == [parts[1]];
    if parts[1] != "" {
      assert email[|email| - 1] == parts[1][|parts[1]| - 1];
    }
  }

  /** Empty is idle; an address the library accepts is a success, valid and nothing else. */
  lemma EmailKinds(email: string, isEmail: string -> bool)
    ensures var v := EmailValidation(email, isEmail);
      && (v.kind == Idle <==> email == "")
      && (v.isValid <==> v.kind == Success)
      && (v.kind == Success <==> email != "" && isEmail(email))
  {
    var v := EmailValidation(email, isEmail);
    if email == "" {
      assert v == IdleState;
    } else if isEmail(email) {
      assert v.isValid && v.kind == Success;
    } else {
      assert !v.isValid && v.kind == Error;
    }
  }

  /** A rejected address is explained by the first that applies of: no `@`, several `@`,
      nothing after the `@`. */
  lemma EmailErrorMessage(email: string, isEmail: string -> bool)
    requires email != "" && !isEmail(email)
    ensures EmailValidation(email, isEmail).message ==
      if '@' !in email then "Email must contain @ symbol"
      else if CountChar(email, '@') >= 2 then "Email contains too many @ symbols"
      else if email[|email| - 1] == '@' then "Email must have a domain"
      else "Please enter a valid email address"
  {
    var parts := Split(email, '@');
    var v := EmailValidation(email, isEmail);
    if '@' !in email {
      assert v.message == "Email must contain @ symbol";
    } else if CountChar(email, '@') >= 2 {
      assert |parts| > 2;
      assert v.message == "Email contains too many @ symbols";
    } else {
      assert CountChar(email, '@') == 1;
      SingleAt(email);
      assert |parts| == 2;
      if email[|email| - 1] == '@' {
        assert v.message == "Email must have a domain";
      } else {
        assert v.message == "Please enter a valid email address";
      }
    }
  }

  /** An accepted address at one of the common providers reads `Valid email address`. */
  lemma EmailSuccessMessage(email: string, isEmail: string -> bool)
    requires email != "" && isEmail(email)
    ensures var parts := Split(email, '@');
      EmailValidation(email, isEmail).message ==
        if |parts| >= 2 && parts[1] in CommonDomains then "Valid email address" else "Email format is valid"
  {
  }

  // ---------------------------------------------------------------- country search

  /** The search keeps a country when its lower-cased name contains the lower-cased term or
      its calling code contains the term as typed. */
  predicate CountryMatches(c: Country, term: string) {
    Contains(ToLower(c.name), ToLower(term)) || Contains(c.callingCode, term)
  }

  function FilterCountries(cs: seq<Country>, term: string): (r: seq<Country>)
    ensures |r| <= |cs|
  {
    if cs == [] then []
    else (if CountryMatches(cs[0], term) then [cs[0]] else []) + FilterCountries(cs[1..], term)
  }

  /** A country is listed exactly when it is in the table and matches the term. */
  lemma {:induction false} FilterCountriesContents(cs: seq<Country>, term: string)
    ensures forall c :: c in FilterCountries(cs, term) <==> c in cs && CountryMatches(c, term)
  {
    if cs != [] {
      FilterCountriesContents(cs[1..], term);
      assert forall c :: c in cs <==> c == cs[0] || c in cs[1..];
    }
  }

  /** An empty search lists the whole table in order. */
  lemma {:induction false} EmptySearchListsAll(cs: seq<Country>)
    ensures FilterCountries(cs, "") == cs
  {
    if cs != [] {
      EmptySearchListsAll(cs[1..]);
      assert StartsWith(ToLower(cs[0].name), ToLower(""));
    }
  }

  // ---------------------------------------------------------------- the form

  class ContactForm {
    var email: string
    var mobilePhone: string
    var receiveOffers: bool
    var selectedCountry: Country
    var showCountryDropdown: bool
    var countrySearchTerm: string
    var phoneDigitsOnly: string
    var emailValidation: ValidationState
    var phoneValidation: ValidationState

    /** The phone digits are digits and the selected country comes from the table. */
    predicate Valid()
      reads this
    {
      AllDigits(phoneDigitsOnly) && selectedCountry in Countries
    }

    /** The form opens on the stored contact, if any. */
    constructor (contact: Option<Booking.Contact>)
      ensures Valid()
      ensures email == (if contact.Some? then contact.value.email else "")
      ensures mobilePhone == (if contact.Some? then contact.value.phone else "")
      ensures (selectedCountry, phoneDigitsOnly) == InitializePhoneData(contact)
      ensures !receiveOffers && !showCountryDropdown && countrySearchTerm == ""
      ensures emailValidation == IdleState && phoneValidation == IdleState
    {
      InitializePhoneFallbacks(contact);
      var (country, digits) := InitializePhoneData(contact);
      email := if contact.Some? then contact.value.email else "";
      mobilePhone := if contact.Some? then contact.value.phone else "";
      receiveOffers := false;
      selectedCountry := country;
      showCountryDropdown := false;
      countrySearchTerm := "";
      phoneDigitsOnly := digits;
      emailValidation := IdleState;
      phoneValidation := IdleState;
    }

    method HandleEmailChange(value: string)
      requires Valid()
      modifies this
      ensures Valid()
      ensures email == value
      ensures mobilePhone == old(mobilePhone) && phoneDigitsOnly == old(phoneDigitsOnly)
      ensures selectedCountry == old(selectedCountry) && receiveOffers == old(receiveOffers)
      ensures emailValidation == old(emailValidation) && phoneValidation == old(phoneValidation)
      ensures showCountryDropdown == old(showCountryDropdown) && countrySearchTerm == old(countrySearchTerm)
    {
      email := value;
    }

    /** `handlePhoneChange`: keeps the digits of what was typed and rebuilds the full number
        with the selected calling code. */
    method HandlePhoneChange(value: string)
      requires Valid()
      modifies this
      ensures Valid()
      ensures phoneDigitsOnly == KeepDigits(value)
      ensures mobilePhone == selectedCountry.callingCode + phoneDigitsOnly
      ensures email == old(email) && selectedCountry == old(selectedCountry) && receiveOffers == old(receiveOffers)
      ensures emailValidation == old(emailValidation) && phoneValidation == old(phoneValidation)
      ensures showCountryDropdown == old(showCountryDropdown) && countrySearchTerm == old(countrySearchTerm)
    {
      var digitsOnly := KeepDigits(value);
      phoneDigitsOnly := digitsOnly;
      mobilePhone := selectedCountry.callingCode + digitsOnly;
    }

    /** `handleCountrySelect`: changes the country, closes the list and, when digits have
        been typed, rebuilds the full number with the new calling code. */
    method HandleCountrySelect(country: Country)
      requires Valid() && country in Countries
      modifies this
      ensures Valid()
      ensures selectedCountry == country && !showCountryDropdown
      ensures mobilePhone == if old(phoneDigitsOnly) != "" then country.callingCode + old(phoneDigitsOnly) else old(mobilePhone)
      ensures phoneDigitsOnly == old(phoneDigitsOnly) && email == old(email) && receiveOffers == old(receiveOffers)
      ensures emailValidation == old(emailValidation) && phoneValidation == old(phoneValidation)
      ensures countrySearchTerm == old(countrySearchTerm)
    {
      selectedCountry := country;
      showCountryDropdown := false;
      if phoneDigitsOnly != "" {
        mobilePhone := country.callingCode + phoneDigitsOnly;
      }
    }

    /** The list entry's click handler: changes the country, closes the list and clears the
        search, leaving the full number as it was. */
    method PickCountryFromList(country: Country)
      requires Valid() && country in Countries
      modifies this
      ensures Valid()
      ensures selectedCountry == country && !showCountryDropdown && countrySearchTerm == ""
      ensures mobilePhone == old(mobilePhone) && phoneDigitsOnly == old(phoneDigitsOnly)
      ensures email == old(email) && receiveOffers == old(receiveOffers)
      ensures emailValidation == old(emailValidation) && phoneValidation == old(phoneValidation)
    {
      selectedCountry := country;
      showCountryDropdown := false;
      countrySearchTerm := "";
    }

    /** The email effect's body. */
    method ValidateEmail(isEmail: string -> bool)
      requires Valid()
      modifies this
      ensures Valid()
      ensures emailValidation == EmailValidation(email, isEmail)
      ensures email == old(email) && mobilePhone == old(mobilePhone) && phoneDigitsOnly == old(phoneDigitsOnly)
      ensures selectedCountry == old(selectedCountry) && phoneValidation == old(phoneValidation)
      ensures receiveOffers == old(receiveOffers)
      ensures showCountryDropdown == old(showCountryDropdown) && countrySearchTerm == old(countrySearchTerm)
    {
      emailValidation := EmailValidation(email, isEmail);
    }

    /** The phone effect's body. */
    method ValidatePhone(isValidPhone: string -> bool)
      requires Valid()
      modifies this
      ensures Valid()
      ensures phoneValidation == PhoneValidation(selectedCountry, phoneDigitsOnly, isValidPhone)
      ensures email == old(email) && mobilePhone == old(mobilePhone) && phoneDigitsOnly == old(phoneDigitsOnly)
      ensures selectedCountry == old(selectedCountry) && emailValidation == old(emailValidation)
      ensures receiveOffers == old(receiveOffers)
      ensures showCountryDropdown == old(showCountryDropdown) && countrySearchTerm == old(countrySearchTerm)
    {
      phoneValidation := PhoneValidation(selectedCountry, phoneDigitsOnly, isValidPhone);
    }

    /** `syncContactData`: only when both checks pass is the contact written, with the full
        number rebuilt from the calling code and the digits. */
    method SyncContactData(store: Booking.BookingStore)
      requires Valid()
      modifies store
      ensures emailValidation.isValid && phoneValidation.isValid ==>
        store.state == old(store.state).(contact := Some(SyncedContact(email, selectedCountry, phoneDigitsOnly)))
      ensures !(emailValidation.isValid && phoneValidation.isValid) ==> store.state == old(store.state)
    {
      if emailValidation.isValid && phoneValidation.isValid {
        store.UpdateContact(SyncedContact(email, selectedCountry, phoneDigitsOnly));
      }
    }
  }
}
