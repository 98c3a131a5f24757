/**
 * The payment step: the card and billing forms with their input formatters and
 * validators (the card number checked by the Luhn algorithm of ISO/IEC 7812-1, Annex B),
 * and the helpers that render the stored passengers in the trip summary.
 */
module Payment {
  import opened Wrappers
  import opened Text
  import opened Calendar
  import opened Forms
  import Booking

  datatype CardField = Number | Expiry | Cvc | Name

  datatype BillingField = StreetAddress | Country | StateRegion | City | ZipCode

  datatype CardData = CardData(number: string, expiry: string, cvc: string, name: string, focus: string)

  datatype BillingData = BillingData(
    streetAddress: string, country: string, stateRegion: string, city: string, zipCode: string)

  // ---------------------------------------------------------------- card number formatting

  /** The number field's formatter: strip whitespace, put a space after every four
      characters, trim, keep 19 characters. */
  function FormatCardNumber(v: string): string {
    Take(Trim(Grouped(StripWhitespace(v), 4)), 19)
  }

  lemma {:induction false} SpacedLength(t: string)
    ensures |Spaced(t, 4)| == if t == [] then 0 else |t| + (|t| - 1) / 4
    decreases |t|
  {
    if |t| > 4 {
      SpacedLength(t[4..]);
    }
  }

  /** Cutting the layout after `g` groups is the layout of the first `4g` characters. */
  lemma {:induction false} SpacedPrefix(t: string, g: nat)
    requires g >= 1
    ensures Take(Spaced(t, 4), 5 * g - 1) == Spaced(Take(t, 4 * g), 4)
    decreases g
  {
    if |t| > 4 {
      var rest := Spaced(t[4..], 4);
      assert Spaced(t, 4) == t[..4] + " " + rest;
      if g == 1 {
        assert Take(Spaced(t, 4), 4) == t[..4];
      } else {
        SpacedPrefix(t[4..], g - 1);
        var u := Take(t, 4 * g);
        assert u[..4] == t[..4];
        assert u[4..] == Take(t[4..], 4 * (g - 1));
        assert Take(Spaced(t, 4), 5 * g - 1) == t[..4] + " " + Take(rest, 5 * (g - 1) - 1);
      }
    }
  }

  /** Whatever is typed, the field shows the first 16 non-space characters in groups of four. */
  lemma FormatCardNumberLayout(v: string)
    ensures FormatCardNumber(v) == Spaced(Take(StripWhitespace(v), 16), 4)
  {
    var t := StripWhitespace(v);
    TrimGrouped(t, 4);
    SpacedPrefix(t, 4);
  }

  /** The formatted number has at most 19 characters, its non-space characters are a prefix
      of the typed ones, and formatting it again changes nothing. */
  lemma CardNumberFormatting(v: string)
    ensures |FormatCardNumber(v)| <= 19
    ensures StripWhitespace(FormatCardNumber(v)) == Take(StripWhitespace(v), 16)
    ensures StripWhitespace(FormatCardNumber(v)) <= StripWhitespace(v)
    ensures FormatCardNumber(FormatCardNumber(v)) == FormatCardNumber(v)
  {
    var t := Take(StripWhitespace(v), 16);
    FormatCardNumberLayout(v);
    SpacedLength(t);
    FilterSpaced(t, 4, IsNotWhitespace);
    FormatCardNumberLayout(FormatCardNumber(v));
  }

  // ---------------------------------------------------------------- expiry and CVC formatting

  /** The expiry field's formatter: digits only, `/` after the first two when a third
      follows, at most five characters. */
  function FormatExpiry(v: string): string {
    var d := KeepDigits(v);
    Take(if |d| >= 3 then d[..2] + "/" + d[2..] else d, 5)
  }

  /** The expiry field is `MM/YY` as far as it has been typed: at most five characters, a
      slash at position 2 exactly when a third digit was typed, digits everywhere else, the
      first four typed digits kept, and a second pass changes nothing. */
  lemma ExpiryFormatting(v: string)
    ensures var d := KeepDigits(v); var r := FormatExpiry(v);
      && |r| <= 5
      && KeepDigits(r) == Take(d, 4)
      && (|d| >= 3 <==> |r| >= 3 && r[2] == '/')
      && (forall i :: 0 <= i < |r| && i != 2 ==> IsDigit(r[i]))
      && FormatExpiry(r) == r
  {
    var d := KeepDigits(v);
    var r := FormatExpiry(v);
    if |d| >= 3 {
      var tail := Take(d[2..], 2);
      assert r == d[..2] + "/" + tail;
      FilterAllKept(d[..2], IsDigit);
      FilterAllKept(tail, IsDigit);
      FilterAppend(d[..2], "/", IsDigit);
      FilterAppend(d[..2] + "/", tail, IsDigit);
      assert KeepDigits(r) == d[..2] + tail;
      assert d[..2] + tail == Take(d, 4);
    } else {
      FilterAllKept(d, IsDigit);
    }
  }

  /** `0[1-9]|1[0-2]` */
  predicate MonthDigits(a: char, b: char) {
    (a == '0' && '1' <= b <= '9') || (a == '1' && '0' <= b <= '2')
  }

  /** `/^(0[1-9]|1[0-2])\/\d{2}$/` */
  predicate ExpiryShape(s: string) {
    |s| == 5 && MonthDigits(s[0], s[1]) && s[2] == '/' && IsDigit(s[3]) && IsDigit(s[4])
  }

  /** The formatted expiry has the `MM/YY` shape exactly when four digits were typed and the
      first two name a month. */
  lemma FormattedExpiryShape(v: string)
    ensures var d := KeepDigits(v);
      ExpiryShape(FormatExpiry(v)) <==> |d| >= 4 && MonthDigits(d[0], d[1])
  {
    var d := KeepDigits(v);
    if |d| >= 4 {
      assert FormatExpiry(v) == d[..2] + "/" + d[2..4];
    }
  }

  /** The CVC field's formatter: digits only, at most four. */
  function FormatCvc(v: string): string {
    Take(KeepDigits(v), 4)
  }

  /** The CVC field holds at most four digits, the first ones typed, and a second pass
      changes nothing. */
  lemma CvcFormatting(v: string)
    ensures AllDigits(FormatCvc(v)) && |FormatCvc(v)| <= 4
    ensures FormatCvc(v) <= KeepDigits(v)
    ensures FormatCvc(FormatCvc(v)) == FormatCvc(v)
  {
    FilterAllKept(FormatCvc(v), IsDigit);
  }

  /** The formatter chosen by the input's name; the cardholder name passes through. */
  function FormatCardInput(field: CardField, value: string): string {
    match field
    case Number => FormatCardNumber(value)
    case Expiry => FormatExpiry(value)
    case Cvc => FormatCvc(value)
    case Name => value
  }

  /** `{ ...prev, [name]: v }` on the card data. */
  function WithCardValue(c: CardData, field: CardField, v: string): (r: CardData)
    ensures r.focus == c.focus
  {
    match field
    case Number => c.(number := v)
    case Expiry => c.(expiry := v)
    case Cvc => c.(cvc := v)
    case Name => c.(name := v)
  }

  // ---------------------------------------------------------------- billing validation

  /** `[0-9A-Za-z\s-]` */
  predicate ZipChar(c: char) { IsDigit(c) || IsLetter(c) || IsWhitespace(c) || c == '-' }

  /** `/^[0-9A-Za-z\s-]{3,10}$/` */
  predicate ZipShape(s: string) {
    3 <= |s| <= 10 && forall i :: 0 <= i < |s| ==> ZipChar(s[i])
  }

  /** The outcome shown beside a billing field. */
  function BillingFieldState(field: BillingField, value: string): (r: Status)
    ensures r == Idle <==> IsBlank(value)
  {
    if IsBlank(value) then Idle
    else match field
      case StreetAddress => if |value| >= 5 then Success else Error
      case Country => if |value| > 0 then Success else Error
      case StateRegion => if |value| >= 2 then Success else Error
      case City => if |value| >= 2 then Success else Error
      case ZipCode => if ZipShape(value) then Success else Error
  }

  /** The least length each billing field accepts. */
  function BillingMinLength(field: BillingField): nat {
    match field
    case StreetAddress => 5
    case Country => 1
    case StateRegion => 2
    case City => 2
    case ZipCode => 3
  }

  /** A non-blank billing field succeeds exactly when it meets its length rule, and for the
      zip code also the upper bound of 10 and the character set; so a country, once chosen,
      is never an error. */
  lemma BillingRules(field: BillingField, value: string)
    requires !IsBlank(value)
    ensures BillingFieldState(field, value) == Success <==>
      |value| >= BillingMinLength(field) && (field == ZipCode ==> ZipShape(value))
    ensures field == Country ==> BillingFieldState(field, value) == Success
  {
    assert value != [];
  }

  // ---------------------------------------------------------------- the Luhn check

  /** A digit's contribution: doubled digits above 9 lose 9. */
  function DigitTerm(c: char, doubled: bool): (t: nat)
    requires IsDigit(c)
    ensures t <= 9
    ensures !doubled ==> t == DigitValue(c)
  {
    var d := DigitValue(c);
    if !doubled then d else if 2 * d > 9 then 2 * d - 9 else 2 * d
  }

  /** Whether the digit at index `k` of an `n`-digit number is doubled: every second digit,
      counting from the rightmost, which is not. */
  predicate Doubled(n: int, k: int) { (n - 1 - k) % 2 == 1 }

  /** The Luhn sum, read from the left. */
  function Weighted(s: string): nat
    requires AllDigits(s)
  {
    if s == [] then 0 else DigitTerm(s[0], Doubled(|s|, 0)) + Weighted(s[1..])
  }

  predicate LuhnValid(s: string)
    requires AllDigits(s)
  {
    Weighted(s) % 10 == 0
  }

  /** `luhnCheck`: the loop from the rightmost digit, alternating the doubling. */
  method LuhnCheck(num: string) returns (ok: bool)
    requires AllDigits(num)
    ensures ok == LuhnValid(num)
  {
    var sum := 0;
    var isEven := false;
    var i := |num| - 1;
    while i >= 0
      invariant -1 <= i < |num|
      invariant sum == Weighted(num[i + 1..])
      invariant isEven == Doubled(|num|, i)
      decreases i + 1
    {
      var digit := DigitValue(num[i]);
      if isEven {
        digit := digit * 2;
        if digit > 9 {
          digit := digit - 9;
        }
      }
      assert num[i..][1..] == num[i + 1..];
      sum := sum + digit;
      isEven := !isEven;
      i := i - 1;
    }
    assert num[0..] == num;
    ok := sum % 10 == 0;
  }

  /** Changing the digit at `k` moves the sum by the difference of the two contributions. */
  lemma {:induction false} WeightedUpdate(s: string, k: nat, c: char)
    requires AllDigits(s) && k < |s| && IsDigit(c)
    ensures AllDigits(s[k := c])
    ensures Weighted(s[k := c]) == Weighted(s) - DigitTerm(s[k], Doubled(|s|, k)) + DigitTerm(c, Doubled(|s|, k))
    decreases k
  {
    if k == 0 {
      assert s[k := c][1..] == s[1..];
    } else {
      assert s[k := c][1..] == s[1..][k - 1 := c];
      WeightedUpdate(s[1..], k - 1, c);
    }
  }

  lemma DigitTermInjective(a: char, b: char, doubled: bool)
    requires IsDigit(a) && IsDigit(b) && a != b
    ensures DigitTerm(a, doubled) != DigitTerm(b, doubled)
  {
  }

  /** A multiple of ten moved by one to nine, either way, is no longer a multiple of ten. */
  lemma SmallShiftBreaksMultiple(w: int, a: int, b: int)
    requires w % 10 == 0 && 0 <= a <= 9 && 0 <= b <= 9 && a != b
    ensures (w - a + b) % 10 != 0
  {
    var q := w / 10;
    assert w == 10 * q;
    assert w - a + b == 10 * q + (b - a);
  }

  /** The Luhn check detects every single-digit error. */
  lemma LuhnDetectsSingleDigitError(s: string, k: nat, c: char)
    requires AllDigits(s) && k < |s| && IsDigit(c) && c != s[k]
    requires LuhnValid(s)
    ensures AllDigits(s[k := c]) && !LuhnValid(s[k := c])
  {
    var doubled := Doubled(|s|, k);
    WeightedUpdate(s, k, c);
    DigitTermInjective(s[k], c, doubled);
    SmallShiftBreaksMultiple(Weighted(s), DigitTerm(s[k], doubled), DigitTerm(c, doubled));
  }

  // ---------------------------------------------------------------- card validation

  function CardNumberState(value: string): Status {
    var clean := StripWhitespace(value);
    if |clean| < 13 || |clean| > 19 then Error
    else if !AllDigits(clean) then Error
    else if LuhnValid(clean) then Success
    else Error
  }

  /** The value of two decimal digits. */
  function TwoDigits(a: char, b: char): int
    requires IsDigit(a) && IsDigit(b)
  {
    10 * DigitValue(a) + DigitValue(b)
  }

  /** The card's month and year compared with `today` (its year reduced modulo 100). */
  function ExpiryState(value: string, today: Date): Status {
    if !ExpiryShape(value) then Error
    else
      var month := TwoDigits(value[0], value[1]);
      var year := TwoDigits(value[3], value[4]);
      if month < 1 || month > 12 then Error
      else
        var currentYear := JsRem(today.year, 100);
        var currentMonth := today.month;
        if year < currentYear || (year == currentYear && month < currentMonth) then Error
        else Success
  }

  /** `[a-zA-Z\s]+` */
  predicate HolderNameChars(s: string) {
    s != [] && forall i :: 0 <= i < |s| ==> IsLetter(s[i]) || IsWhitespace(s[i])
  }

  /** The outcome shown beside a card field. */
  function CardFieldState(field: CardField, value: string, today: Date): (r: Status)
    ensures r == Idle <==> IsBlank(value)
  {
    if IsBlank(value) then Idle
    else match field
      case Number => CardNumberState(value)
      case Expiry => ExpiryState(value, today)
      case Cvc => if 3 <= |value| <= 4 && AllDigits(value) then Success else Error
      case Name => if |value| < 2 then Error else if HolderNameChars(value) then Success else Error
  }

  /** The number succeeds exactly when, without whitespace, it has 13 to 19 characters, all
      digits, passing the Luhn check. */
  lemma CardNumberSuccess(value: string, today: Date)
    ensures var clean := StripWhitespace(value);
      CardFieldState(Number, value, today) == Success <==>
        13 <= |clean| <= 19 && AllDigits(clean) && LuhnValid(clean)
  {
    if StripWhitespace(value) != [] {
      StrippedNonEmptyNotBlank(value);
    }
  }

  /** A run of 13 to 19 digits is a valid number exactly when it passes the Luhn check. */
  lemma CardNumberOfDigits(number: string, today: Date)
    requires AllDigits(number) && 13 <= |number| <= 19
    ensures CardFieldState(Number, number, today) == if LuhnValid(number) then Success else Error
  {
    FilterAllKept(number, IsNotWhitespace);
    NotBlankAt(number, 0);
  }

  /** Sixteen digits: a `4`, fourteen `1`s and the given last digit. */
  predicate TestCardShape(s: string, last: char) {
    |s| == 16 && s[0] == '4' && s[15] == last && forall i :: 1 <= i < 15 ==> s[i] == '1'
  }

  /** The standard test card number and the same number ending in `2` have that shape. */
  lemma TestCardNumbers()
    ensures TestCardShape("4111111111111111", '1')
    ensures TestCardShape("4111111111111112", '2')
  {
  }

  /** The standard test card number passes: its Luhn sum is 30. */
  lemma LuhnExampleValid(number: string, today: Date)
    requires TestCardShape(number, '1')
    ensures AllDigits(number) && Weighted(number) == 30
    ensures CardFieldState(Number, number, today) == Success
  {
    FourOnesDigit(number);
    CardNumberOfDigits(number, today);
  }

  /** The same number with its last digit changed fails: its Luhn sum is 31. */
  lemma LuhnExampleInvalid(number: string, today: Date)
    requires TestCardShape(number, '2')
    ensures AllDigits(number) && Weighted(number) == 31
    ensures CardFieldState(Number, number, today) == Error
  {
    FourOnesDigit(number);
    assert Weighted(number) % 10 == 1;
    CardNumberOfDigits(number, today);
  }

  /** A `4`, a run of ones and a last digit: the `4` counts 8 when doubled. */
  lemma FourOnesDigit(s: string)
    requires |s| >= 2 && s[0] == '4' && IsDigit(s[|s| - 1])
    requires forall i :: 1 <= i < |s| - 1 ==> s[i] == '1'
    ensures AllDigits(s)
    ensures Weighted(s) == DigitTerm('4', Doubled(|s|, 0)) + (|s| - 2) + (|s| - 1) / 2 + DigitValue(s[|s| - 1])
  {
    var t := s[1..];
    assert forall i :: 0 <= i < |t| - 1 ==> t[i] == s[i + 1];
    OnesThenDigit(t);
    assert forall i :: 1 <= i < |s| ==> s[i] == t[i - 1];
  }

  /** A run of `n - 1` ones and a last digit `d` sums to `(n - 1) + n / 2 + d`: the doubled
      ones count twice and the last digit is not doubled. */
  lemma {:induction false} OnesThenDigit(s: string)
    requires |s| >= 1 && IsDigit(s[|s| - 1])
    requires forall i :: 0 <= i < |s| - 1 ==> s[i] == '1'
    ensures AllDigits(s) && Weighted(s) == (|s| - 1) + |s| / 2 + DigitValue(s[|s| - 1])
    decreases |s|
  {
    if |s| > 1 {
      OnesThenDigit(s[1..]);
    }
  }

  /** Expiry succeeds exactly on an `MM/YY` value whose (year, month) is not before today's
      (year modulo 100, month); the range check after the pattern can never fail. */
  lemma ExpirySuccess(value: string, today: Date)
    ensures CardFieldState(Expiry, value, today) == Success <==>
      && ExpiryShape(value)
      && var month := TwoDigits(value[0], value[1]);
         var year := TwoDigits(value[3], value[4]);
         var currentYear := JsRem(today.year, 100);
         currentYear < year || (currentYear == year && today.month <= month)
    ensures ExpiryShape(value) ==> 1 <= TwoDigits(value[0], value[1]) <= 12
  {
    if ExpiryShape(value) {
      NotBlankAt(value, 0);
    }
  }

  /** In 2025 a card that expired in January 2020 fails and one expiring in January 2030
      passes, whatever the month. */
  lemma ExpiryExamples(past: string, future: string, today: Date)
    requires past == "01/20" && future == "01/30"
    requires today.year == 2025 && 1 <= today.month <= 12
    ensures CardFieldState(Expiry, past, today) == Error
    ensures CardFieldState(Expiry, future, today) == Success
  {
    assert past[0] == '0' && past[1] == '1' && past[2] == '/' && past[3] == '2' && past[4] == '0';
    assert future[0] == '0' && future[1] == '1' && future[2] == '/' && future[3] == '3' && future[4] == '0';
    NotBlankAt(past, 0);
    NotBlankAt(future, 0);
    assert JsRem(today.year, 100) == 25;
  }

  /** CVC succeeds exactly on three or four digits; a cardholder name exactly on a non-blank
      run of at least two ASCII letters and whitespace. */
  lemma CvcAndNameSuccess(value: string, today: Date)
    ensures CardFieldState(Cvc, value, today) == Success <==> 3 <= |value| <= 4 && AllDigits(value)
    ensures CardFieldState(Name, value, today) == Success <==>
      |value| >= 2 && HolderNameChars(value) && !IsBlank(value)
  {
    if 3 <= |value| <= 4 && AllDigits(value) {
      NotBlankAt(value, 0);
    }
  }

  /** A formatted CVC succeeds exactly when at least three digits were typed. */
  lemma FormattedCvcSuccess(v: string, today: Date)
    ensures CardFieldState(Cvc, FormatCvc(v), today) == Success <==> |KeepDigits(v)| >= 3
  {
    CvcAndNameSuccess(FormatCvc(v), today);
  }

  /** A number entered through the formatter carries at most 16 digits, so the 17- to
      19-digit numbers the validator accepts cannot be typed into the field. */
  lemma FormattedNumberAtMostSixteen(v: string)
    ensures |StripWhitespace(FormatCardNumber(v))| <= 16
  {
    CardNumberFormatting(v);
  }

  // ---------------------------------------------------------------- passenger display

  const Months: seq<string> :=
    ["Jan", "Feb", "Mar", "Apr", "May", "Jun", "Jul", "Aug", "Sep", "Oct", "Nov", "Dec"]

  /** `months[parseInt(m) - 1]`, printed: `undefined` outside 1..12 or for `NaN`. */
  function MonthName(m: string): string {
    match ParseInt(m)
    case Some(n) => if 1 <= n <= 12 then Months[n - 1] else "undefined"
    case None => "undefined"
  }

  /** `day monthName year` when all three parts are non-empty, else "Not specified". */
  function FormatDayMonthYear(day: string, month: string, year: string): string {
    if day != "" && month != "" && year != "" then day + " " + MonthName(month) + " " + year
    else "Not specified"
  }

  function FormatBirthDate(p: Option<Booking.Passenger>): string {
    match p
    case None => "Not specified"
    case Some(q) => FormatDayMonthYear(q.birthDay, q.birthMonth, q.birthYear)
  }

  function FormatPassportExpiry(p: Option<Booking.Passenger>): string {
    match p
    case None => "Not specified"
    case Some(q) => FormatDayMonthYear(q.expiryDay, q.expiryMonth, q.expiryYear)
  }

  /** The fallback text has a single space, after "Not". */
  lemma FallbackSpaces(t: string)
    requires t == "Not specified"
    ensures forall k :: 0 <= k < |t| && t[k] == ' ' ==> k == 3
  {
    assert t[0] == 'N' && t[1] == 'o' && t[2] == 't' && t[3] == ' ';
    assert t[4] == 's' && t[5] == 'p' && t[6] == 'e' && t[7] == 'c' && t[8] == 'i';
    assert t[9] == 'f' && t[10] == 'i' && t[11] == 'e' && t[12] == 'd';
  }

  /** The fallback appears exactly when a part is missing: a formatted date holds two
      spaces, the fallback one. */
  lemma DayMonthYearFallback(day: string, month: string, year: string)
    ensures FormatDayMonthYear(day, month, year) == "Not specified" <==>
      day == "" || month == "" || year == ""
  {
    if day != "" && month != "" && year != "" {
      var r := day + " " + MonthName(month) + " " + year;
      var i := |day|;
      var j := |day| + 1 + |MonthName(month)|;
      assert r[i] == ' ' && r[j] == ' ' && i < j < |r|;
      var t := "Not specified";
      FallbackSpaces(t);
      assert |r| != |t| || r[i] != t[i] || r[j] != t[j];
    }
  }

  /** Both display formatters fall back exactly when the passenger or one of the three
      parts is missing. */
  lemma PassengerDatesFallback(p: Option<Booking.Passenger>)
    ensures FormatBirthDate(p) == "Not specified" <==>
      p.None? || p.value.birthDay == "" || p.value.birthMonth == "" || p.value.birthYear == ""
    ensures FormatPassportExpiry(p) == "Not specified" <==>
      p.None? || p.value.expiryDay == "" || p.value.expiryMonth == "" || p.value.expiryYear == ""
  {
    if p.Some? {
      DayMonthYearFallback(p.value.birthDay, p.value.birthMonth, p.value.birthYear);
      DayMonthYearFallback(p.value.expiryDay, p.value.expiryMonth, p.value.expiryYear);
    }
  }

  /** A month the passenger form stores as a number 1..12 prints as its abbreviation. */
  lemma MonthNameOfNumber(n: int)
    requires 1 <= n <= 12
    ensures MonthName(IntToString(n)) == Months[n - 1]
  {
    ParseIntRoundTrip(n);
  }

  /** A hexadecimal month string reads in base 16, as `parseInt` does: "0xC" prints as "Dec". */
  lemma MonthNameOfHex()
    ensures MonthName("0xC") == "Dec"
  {
    assert "0xC" == ['0', 'x'] + "C";
    MagnitudeOfHex('x', "C");
    ParseUnsigned("0xC");
  }

  predicate HasFullName(p: Option<Booking.Passenger>) {
    p.Some? && p.value.firstName != "" && p.value.lastName != ""
  }

  function GetPassengerName(p: Option<Booking.Passenger>): string {
    if HasFullName(p) then p.value.firstName + " " + p.value.lastName else "Adult Passenger"
  }

  function GetPassengerInitials(p: Option<Booking.Passenger>): string {
    if HasFullName(p) then [p.value.firstName[0], p.value.lastName[0]] else "AP"
  }

  /** The initials are the first letters of the two words the name shows, for a full name
      and for the fallback alike; the fallback is shown whenever a name part is missing. */
  lemma InitialsMatchName(p: Option<Booking.Passenger>)
    ensures var name := GetPassengerName(p);
      var split := if HasFullName(p) then |p.value.firstName| else 5;
      split + 1 < |name| && name[split] == ' ' &&
      GetPassengerInitials(p) == [name[0], name[split + 1]]
    ensures !HasFullName(p) ==> GetPassengerName(p) == "Adult Passenger"
    ensures HasFullName(p) ==> GetPassengerName(p) == p.value.firstName + " " + p.value.lastName
  {
    if HasFullName(p) {
      var f := p.value.firstName;
      var name := GetPassengerName(p);
      assert name[|f| + 1] == p.value.lastName[0];
    }
  }

  /** `passengers.find(p => p.id === selectedPassenger) || passengers[0]`. */
  function GetSelectedPassengerData(passengers: seq<Booking.Passenger>, selected: Option<int>): Option<Booking.Passenger> {
    var found := if selected.Some? then Booking.FindPassenger(passengers, selected.value) else None;
    if found.Some? then found else if passengers != [] then Some(passengers[0]) else None
  }

  /** The selected passenger when one carries the selected id, else the first passenger,
      else nothing. */
  lemma SelectedPassengerData(passengers: seq<Booking.Passenger>, selected: Option<int>)
    ensures selected.Some? && Booking.HasId(passengers, selected.value) ==>
      GetSelectedPassengerData(passengers, selected) == Booking.FindPassenger(passengers, selected.value) &&
      GetSelectedPassengerData(passengers, selected).value.id == selected.value
    ensures !(selected.Some? && Booking.HasId(passengers, selected.value)) ==>
      GetSelectedPassengerData(passengers, selected) == if passengers == [] then None else Some(passengers[0])
  {
  }

  // ---------------------------------------------------------------- country lookup

  datatype CountryInfo = CountryInfo(name: string, flag: string)

  /** A sample of the country table, keyed by ISO 3166 code. */
  const CountryData: map<string, CountryInfo> := map[
    "US" := CountryInfo("United States", "\U{1F1FA}\U{1F1F8}"),
    "GB" := CountryInfo("United Kingdom", "\U{1F1EC}\U{1F1E7}"),
    "DE" := CountryInfo("Germany", "\U{1F1E9}\U{1F1EA}"),
    "UA" := CountryInfo("Ukraine", "\U{1F1FA}\U{1F1E6}"),
    "MD" := CountryInfo("Moldova", "\U{1F1F2}\U{1F1E9}")]

  /** The white flag shown for an unknown code. */
  const WhiteFlag: string := "\U{1F3F3}\U{FE0F}"

  function GetCountryName(code: string): string {
    if code in CountryData && CountryData[code].name != "" then CountryData[code].name else code
  }

  function GetNationalityFlag(code: string): string {
    if code in CountryData && CountryData[code].flag != "" then CountryData[code].flag else WhiteFlag
  }

  /** A known code shows its country's name and flag; an unknown code shows itself and the
      white flag. */
  lemma CountryLookup(code: string)
    ensures code in CountryData ==>
      GetCountryName(code) == CountryData[code].name && GetNationalityFlag(code) == CountryData[code].flag
    ensures code !in CountryData ==> GetCountryName(code) == code && GetNationalityFlag(code) == WhiteFlag
  {
  }

  // ---------------------------------------------------------------- the payment form

  /** The payment step's local state: the billing form, the card form and the passenger
      whose details the modal shows. */
  class PaymentForm {
    var billing: BillingData
    var card: CardData
    var selectedPassenger: Option<int>

    constructor()
      ensures billing == BillingData("", "", "", "", "")
      ensures card == CardData("", "", "", "", "")
      ensures selectedPassenger == None
    {
      billing := BillingData("", "", "", "", "");
      card := CardData("", "", "", "", "");
      selectedPassenger := None;
    }

    function CardValue(field: CardField): string
      reads this
    {
      match field
      case Number => card.number
      case Expiry => card.expiry
      case Cvc => card.cvc
      case Name => card.name
    }

    function BillingValue(field: BillingField): string
      reads this
    {
      match field
      case StreetAddress => billing.streetAddress
      case Country => billing.country
      case StateRegion => billing.stateRegion
      case City => billing.city
      case ZipCode => billing.zipCode
    }

    /** `handleCardInputChange`: the edited field takes the formatted value. */
    method HandleCardInputChange(field: CardField, value: string)
      modifies this
      ensures card == WithCardValue(old(card), field, FormatCardInput(field, value))
      ensures CardValue(field) == FormatCardInput(field, value)
      ensures billing == old(billing) && selectedPassenger == old(selectedPassenger)
    {
      card := WithCardValue(card, field, FormatCardInput(field, value));
    }

    /** `handleCardInputFocus`: records the focused input's name. */
    method HandleCardInputFocus(name: string)
      modifies this
      ensures card == old(card).(focus := name)
      ensures billing == old(billing) && selectedPassenger == old(selectedPassenger)
    {
      card := card.(focus := name);
    }

    /** A billing input's `onChange`: stores the raw value. */
    method SetBillingField(field: BillingField, value: string)
      modifies this
      ensures BillingValue(field) == value
      ensures forall f :: f != field ==> BillingValue(f) == old(BillingValue(f))
      ensures card == old(card) && selectedPassenger == old(selectedPassenger)
    {
      match field
      case StreetAddress => billing := billing.(streetAddress := value);
      case Country => billing := billing.(country := value);
      case StateRegion => billing := billing.(stateRegion := value);
      case City => billing := billing.(city := value);
      case ZipCode => billing := billing.(zipCode := value);
    }

    /** `openPassengerModal`: remembers which passenger to show. */
    method OpenPassengerModal(id: int)
      modifies this
      ensures selectedPassenger == Some(id)
      ensures billing == old(billing) && card == old(card)
    {
      selectedPassenger := Some(id);
    }

    /** `getFieldValidationState` on the current billing data. */
    method GetFieldValidationState(field: BillingField) returns (s: Status)
      ensures s == BillingFieldState(field, BillingValue(field))
      ensures s == Idle <==> IsBlank(BillingValue(field))
    {
      s := BillingFieldState(field, BillingValue(field));
    }

    /** `getCardFieldValidationState` on the current card data, running the Luhn loop. */
    method GetCardFieldValidationState(field: CardField, today: Date) returns (s: Status)
      ensures s == CardFieldState(field, CardValue(field), today)
    {
      var value := CardValue(field);
      if IsBlank(value) {
        return Idle;
      }
      match field
      case Number =>
        var clean := StripWhitespace(value);
        if |clean| < 13 || |clean| > 19 {
          s := Error;
        } else if !AllDigits(clean) {
          s := Error;
        } else {
          var ok := LuhnCheck(clean);
          s := if ok then Success else Error;
        }
      case Expiry => s := ExpiryState(value, today);
      case Cvc => s := if 3 <= |value| <= 4 && AllDigits(value) then Success else Error;
      case Name => s := if |value| < 2 then Error else if HolderNameChars(value) then Success else Error;
    }
  }
}
