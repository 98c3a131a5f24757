/** Option, standing for JavaScript's `undefined` / `null` and for lookups that find nothing. */
module Wrappers {
  datatype Option<+T> = None | Some(value: T) {
    /** The carried value, or `default` when there is none. */
    function GetOr(default: T): T {
      match this
      case Some(v) => v
      case None => default
    }
  }
}

/**
 * The JavaScript string operations the checkout components use, on `seq<char>`.
 * A `char` is a Unicode scalar value; case mapping is ASCII only.
 */
module Text {
  import opened Wrappers

  /** The characters matched by the regular-expression class `\s`, which are also the
      characters `String.prototype.trim` removes. */
  predicate IsWhitespace(c: char) {
    || c == ' ' || c == '\t' || c == '\n' || c == '\U{000B}' || c == '\U{000C}' || c == '\r'
    || c == '\U{00A0}' || c == '\U{1680}' || ('\U{2000}' <= c <= '\U{200A}')
    || c == '\U{2028}' || c == '\U{2029}' || c == '\U{202F}' || c == '\U{205F}'
    || c == '\U{3000}' || c == '\U{FEFF}'
  }

  predicate IsNotWhitespace(c: char) { !IsWhitespace(c) }

  /** `\d`: an ASCII decimal digit. */
  predicate IsDigit(c: char) { '0' <= c <= '9' }

  predicate IsUpper(c: char) { 'A' <= c <= 'Z' }

  predicate IsLower(c: char) { 'a' <= c <= 'z' }

  /** `[a-zA-Z]` */
  predicate IsLetter(c: char) { IsUpper(c) || IsLower(c) }

  /** `[A-Z0-9]` */
  predicate IsUpperOrDigit(c: char) { IsUpper(c) || IsDigit(c) }

  predicate AllDigits(s: string) { forall i :: 0 <= i < |s| ==> IsDigit(s[i]) }

  function ToUpperChar(c: char): (u: char)
    ensures IsLetter(c) ==> IsUpper(u)
    ensures !IsLower(c) ==> u == c
  {
    if IsLower(c) then (c as int - 32) as char else c
  }

  function ToLowerChar(c: char): (l: char)
    ensures IsLetter(c) ==> IsLower(l)
    ensures !IsUpper(c) ==> l == c
  {
    if IsUpper(c) then (c as int + 32) as char else c
  }

  /** `toUpperCase()`, restricted to ASCII letters. */
  function ToUpper(s: string): (r: string)
    ensures |r| == |s|
    ensures forall i :: 0 <= i < |s| ==> r[i] == ToUpperChar(s[i])
  {
    if s == [] then [] else [ToUpperChar(s[0])] + ToUpper(s[1..])
  }

  /** `toLowerCase()`, restricted to ASCII letters. */
  function ToLower(s: string): (r: string)
    ensures |r| == |s|
    ensures forall i :: 0 <= i < |s| ==> r[i] == ToLowerChar(s[i])
  {
    if s == [] then [] else [ToLowerChar(s[0])] + ToLower(s[1..])
  }

  /** `s.replace(/[^class]/g, '')`: the characters of `s` that satisfy `keep`, in order. */
  function Filter(s: string, keep: char -> bool): (r: string)
    ensures |r| <= |s|
    ensures forall i :: 0 <= i < |r| ==> keep(r[i])
    ensures forall c :: c in r ==> c in s
  {
    if s == [] then [] else (if keep(s[0]) then [s[0]] else []) + Filter(s[1..], keep)
  }

  lemma {:induction false} FilterAppend(a: string, b: string, keep: char -> bool)
    ensures Filter(a + b, keep) == Filter(a, keep) + Filter(b, keep)
  {
    if a == [] {
      assert a + b == b;
    } else {
      assert (a + b)[1..] == a[1..] + b;
      FilterAppend(a[1..], b, keep);
    }
  }

  /** Filtering a string whose characters all pass leaves it unchanged. */
  lemma {:induction false} FilterAllKept(s: string, keep: char -> bool)
    requires forall i :: 0 <= i < |s| ==> keep(s[i])
    ensures Filter(s, keep) == s
  {
    if s != [] {
      FilterAllKept(s[1..], keep);
    }
  }

  /** Filtering a string none of whose characters pass leaves nothing. */
  lemma {:induction false} FilterNoneKept(s: string, keep: char -> bool)
    requires forall i :: 0 <= i < |s| ==> !keep(s[i])
    ensures Filter(s, keep) == []
  {
    if s != [] {
      FilterNoneKept(s[1..], keep);
    }
  }

  /** Filtering is idempotent. */
  lemma FilterIdempotent(s: string, keep: char -> bool)
    ensures Filter(Filter(s, keep), keep) == Filter(s, keep)
  {
    FilterAllKept(Filter(s, keep), keep);
  }

  /** What survives of a prefix is a prefix of what survives of the whole. */
  lemma FilterOfPrefix(s: string, k: nat, keep: char -> bool)
    requires k <= |s|
    ensures Filter(s[..k], keep) <= Filter(s, keep)
  {
    assert s == s[..k] + s[k..];
    FilterAppend(s[..k], s[k..], keep);
  }

  /** `s.replace(/\D/g, '')` */
  function KeepDigits(s: string): (r: string)
    ensures AllDigits(r)
  {
    Filter(s, IsDigit)
  }

  /** `s.replace(/\s/g, '')` */
  function StripWhitespace(s: string): (r: string)
    ensures forall i :: 0 <= i < |r| ==> !IsWhitespace(r[i])
  {
    Filter(s, IsNotWhitespace)
  }

  function TrimStart(s: string): (r: string)
    ensures |r| <= |s| && r == s[|s| - |r|..]
    ensures r != [] ==> !IsWhitespace(r[0])
  {
    if s != [] && IsWhitespace(s[0]) then TrimStart(s[1..]) else s
  }

  function TrimEnd(s: string): (r: string)
    ensures r <= s
    ensures r != [] ==> !IsWhitespace(r[|r| - 1])
  {
    if s != [] && IsWhitespace(s[|s| - 1]) then TrimEnd(s[..|s| - 1]) else s
  }

  /** `String.prototype.trim` */
  function Trim(s: string): string {
    TrimEnd(TrimStart(s))
  }

  /** `!value || value.trim() === ''` */
  predicate IsBlank(s: string) { Trim(s) == [] }

  predicate AllWhitespace(s: string) { forall i :: 0 <= i < |s| ==> IsWhitespace(s[i]) }

  lemma {:induction false} TrimStartEmpty(s: string)
    ensures TrimStart(s) == [] <==> AllWhitespace(s)
  {
    if s != [] {
      TrimStartEmpty(s[1..]);
      if IsWhitespace(s[0]) && AllWhitespace(s[1..]) {
        assert forall i :: 1 <= i < |s| ==> s[i] == s[1..][i - 1];
      }
    }
  }

  lemma {:induction false} TrimEndEmpty(s: string)
    ensures TrimEnd(s) == [] <==> AllWhitespace(s)
  {
    if s != [] {
      var init := s[..|s| - 1];
      TrimEndEmpty(init);
      if IsWhitespace(s[|s| - 1]) && AllWhitespace(init) {
        assert forall i :: 0 <= i < |s| - 1 ==> s[i] == init[i];
      }
    }
  }

  /** A string is blank exactly when every character of it is whitespace. */
  lemma BlankIffAllWhitespace(s: string)
    ensures IsBlank(s) <==> AllWhitespace(s)
  {
    var t := TrimStart(s);
    TrimStartEmpty(s);
    TrimEndEmpty(t);
    if t != [] {
      assert !AllWhitespace(t) by { assert !IsWhitespace(t[0]); }
    }
  }

  lemma {:induction false} StripTrimStart(s: string)
    ensures StripWhitespace(TrimStart(s)) == StripWhitespace(s)
  {
    if s != [] && IsWhitespace(s[0]) {
      StripTrimStart(s[1..]);
    }
  }

  lemma {:induction false} StripTrimEnd(s: string)
    ensures StripWhitespace(TrimEnd(s)) == StripWhitespace(s)
  {
    if s != [] && IsWhitespace(s[|s| - 1]) {
      var init := s[..|s| - 1];
      assert s == init + [s[|s| - 1]];
      FilterAppend(init, [s[|s| - 1]], IsNotWhitespace);
      StripTrimEnd(init);
    }
  }

  /** Trimming a string never changes which non-whitespace characters it holds. */
  lemma TrimKeepsContent(s: string)
    ensures StripWhitespace(Trim(s)) == StripWhitespace(s)
  {
    StripTrimStart(s);
    StripTrimEnd(TrimStart(s));
  }

  /** Trimming a string that neither starts nor ends with whitespace changes nothing. */
  lemma TrimOfUnpadded(s: string)
    requires s != [] ==> !IsWhitespace(s[0]) && !IsWhitespace(s[|s| - 1])
    ensures TrimStart(s) == s && TrimEnd(s) == s && Trim(s) == s
  {
  }

  /** A single trailing space after an unpadded string is all that trimming removes. */
  lemma TrimDropsTrailingSpace(s: string)
    requires s != [] && !IsWhitespace(s[0]) && !IsWhitespace(s[|s| - 1])
    ensures Trim(s + " ") == s
  {
    var u := s + " ";
    assert u[0] == s[0];
    assert TrimStart(u) == u;
    assert u[..|u| - 1] == s;
    TrimOfUnpadded(s);
  }

  /** A string holding a non-whitespace character is not blank. */
  lemma NotBlankAt(s: string, i: nat)
    requires i < |s| && !IsWhitespace(s[i])
    ensures !IsBlank(s)
  {
    BlankIffAllWhitespace(s);
  }

  /** A string that keeps something once whitespace is removed is not blank. */
  lemma StrippedNonEmptyNotBlank(s: string)
    requires StripWhitespace(s) != []
    ensures !IsBlank(s)
  {
    var c := StripWhitespace(s)[0];
    assert c in s;
    var i :| 0 <= i < |s| && s[i] == c;
    NotBlankAt(s, i);
  }

  /** `s.substring(0, n)` when `s.length > n`, otherwise `s`. */
  function Take(s: string, n: nat): (r: string)
    ensures r <= s
    ensures |r| == if |s| <= n then |s| else n
  {
    if |s| <= n then s else s[..n]
  }

  /** `t.replace(/(.{n})/g, '$1 ')` on a string without line terminators: a space after
      every complete group of `n` characters. */
  function Grouped(t: string, n: nat): string
    requires n > 0
    decreases |t|
  {
    if |t| < n then t else t[..n] + " " + Grouped(t[n..], n)
  }

  /** Groups of `n` characters joined by single spaces, with no space at either end. */
  function Spaced(t: string, n: nat): string
    requires n > 0
    decreases |t|
  {
    if |t| <= n then t else t[..n] + " " + Spaced(t[n..], n)
  }

  /** Grouping adds at most one space beyond the spaced layout, after a full last group. */
  lemma {:induction false} GroupedIsSpaced(t: string, n: nat)
    requires n > 0
    ensures Grouped(t, n) == Spaced(t, n) || Grouped(t, n) == Spaced(t, n) + " "
    decreases |t|
  {
    if |t| > n {
      GroupedIsSpaced(t[n..], n);
      if Grouped(t[n..], n) != Spaced(t[n..], n) {
        assert Grouped(t, n) == (t[..n] + " " + Spaced(t[n..], n)) + " ";
      }
    } else if |t| == n {
      assert Grouped(t, n) == t + " ";
    }
  }

  /** The spaced layout starts and ends with the characters `t` starts and ends with. */
  lemma {:induction false} SpacedEnds(t: string, n: nat)
    requires n > 0
    ensures |Spaced(t, n)| >= |t|
    ensures t != [] ==> Spaced(t, n)[0] == t[0] && Spaced(t, n)[|Spaced(t, n)| - 1] == t[|t| - 1]
    decreases |t|
  {
    if |t| > n {
      SpacedEnds(t[n..], n);
    }
  }

  /** With whitespace already removed, trimming a grouped string gives the spaced layout. */
  lemma TrimGrouped(t: string, n: nat)
    requires n > 0
    requires forall i :: 0 <= i < |t| ==> !IsWhitespace(t[i])
    ensures Trim(Grouped(t, n)) == Spaced(t, n)
  {
    var g, l := Grouped(t, n), Spaced(t, n);
    GroupedIsSpaced(t, n);
    SpacedEnds(t, n);
    if t == [] {
      assert g == [];
    } else if g == l {
      TrimOfUnpadded(l);
    } else {
      assert g == l + " ";
      TrimDropsTrailingSpace(l);
    }
  }

  /** A filter that drops spaces and keeps every character of `t` undoes the layout. */
  lemma {:induction false} FilterSpaced(t: string, n: nat, keep: char -> bool)
    requires n > 0
    requires forall i :: 0 <= i < |t| ==> keep(t[i])
    requires !keep(' ')
    ensures Filter(Spaced(t, n), keep) == t
    decreases |t|
  {
    if |t| <= n {
      FilterAllKept(t, keep);
    } else {
      FilterSpaced(t[n..], n, keep);
      FilterAllKept(t[..n], keep);
      FilterAppend(t[..n], " ", keep);
      FilterAppend(t[..n] + " ", Spaced(t[n..], n), keep);
      assert t[..n] + t[n..] == t;
    }
  }

  /** `s.startsWith(p)` */
  predicate StartsWith(s: string, p: string) { |p| <= |s| && s[..|p|] == p }

  /** `s.includes(sub)`: `sub` occurs in `s` at some position. */
  predicate Contains(s: string, sub: string)
    decreases |s|
  {
    StartsWith(s, sub) || (s != [] && Contains(s[1..], sub))
  }

  lemma {:induction false} ContainsAt(s: string, sub: string, k: nat)
    requires k + |sub| <= |s| && s[k..k + |sub|] == sub
    ensures Contains(s, sub)
    decreases k
  {
    if k > 0 {
      assert s[1..][k - 1..k - 1 + |sub|] == s[k..k + |sub|];
      ContainsAt(s[1..], sub, k - 1);
    }
  }

  /** The number of occurrences of `c` in `s`. */
  function CountChar(s: string, c: char): (n: nat)
    ensures n <= |s|
    ensures n == 0 <==> c !in s
  {
    if s == [] then 0 else (if s[0] == c then 1 else 0) + CountChar(s[1..], c)
  }

  lemma {:induction false} CountCharAppend(a: string, b: string, c: char)
    ensures CountChar(a + b, c) == CountChar(a, c) + CountChar(b, c)
  {
    if a == [] {
      assert a + b == b;
    } else {
      assert (a + b)[1..] == a[1..] + b;
      CountCharAppend(a[1..], b, c);
    }
  }

  /** `s.split(c)`: the pieces between occurrences of `c`, one more than there are `c`s. */
  function Split(s: string, c: char): (parts: seq<string>)
    ensures |parts| == CountChar(s, c) + 1
    ensures forall k :: 0 <= k < |parts| ==> c !in parts[k]
  {
    if s == [] then [""]
    else
      var rest := Split(s[1..], c);
      if s[0] == c then [""] + rest
      else
        assert forall k :: 1 <= k < |rest| ==> rest[1..][k - 1] == rest[k];
        [[s[0]] + rest[0]] + rest[1..]
  }

  /** `parts.join(c)` */
  function Join(parts: seq<string>, c: char): string {
    if parts == [] then ""
    else if |parts| == 1 then parts[0]
    else parts[0] + [c] + Join(parts[1..], c)
  }

  /** Joining the pieces with the separator gives back the string. */
  lemma {:induction false} JoinSplit(s: string, c: char)
    ensures Join(Split(s, c), c) == s
  {
    if s != [] {
      JoinSplit(s[1..], c);
      if s[0] == c {
        JoinSplitAtSeparator(s, c);
      } else {
        JoinSplitInsidePiece(s, c);
      }
    }
  }

  lemma JoinSplitAtSeparator(s: string, c: char)
    requires s != [] && s[0] == c && Join(Split(s[1..], c), c) == s[1..]
    ensures Join(Split(s, c), c) == s
  {
    var rest := Split(s[1..], c);
    var parts := Split(s, c);
    assert parts == [""] + rest;
    assert parts[1..] == rest;
    assert Join(parts, c) == "" + [c] + Join(rest, c);
    assert s == [s[0]] + s[1..];
  }

  lemma JoinSplitInsidePiece(s: string, c: char)
    requires s != [] && s[0] != c && Join(Split(s[1..], c), c) == s[1..]
    ensures Join(Split(s, c), c) == s
  {
    var rest := Split(s[1..], c);
    var parts := Split(s, c);
    assert parts == [[s[0]] + rest[0]] + rest[1..];
    assert s == [s[0]] + s[1..];
    if |rest| == 1 {
      assert Join(parts, c) == [s[0]] + rest[0];
    } else {
      assert parts[1..] == rest[1..];
      var tail := Join(rest[1..], c);
      assert Join(parts, c) == ([s[0]] + rest[0]) + [c] + tail;
      assert Join(rest, c) == rest[0] + [c] + tail;
      ConcatRegroup(s[0], rest[0], c, tail);
    }
  }

  lemma ConcatRegroup(x: char, a: string, c: char, t: string)
    ensures ([x] + a) + [c] + t == [x] + (a + [c] + t)
  {
  }

  function DigitValue(c: char): (d: nat)
    requires IsDigit(c)
    ensures d < 10
  {
    c as int - '0' as int
  }

  function DigitChar(d: nat): (c: char)
    requires d < 10
    ensures IsDigit(c) && DigitValue(c) == d
  {
    (d + '0' as int) as char
  }

  /** Decimal rendering of a natural number, as template literals print it. */
  function NatToString(n: nat): (r: string)
    ensures r != [] && AllDigits(r)
    decreases n
  {
    if n < 10 then [DigitChar(n)] else NatToString(n / 10) + [DigitChar(n % 10)]
  }

  function IntToString(n: int): (r: string)
    ensures r != []
  {
    if n < 0 then "-" + NatToString(-n) else NatToString(n)
  }

  /** The value of a string of decimal digits. */
  function DigitsValue(s: string): nat
    requires AllDigits(s)
    decreases |s|
  {
    if s == [] then 0 else 10 * DigitsValue(s[..|s| - 1]) + DigitValue(s[|s| - 1])
  }

  /** The longest prefix of `s` made of decimal digits. */
  function LeadingDigits(s: string): (r: string)
    ensures r <= s && AllDigits(r)
    ensures |r| < |s| ==> !IsDigit(s[|r|])
  {
    if s != [] && IsDigit(s[0]) then [s[0]] + LeadingDigits(s[1..]) else []
  }

  predicate IsHexDigit(c: char) { IsDigit(c) || 'a' <= c <= 'f' || 'A' <= c <= 'F' }

  predicate AllHexDigits(s: string) { forall i :: 0 <= i < |s| ==> IsHexDigit(s[i]) }

  function HexDigitValue(c: char): (d: nat)
    requires IsHexDigit(c)
    ensures d < 16
    ensures IsDigit(c) ==> d == DigitValue(c)
  {
    if IsDigit(c) then DigitValue(c)
    else if 'a' <= c <= 'f' then c as int - 'a' as int + 10
    else c as int - 'A' as int + 10
  }

  /** The value of a string of hexadecimal digits. */
  function HexValue(s: string): nat
    requires AllHexDigits(s)
    decreases |s|
  {
    if s == [] then 0 else 16 * HexValue(s[..|s| - 1]) + HexDigitValue(s[|s| - 1])
  }

  /** The longest prefix of `s` made of hexadecimal digits. */
  function LeadingHexDigits(s: string): (r: string)
    ensures r <= s && AllHexDigits(r)
    ensures |r| < |s| ==> !IsHexDigit(s[|r|])
  {
    if s != [] && IsHexDigit(s[0]) then [s[0]] + LeadingHexDigits(s[1..]) else []
  }

  /** `0x` or `0X`, which makes `parseInt` with no radix read base 16. */
  predicate HexPrefixed(u: string) { |u| >= 2 && u[0] == '0' && (u[1] == 'x' || u[1] == 'X') }

  /**
   * `parseInt(s)` with no radix: leading whitespace is skipped and an optional sign is read;
   * the rest is read by `ReadMagnitude`. `None` stands for `NaN`.
   */
  function ParseInt(s: string): (r: Option<int>)
    ensures r.None? <==> ReadMagnitude(SignFree(TrimStart(s))).None?
  {
    var t := TrimStart(s);
    match ReadMagnitude(SignFree(t))
    case None => None
    case Some(m) => if t[0] == '-' then Some(-(m as int)) else Some(m)
  }

  /**
   * The digits after the sign: a `0x`/`0X` prefix selects base 16 and the longest run of
   * hexadecimal digits behind it is read; otherwise the longest run of decimal digits is
   * read (a leading `0` does not select octal). An empty run is `NaN`.
   */
  function ReadMagnitude(u: string): (r: Option<nat>)
    ensures r.None? <==>
      (if HexPrefixed(u) then LeadingHexDigits(u[2..]) == [] else LeadingDigits(u) == [])
    ensures r.Some? ==> u != []
  {
    if HexPrefixed(u) then
      var h := LeadingHexDigits(u[2..]);
      if h == [] then None else Some(HexValue(h))
    else
      var d := LeadingDigits(u);
      if d == [] then None else Some(DigitsValue(d))
  }

  /** `t` without a leading `+` or `-`. */
  function SignFree(t: string): string {
    if t != [] && (t[0] == '-' || t[0] == '+') then t[1..] else t
  }

  lemma {:induction false} LeadingDigitsOfDigits(s: string)
    requires AllDigits(s)
    ensures LeadingDigits(s) == s
  {
    if s != [] {
      LeadingDigitsOfDigits(s[1..]);
    }
  }

  lemma {:induction false} NatToStringValue(n: nat)
    ensures DigitsValue(NatToString(n)) == n
    decreases n
  {
    if n >= 10 {
      var r := NatToString(n);
      assert r[..|r| - 1] == NatToString(n / 10);
      NatToStringValue(n / 10);
    }
  }

  /** Without whitespace or a sign in front, `parseInt` is the magnitude alone. */
  lemma ParseUnsigned(u: string)
    requires u != [] && !IsWhitespace(u[0]) && u[0] != '-' && u[0] != '+'
    ensures ParseInt(u) == match ReadMagnitude(u) case None => None case Some(m) => Some(m as int)
  {
    assert TrimStart(u) == u;
  }

  /** A leading minus negates the magnitude behind it. */
  lemma ParseNegated(u: string)
    ensures ParseInt("-" + u) == match ReadMagnitude(u) case None => None case Some(m) => Some(-(m as int))
  {
    var s := "-" + u;
    assert !IsWhitespace(s[0]);
    assert TrimStart(s) == s;
    assert s[1..] == u;
  }

  /** A non-empty run of decimal digits has its decimal value. */
  lemma MagnitudeOfDigits(d: string)
    requires d != [] && AllDigits(d)
    ensures ReadMagnitude(d) == Some(DigitsValue(d))
  {
    assert !HexPrefixed(d) by {
      if |d| >= 2 {
        assert IsDigit(d[1]);
      }
    }
    LeadingDigitsOfDigits(d);
  }

  /** A `0x` or `0X` prefix reads the hexadecimal digits behind it; the prefix alone is `NaN`. */
  lemma MagnitudeOfHex(x: char, h: string)
    requires x == 'x' || x == 'X'
    requires AllHexDigits(h)
    ensures ReadMagnitude(['0', x] + h) == if h == [] then None else Some(HexValue(h))
  {
    var u := ['0', x] + h;
    assert HexPrefixed(u) && u[2..] == h;
    LeadingHexDigitsOfHex(h);
  }

  lemma {:induction false} LeadingHexDigitsOfHex(s: string)
    requires AllHexDigits(s)
    ensures LeadingHexDigits(s) == s
  {
    if s != [] {
      LeadingHexDigitsOfHex(s[1..]);
    }
  }

  /** A non-empty run of digits parses to its value. */
  lemma ParseOfDigits(d: string)
    requires d != [] && AllDigits(d)
    ensures ParseInt(d) == Some(DigitsValue(d))
  {
    assert IsDigit(d[0]);
    MagnitudeOfDigits(d);
    ParseUnsigned(d);
  }

  /** The same digits after a minus sign parse to the negated value. */
  lemma ParseOfNegatedDigits(d: string)
    requires d != [] && AllDigits(d)
    ensures ParseInt("-" + d) == Some(-(DigitsValue(d) as int))
  {
    MagnitudeOfDigits(d);
    ParseNegated(d);
  }

  /** `parseInt("0x5")` is 5: the prefix selects base 16. */
  lemma ParseHexExample()
    ensures ParseInt("0x5") == Some(5)
  {
    assert "0x5" == ['0', 'x'] + "5";
    MagnitudeOfHex('x', "5");
    ParseUnsigned("0x5");
  }

  /** `parseInt("0x")` is `NaN`: the prefix alone has no digit. */
  lemma ParseBareHexPrefix()
    ensures ParseInt("0x") == None
  {
    assert "0x" == ['0', 'x'] + "";
    MagnitudeOfHex('x', "");
    ParseUnsigned("0x");
  }

  /** `parseInt("-0X1A")` is -26: the sign comes before the prefix. */
  lemma ParseNegatedHexExample()
    ensures ParseInt("-0X1A") == Some(-26)
  {
    var h := "1A";
    assert HexValue(h) == 26 by {
      assert h[..1] == "1";
    }
    MagnitudeOfHex('X', h);
    ParseNegated(['0', 'X'] + h);
    assert "-0X1A" == "-" + (['0', 'X'] + h);
  }

  /** `parseInt("08")` is 8: a leading zero does not select octal. */
  lemma ParseLeadingZeroExample()
    ensures ParseInt("08") == Some(8)
  {
    var d := "08";
    assert DigitsValue(d) == 8 by {
      assert d[..1] == "0";
    }
    ParseOfDigits(d);
  }

  lemma ParseNatRoundTrip(n: nat)
    ensures ParseInt(NatToString(n)) == Some(n)
  {
    var d := NatToString(n);
    NatToStringValue(n);
    ParseOfDigits(d);
  }

  lemma ParseNegRoundTrip(n: int)
    requires n < 0
    ensures ParseInt("-" + NatToString(-n)) == Some(n)
  {
    var d := NatToString(-n);
    NatToStringValue(-n);
    ParseOfNegatedDigits(d);
    assert DigitsValue(d) == -n;
  }

  /** `parseInt` reads back every integer that a template literal prints. */
  lemma ParseIntRoundTrip(n: int)
    ensures ParseInt(IntToString(n)) == Some(n)
  {
    if n < 0 {
      ParseNegRoundTrip(n);
    } else {
      ParseNatRoundTrip(n);
    }
  }
}

/** Calendar dates as integer triples, with "today" always passed in. */
module Calendar {
  datatype Date = Date(year: int, month: int, day: int)

  /** `a` comes strictly before `b` (lexicographic on year, month, day). */
  predicate Before(a: Date, b: Date) {
    a.year < b.year
    || (a.year == b.year && a.month < b.month)
    || (a.year == b.year && a.month == b.month && a.day < b.day)
  }

  /** JavaScript's `%` for a positive divisor: the remainder takes the sign of `a`. */
  function JsRem(a: int, b: int): (r: int)
    requires b > 0
    ensures a >= 0 ==> 0 <= r < b
    ensures a < 0 ==> -b < r <= 0
  {
    if a >= 0 then a % b else -((-a) % b)
  }
}

/** The three-way outcome that the checkout's field validators report. */
module Forms {
  datatype Status = Idle | Success | Error
}
