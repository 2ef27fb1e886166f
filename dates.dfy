/**
 * Calendar dates and the two `datetime.strptime` formats the pipeline uses:
 * `"%d %B %Y"` for the forecast date and `"%Y-%m-%dT%H:%M:%SZ"` for `toDate`.
 * CPython's strptime turns the format into a regular expression: `%d`
 * accepts `3[01]|[12]\d|0[1-9]|[1-9]| [1-9]`, `%m` accepts `1[0-2]|0[1-9]|[1-9]`,
 * `%H` `2[0-3]|[0-1]\d|\d`, `%M` `[0-5]\d|\d`, `%S` `6[0-1]|[0-5]\d|\d`,
 * `%Y` exactly four digits, `%B` a full month name, a blank in the format
 * one or more whitespace characters; it matches case-insensitively and
 * must consume the whole input. The values then go to `datetime(...)`,
 * which rejects impossible dates and seconds above 59.
 */
module Dates {
  import opened Wrappers
  import TextCleaning

  datatype Date = Date(year: int, month: int, day: int)

  datatype DateTime = DateTime(date: Date, hour: int, minute: int, second: int)

  predicate IsLeapYear(y: int) {
    y % 4 == 0 && (y % 100 != 0 || y % 400 == 0)
  }

  function DaysInMonth(y: int, m: int): (n: int)
    requires 1 <= m <= 12
    ensures 28 <= n <= 31
  {
    if m == 2 then (if IsLeapYear(y) then 29 else 28)
    else if m == 4 || m == 6 || m == 9 || m == 11 then 30
    else 31
  }

  /** What `datetime.date(y, m, d)` accepts (years 1 to 9999). */
  predicate ValidDate(d: Date) {
    1 <= d.year <= 9999 && 1 <= d.month <= 12 && 1 <= d.day <= DaysInMonth(d.year, d.month)
  }

  predicate ValidDateTime(t: DateTime) {
    ValidDate(t.date) && 0 <= t.hour <= 23 && 0 <= t.minute <= 59 && 0 <= t.second <= 59
  }

  // ---------------------------------------------------------------- digits

  predicate IsDigit(c: char) { '0' <= c <= '9' }

  predicate AllDigits(s: string) {
    forall k :: 0 <= k < |s| ==> IsDigit(s[k])
  }

  function DigitValue(c: char): nat
    requires IsDigit(c)
  {
    c as int - '0' as int
  }

  function DigitChar(n: nat): (c: char)
    requires n < 10
    ensures IsDigit(c) && DigitValue(c) == n
  {
    ('0' as int + n) as char
  }

  /** `int(s)` of a string of decimal digits. */
  function DecimalValue(s: string): nat
    requires AllDigits(s)
    decreases |s|
  {
    if s == [] then 0 else 10 * DecimalValue(s[..|s| - 1]) + DigitValue(s[|s| - 1])
  }

  /** `str(n)`: decimal digits, without leading zeros. */
  function NatToDecimal(n: nat): (r: string)
    ensures |r| >= 1 && AllDigits(r) && DecimalValue(r) == n
    ensures r[0] == '0' ==> n == 0
    decreases n
  {
    if n < 10 then [DigitChar(n)]
    else
      var r := NatToDecimal(n / 10) + [DigitChar(n % 10)];
      assert r[..|r| - 1] == NatToDecimal(n / 10);
      r
  }

  function Pow10(k: nat): (p: nat)
    ensures p >= 1
  {
    if k == 0 then 1 else 10 * Pow10(k - 1)
  }

  /** `str(n)` has at most `k` digits exactly when `k >= 1` and `n < 10^k`. */
  lemma {:induction false} NatToDecimalFits(n: nat, k: nat)
    ensures |NatToDecimal(n)| <= k <==> 1 <= k && n < Pow10(k)
    decreases n
  {
    if n >= 10 && k >= 1 {
      NatToDecimalFits(n / 10, k - 1);
    }
  }

  /** `str(n)` has exactly four digits when n is between 1000 and 9999. */
  lemma NatToDecimalLength(n: nat)
    ensures |NatToDecimal(n)| == 4 <==> 1000 <= n <= 9999
  {
    NatToDecimalFits(n, 4);
    NatToDecimalFits(n, 3);
    assert Pow10(3) == 1000 && Pow10(4) == 10000;
  }

  /** The end of the run of digits that starts at `i`. */
  function DigitRunEnd(s: string, i: nat): (j: nat)
    requires i <= |s|
    ensures i <= j <= |s| && AllDigits(s[i..j])
    ensures j == |s| || !IsDigit(s[j])
    decreases |s| - i
  {
    if i < |s| && IsDigit(s[i]) then
      var j := DigitRunEnd(s, i + 1);
      assert s[i..j] == [s[i]] + s[i + 1..j];
      j
    else i
  }

  /** The end of the run of whitespace (regex `\s`) that starts at `i`. */
  function SpaceRunEnd(s: string, i: nat): (j: nat)
    requires i <= |s|
    ensures i <= j <= |s|
    ensures forall k :: i <= k < j ==> TextCleaning.IsSpace(s[k])
    ensures j == |s| || !TextCleaning.IsSpace(s[j])
    decreases |s| - i
  {
    if i < |s| && TextCleaning.IsSpace(s[i]) then SpaceRunEnd(s, i + 1) else i
  }

  // ------------------------------------------------------------ directives

  /** A directive's value and the index just after it. */
  datatype Scanned = Scanned(value: nat, end: nat)

  /**
   * A numeric directive that is followed by a non-digit in the format:
   * the digits it takes are the whole run at `i`, of `minWidth` to
   * `maxWidth` digits, with a value in `lo..hi`.
   */
  function NumberField(s: string, i: nat, minWidth: nat, maxWidth: nat, lo: nat, hi: nat): (r: Option<Scanned>)
    requires i <= |s| && 1 <= minWidth
    ensures r.Some? ==> i < r.value.end <= |s| && lo <= r.value.value <= hi
  {
    var j := DigitRunEnd(s, i);
    var v := DecimalValue(s[i..j]);
    if minWidth <= j - i <= maxWidth && lo <= v <= hi then Some(Scanned(v, j)) else None
  }

  /** `%d`: one or two digits worth 1 to 31, or a blank and one digit 1 to 9. */
  function DayField(s: string, i: nat): (r: Option<Scanned>)
    requires i <= |s|
    ensures r.Some? ==> i < r.value.end <= |s| && 1 <= r.value.value <= 31
  {
    if i + 1 < |s| && s[i] == ' ' && '1' <= s[i + 1] <= '9' then Some(Scanned(DigitValue(s[i + 1]), i + 2))
    else NumberField(s, i, 1, 2, 1, 31)
  }

  /** ASCII lower-casing, the comparison of a case-insensitive match. */
  function Lower(c: char): char {
    if 'A' <= c <= 'Z' then (c as int + 32) as char else c
  }

  /** A literal format character, matched case-insensitively; the index after it. */
  function Literal(s: string, i: nat, c: char): (r: Option<nat>)
    requires i <= |s|
    ensures r.Some? <==> i < |s| && Lower(s[i]) == Lower(c)
    ensures r.Some? ==> r.value == i + 1
  {
    if i < |s| && Lower(s[i]) == Lower(c) then Some(i + 1) else None
  }

  /** The English full month names that `%B` accepts, lower-cased. */
  function MonthName(m: nat): (name: string)
    requires 1 <= m <= 12
  {
    match m
    case 1 => "january"   case 2 => "february" case 3 => "march"     case 4 => "april"
    case 5 => "may"       case 6 => "june"     case 7 => "july"      case 8 => "august"
    case 9 => "september" case 10 => "october" case 11 => "november" case _ => "december"
  }

  /**
   * `re.IGNORECASE` on a literal: a non-letter matches only itself, an ASCII
   * letter itself or the same letter in the other case.
   */
  lemma LiteralIgnoresCase(s: string, i: nat, c: char)
    requires i <= |s|
    ensures !('a' <= c <= 'z' || 'A' <= c <= 'Z') ==> (Literal(s, i, c).Some? <==> i < |s| && s[i] == c)
    ensures 'a' <= c <= 'z' ==>
              (Literal(s, i, c).Some? <==> i < |s| && (s[i] == c || s[i] as int == c as int - 32))
    ensures 'A' <= c <= 'Z' ==>
              (Literal(s, i, c).Some? <==> i < |s| && (s[i] == c || s[i] as int == c as int + 32))
  {
  }

  /** `name` (lower-case) occurs at index `i` of `s`, ignoring case. */
  predicate MatchesAt(s: string, i: nat, name: string) {
    i + |name| <= |s| && forall k :: 0 <= k < |name| ==> Lower(s[i + k]) == name[k]
  }

  /**
   * `%B`: the first month, counting from `from`, whose name occurs at `i`.
   * No month name is a prefix of another, so at most one can be followed
   * by the blank the format requires and the order of the regex's
   * alternatives does not matter.
   */
  function MonthField(s: string, i: nat, from: nat): (r: Option<Scanned>)
    requires i <= |s| && 1 <= from
    ensures r.Some? ==> from <= r.value.value <= 12 && r.value.end == i + |MonthName(r.value.value)|
                        && r.value.end <= |s|
    decreases 13 - from
  {
    if from > 12 then None
    else if MatchesAt(s, i, MonthName(from)) then Some(Scanned(from, i + |MonthName(from)|))
    else MonthField(s, i, from + 1)
  }

  /**
   * `%B` reads the first month, counting from `from`, whose name occurs at
   * `i`, and fails only when none does.
   */
  lemma {:induction false} MonthFieldFinds(s: string, i: nat, from: nat)
    requires i <= |s| && 1 <= from
    ensures var r := MonthField(s, i, from);
            r.Some? ==> MatchesAt(s, i, MonthName(r.value.value))
    ensures var r := MonthField(s, i, from);
            r.None? ==> forall m :: from <= m <= 12 ==> !MatchesAt(s, i, MonthName(m))
    ensures var r := MonthField(s, i, from);
            r.Some? ==> forall m :: from <= m < r.value.value ==> !MatchesAt(s, i, MonthName(m))
    decreases 13 - from
  {
    if from <= 12 && !MatchesAt(s, i, MonthName(from)) {
      MonthFieldFinds(s, i, from + 1);
      assert MonthField(s, i, from) == MonthField(s, i, from + 1);
      forall m | from <= m <= 12
        ensures MatchesAt(s, i, MonthName(m)) ==> from + 1 <= m
      {
        if m == from {
          assert MonthName(m) == MonthName(from);
        }
      }
    }
  }

  // --------------------------------------------------------------- formats

  /** `datetime.strptime(s, "%d %B %Y")`, `None` where it raises `ValueError`. */
  function ParseDayMonthYear(s: string): (r: Option<Date>)
    ensures r.Some? ==> ValidDate(r.value)
  {
    var d :- DayField(s, 0);
    var i := SpaceRunEnd(s, d.end);
    if i == d.end then None else ParseMonthYear(s, i, d.value)
  }

  /** The `%B %Y` rest of `"%d %B %Y"`, from index `i`, after day `day`. */
  function ParseMonthYear(s: string, i: nat, day: nat): (r: Option<Date>)
    requires i <= |s|
    ensures r.Some? ==> ValidDate(r.value)
  {
    var m :- MonthField(s, i, 1);
    var j := SpaceRunEnd(s, m.end);
    if j == m.end then None else ParseYear(s, j, m.value, day)
  }

  /** The final `%Y` of `"%d %B %Y"`, from index `j`, which must end the input. */
  function ParseYear(s: string, j: nat, month: nat, day: nat): (r: Option<Date>)
    requires j <= |s|
    ensures r.Some? ==> ValidDate(r.value)
  {
    var y :- NumberField(s, j, 4, 4, 0, 9999);
    var date := Date(y.value, month, day);
    if y.end == |s| && ValidDate(date) then Some(date) else None
  }

  /** `datetime.strptime(s, "%Y-%m-%dT%H:%M:%SZ")`, `None` where it raises `ValueError`. */
  function ParseIsoUtc(s: string): (r: Option<DateTime>)
    ensures r.Some? ==> ValidDateTime(r.value)
  {
    var y :- NumberField(s, 0, 4, 4, 0, 9999);
    var i1 :- Literal(s, y.end, '-');
    var mo :- NumberField(s, i1, 1, 2, 1, 12);
    var i2 :- Literal(s, mo.end, '-');
    var d :- DayField(s, i2);
    var i3 :- Literal(s, d.end, 'T');
    var h :- NumberField(s, i3, 1, 2, 0, 23);
    var i4 :- Literal(s, h.end, ':');
    var mi :- NumberField(s, i4, 1, 2, 0, 59);
    var i5 :- Literal(s, mi.end, ':');
    var sec :- NumberField(s, i5, 1, 2, 0, 61);
    var i6 :- Literal(s, sec.end, 'Z');
    var t := DateTime(Date(y.value, mo.value, d.value), h.value, mi.value, sec.value);
    if i6 == |s| && ValidDateTime(t) then Some(t) else None
  }

  // ---------------------------------------------------------- round trips

  /** Two zero-padded digits, as `%02d` writes them. */
  function Pad2(n: nat): (s: string)
    requires n < 100
    ensures |s| == 2 && AllDigits(s) && DecimalValue(s) == n
  {
    var s := [DigitChar(n / 10), DigitChar(n % 10)];
    assert s[..1] == [DigitChar(n / 10)];
    assert DecimalValue(s[..1]) == n / 10 by { assert s[..1][..0] == []; }
    s
  }

  /** Four zero-padded digits, as `%04d` writes them. */
  function Pad4(n: nat): (s: string)
    requires n < 10000
    ensures |s| == 4 && AllDigits(s) && DecimalValue(s) == n
  {
    var s := Pad2(n / 100) + Pad2(n % 100);
    assert s[..3][..2] == s[..2] == Pad2(n / 100);
    assert DecimalValue(s[..3]) == 10 * (n / 100) + (n % 100) / 10;
    s
  }

  /** `t.strftime("%Y-%m-%dT%H:%M:%SZ")`, the shape the feed's `toDate` has. */
  function FormatIsoUtc(t: DateTime): (s: string)
    requires ValidDateTime(t)
    ensures |s| == 20
  {
    Pad4(t.date.year) + "-" + Pad2(t.date.month) + "-" + Pad2(t.date.day) + "T"
    + Pad2(t.hour) + ":" + Pad2(t.minute) + ":" + Pad2(t.second) + "Z"
  }

  /** A numeric directive reads exactly the digits `digits` found at `i`. */
  lemma {:induction false} DigitsAt(s: string, i: nat, digits: string)
    requires i + |digits| <= |s| && s[i..i + |digits|] == digits && AllDigits(digits)
    requires i + |digits| == |s| || !IsDigit(s[i + |digits|])
    ensures DigitRunEnd(s, i) == i + |digits|
    ensures DecimalValue(s[i..DigitRunEnd(s, i)]) == DecimalValue(digits)
    decreases |digits|
  {
    if digits != [] {
      assert s[i + 1..i + |digits|] == digits[1..];
      DigitsAt(s, i + 1, digits[1..]);
    }
  }

  /** A numeric directive over the digits `digits` found at `i` reads their value. */
  lemma NumberFieldReads(s: string, i: nat, digits: string, minWidth: nat, maxWidth: nat, lo: nat, hi: nat)
    requires i + |digits| <= |s| && s[i..i + |digits|] == digits && AllDigits(digits)
    requires i + |digits| == |s| || !IsDigit(s[i + |digits|])
    requires 1 <= minWidth <= |digits| <= maxWidth && lo <= DecimalValue(digits) <= hi
    ensures NumberField(s, i, minWidth, maxWidth, lo, hi) == Some(Scanned(DecimalValue(digits), i + |digits|))
  {
    DigitsAt(s, i, digits);
  }

  /** Where each field of `FormatIsoUtc(t)` sits. */
  lemma FormatIsoUtcLayout(t: DateTime)
    requires ValidDateTime(t)
    ensures var s := FormatIsoUtc(t);
      && s[0..4] == Pad4(t.date.year) && s[4] == '-'
      && s[5..7] == Pad2(t.date.month) && s[7] == '-'
      && s[8..10] == Pad2(t.date.day) && s[10] == 'T'
      && s[11..13] == Pad2(t.hour) && s[13] == ':'
      && s[14..16] == Pad2(t.minute) && s[16] == ':'
      && s[17..19] == Pad2(t.second) && s[19] == 'Z'
  {
    var s := FormatIsoUtc(t);
    var a := Pad4(t.date.year) + "-" + Pad2(t.date.month) + "-" + Pad2(t.date.day);
    var b := Pad2(t.hour) + ":" + Pad2(t.minute) + ":" + Pad2(t.second);
    assert s == a + "T" + b + "Z";
    assert s[..10] == a && s[11..19] == b;
    assert a[5..7] == Pad2(t.date.month) && a[8..10] == Pad2(t.date.day);
    assert b[0..2] == Pad2(t.hour) && b[3..5] == Pad2(t.minute) && b[6..8] == Pad2(t.second);
  }

  /** Parsing what `FormatIsoUtc` writes gives back the same date and time. */
  lemma ParseIsoUtcRoundTrip(t: DateTime)
    requires ValidDateTime(t)
    ensures ParseIsoUtc(FormatIsoUtc(t)) == Some(t)
  {
    var s := FormatIsoUtc(t);
    FormatIsoUtcLayout(t);
    NumberFieldReads(s, 0, Pad4(t.date.year), 4, 4, 0, 9999);
    NumberFieldReads(s, 5, Pad2(t.date.month), 1, 2, 1, 12);
    NumberFieldReads(s, 8, Pad2(t.date.day), 1, 2, 1, 31);
    NumberFieldReads(s, 11, Pad2(t.hour), 1, 2, 0, 23);
    NumberFieldReads(s, 14, Pad2(t.minute), 1, 2, 0, 59);
    NumberFieldReads(s, 17, Pad2(t.second), 1, 2, 0, 61);
  }
}
