/**
 * `extract_date`: search the summary for the leftmost match of the regex
 * `(\d{1,2} \w+)`, append the current year, and parse the result with
 * `"%d %B %Y"`. The year is a parameter here instead of `datetime.today()`.
 */
module DateExtraction {
  import opened Wrappers
  import opened Dates
  import TextCleaning

  /** Regex `\w`: letters, digits and the underscore. */
  predicate IsWordChar(c: char) {
    ('a' <= c <= 'z') || ('A' <= c <= 'Z') || IsDigit(c) || c == '_'
  }

  predicate AllWordChars(s: string) {
    forall k :: 0 <= k < |s| ==> IsWordChar(s[k])
  }

  /** A match of `\d{1,2} \w+` with `v` day digits starts at `p`. */
  predicate DayWordAt(s: string, p: nat, v: nat) {
    p + v + 1 < |s| && AllDigits(s[p..p + v]) && s[p + v] == ' ' && IsWordChar(s[p + v + 1])
  }

  /**
   * How many digits the day part of a match starting at `p` has, 0 when no
   * match starts there. `\d{1,2}` is greedy: two digits are tried first.
   */
  function DayWidthAt(s: string, p: nat): (w: nat)
    ensures w <= 2
    ensures w > 0 ==> DayWordAt(s, p, w)
    ensures w == 0 ==> !DayWordAt(s, p, 1) && !DayWordAt(s, p, 2)
    ensures w == 1 ==> !DayWordAt(s, p, 2)
  {
    if p + 3 < |s| && IsDigit(s[p]) && IsDigit(s[p + 1]) && s[p + 2] == ' ' && IsWordChar(s[p + 3]) then 2
    else if p + 2 < |s| && IsDigit(s[p]) && s[p + 1] == ' ' && IsWordChar(s[p + 2]) then 1
    else 0
  }

  /** The end of the greedy `\w+` run that starts at `i`. */
  function WordEnd(s: string, i: nat): (j: nat)
    requires i <= |s|
    ensures i <= j <= |s| && AllWordChars(s[i..j])
    ensures j == |s| || !IsWordChar(s[j])
    decreases |s| - i
  {
    if i < |s| && IsWordChar(s[i]) then
      var j := WordEnd(s, i + 1);
      assert s[i..j] == [s[i]] + s[i + 1..j];
      j
    else i
  }

  /** `re.search`: the leftmost index at or after `from` where a match starts. */
  function FindToken(s: string, from: nat): (r: Option<nat>)
    requires from <= |s|
    ensures r.None? <==> forall q :: from <= q < |s| ==> DayWidthAt(s, q) == 0
    ensures r.Some? ==> from <= r.value < |s| && DayWidthAt(s, r.value) > 0
    ensures r.Some? ==> forall q :: from <= q < r.value ==> DayWidthAt(s, q) == 0
    decreases |s| - from
  {
    if from == |s| then None
    else if DayWidthAt(s, from) > 0 then Some(from)
    else FindToken(s, from + 1)
  }

  /** The text of the match that starts at `p`: day digits, a blank, a word. */
  function TokenText(s: string, p: nat): (t: string)
    requires DayWidthAt(s, p) > 0
  {
    s[p..WordEnd(s, p + DayWidthAt(s, p) + 1)]
  }

  /** Outcome of `extract_date`: `None`, a `ValueError` from strptime, or a date. */
  datatype Extraction = NoToken | Unparseable(token: string) | Extracted(date: Date)

  /** `extract_date(summary)` with `datetime.today().year == year`. */
  function ExtractDate(summary: string, year: nat): (r: Extraction)
    ensures r.Extracted? ==> ValidDate(r.date)
  {
    match FindToken(summary, 0)
    case None => NoToken
    case Some(p) =>
      var token := TokenText(summary, p);
      match ParseDayMonthYear(token + " " + NatToDecimal(year))
      case None => Unparseable(token)
      case Some(d) => Extracted(d)
  }

  /** `extract_date` gives `None` exactly when no `\d{1,2} \w+` match exists anywhere. */
  lemma ExtractDateNoToken(summary: string, year: nat)
    ensures ExtractDate(summary, year).NoToken? <==> forall q :: 0 <= q < |summary| ==> DayWidthAt(summary, q) == 0
  {
  }

  // ------------------------------------------------------------- month words

  /** `name` is, ignoring case, a prefix of `word`. */
  predicate CiPrefix(name: string, word: string) {
    MatchesAt(word, 0, name)
  }

  /** `word` is, ignoring case, the full English name of month `m`. */
  predicate NamesMonth(word: string, m: nat)
    requires 1 <= m <= 12
  {
    |word| == |MonthName(m)| && CiPrefix(MonthName(m), word)
  }

  /** The month a word names, counting from `from`; 0 when it names none. */
  function MonthOfFrom(word: string, from: nat): (m: nat)
    requires 1 <= from
    ensures m == 0 || (from <= m <= 12 && NamesMonth(word, m))
    ensures m == 0 ==> forall n :: from <= n <= 12 ==> !NamesMonth(word, n)
    decreases 13 - from
  {
    if from > 12 then 0
    else if NamesMonth(word, from) then from
    else MonthOfFrom(word, from + 1)
  }

  /** The month number `word` names, or 0. */
  function MonthOf(word: string): (m: nat)
    ensures m <= 12
    ensures m != 0 <==> exists n :: 1 <= n <= 12 && NamesMonth(word, n)
    ensures m != 0 ==> NamesMonth(word, m)
  {
    MonthOfFrom(word, 1)
  }

  /** Month names are lower-case letters. */
  lemma MonthNameLetters(m: nat, k: nat)
    requires 1 <= m <= 12 && k < |MonthName(m)|
    ensures 'a' <= MonthName(m)[k] <= 'z' && Lower(MonthName(m)[k]) == MonthName(m)[k]
  {
  }

  /** The month whose name starts with the letters `x`, `y`, `z`, or 0. */
  function MonthOfAbbrev(x: char, y: char, z: char): nat {
    match (x, y, z)
    case ('j', 'a', 'n') => 1  case ('f', 'e', 'b') => 2  case ('m', 'a', 'r') => 3
    case ('a', 'p', 'r') => 4  case ('m', 'a', 'y') => 5  case ('j', 'u', 'n') => 6
    case ('j', 'u', 'l') => 7  case ('a', 'u', 'g') => 8  case ('s', 'e', 'p') => 9
    case ('o', 'c', 't') => 10 case ('n', 'o', 'v') => 11 case ('d', 'e', 'c') => 12
    case _ => 0
  }

  /** Each month name has at least three letters, and the first three tell the month. */
  lemma MonthNameAbbrev(m: nat)
    requires 1 <= m <= 12
    ensures var name := MonthName(m); |name| >= 3 && MonthOfAbbrev(name[0], name[1], name[2]) == m
  {
  }

  /** No month name is a prefix of another one. */
  lemma MonthNamesPrefixFree(a: nat, b: nat)
    requires 1 <= a <= 12 && 1 <= b <= 12 && a != b
    ensures !CiPrefix(MonthName(a), MonthName(b))
  {
    MonthNameAbbrev(a);
    MonthNameAbbrev(b);
    MonthNameLetters(b, 0);
    MonthNameLetters(b, 1);
    MonthNameLetters(b, 2);
  }

  /** Letters, digits and `_` are not whitespace. */
  lemma WordCharNotSpace(c: char)
    requires IsWordChar(c)
    ensures !TextCleaning.IsSpace(c)
  {
  }

  /**
   * A month name the format's `%B` finds at the start of `word`, where
   * `word` is followed by a blank, is either a proper prefix of `word` or
   * the whole of it.
   */
  lemma MonthMatchInWord(s: string, i: nat, word: string, m: nat)
    requires i + |word| < |s| && s[i..i + |word|] == word && s[i + |word|] == ' '
    requires 1 <= m <= 12 && MatchesAt(s, i, MonthName(m))
    ensures CiPrefix(MonthName(m), word)
    ensures |MonthName(m)| < |word| || NamesMonth(word, m)
  {
    var name := MonthName(m);
    if |name| > |word| {
      assert Lower(s[i + |word|]) == name[|word|];
      MonthNameLetters(m, |word|);
      assert false;
    }
    forall k | 0 <= k < |name| ensures Lower(word[k]) == name[k] {
      assert word[k] == s[i + k];
    }
  }

  /** Where the regex's word names a month, `%B` reads that month and all of the word. */
  lemma MonthFieldOnMonthWord(s: string, i: nat, word: string)
    requires i + |word| < |s| && s[i..i + |word|] == word && s[i + |word|] == ' '
    requires MonthOf(word) != 0
    ensures MonthField(s, i, 1) == Some(Scanned(MonthOf(word), i + |word|))
  {
    var m := MonthOf(word);
    WordMatchesAt(s, i, word, m);
    MonthFieldFinds(s, i, 1);
    var r := MonthField(s, i, 1);
    assert r.Some?;
    var m' := r.value.value;
    MonthMatchInWord(s, i, word, m');
    NamedWordMonth(word, m, m');
    assert |MonthName(m)| == |word|;
    assert r.value == Scanned(m, i + |word|);
  }

  /** A word that names a month, found at `i`, is that month's name at `i`. */
  lemma WordMatchesAt(s: string, i: nat, word: string, m: nat)
    requires i + |word| <= |s| && s[i..i + |word|] == word
    requires 1 <= m <= 12 && NamesMonth(word, m)
    ensures MatchesAt(s, i, MonthName(m))
  {
    var name := MonthName(m);
    forall k | 0 <= k < |name| ensures Lower(s[i + k]) == name[k] {
      assert s[i + k] == word[k];
    }
  }

  /** The only month name that is a case-insensitive prefix of a month's word is its own. */
  lemma NamedWordMonth(word: string, m: nat, m': nat)
    requires 1 <= m <= 12 && 1 <= m' <= 12
    requires NamesMonth(word, m) && CiPrefix(MonthName(m'), word)
    ensures m' == m
  {
    var name, name' := MonthName(m), MonthName(m');
    forall k | 0 <= k < |name'| ensures Lower(name[k]) == name'[k] {
      MonthNameLetters(m, k);
    }
    if m' != m {
      MonthNamesPrefixFree(m', m);
    }
  }

  /** Where the word names no month, whatever `%B` reads is not followed by a blank. */
  lemma MonthFieldOnOtherWord(s: string, i: nat, word: string)
    requires i + |word| < |s| && s[i..i + |word|] == word && s[i + |word|] == ' '
    requires AllWordChars(word) && MonthOf(word) == 0
    ensures MonthField(s, i, 1).Some? ==>
              var e := MonthField(s, i, 1).value.end; e < |s| && !TextCleaning.IsSpace(s[e])
  {
    var r := MonthField(s, i, 1);
    if r.Some? {
      MonthFieldFinds(s, i, 1);
      MonthMatchInWord(s, i, word, r.value.value);
      var e := r.value.end;
      assert s[e] == word[e - i];
      WordCharNotSpace(s[e]);
    }
  }

  /** The `%Y` stage over the digits `yd` that end the input. */
  lemma ParseYearOnDigits(s: string, j: nat, yd: string, month: nat, day: nat)
    requires j <= |s| && s[j..] == yd && AllDigits(yd) && 1 <= |yd|
    ensures var d := Date(DecimalValue(yd), month, day);
            ParseYear(s, j, month, day) == if |yd| == 4 && ValidDate(d) then Some(d) else None
  {
    assert s[j..j + |yd|] == yd;
    DigitsAt(s, j, yd);
  }

  /** The `%B %Y` stage over `word + " " + yd`. */
  lemma ParseMonthYearOnToken(s: string, i: nat, word: string, yd: string, day: nat)
    requires i + |word| < |s| && s[i..i + |word|] == word && s[i + |word|] == ' ' && s[i + |word| + 1..] == yd
    requires 1 <= |word| && AllWordChars(word) && 1 <= |yd| && AllDigits(yd)
    ensures var d := Date(DecimalValue(yd), MonthOf(word), day);
            ParseMonthYear(s, i, day) == if |yd| == 4 && MonthOf(word) != 0 && ValidDate(d) then Some(d) else None
  {
    var k := i + |word|;
    if MonthOf(word) != 0 {
      MonthFieldOnMonthWord(s, i, word);
      WordCharNotSpace(s[k + 1]);
      assert SpaceRunEnd(s, k) == k + 1;
      ParseYearOnDigits(s, k + 1, yd, MonthOf(word), day);
    } else {
      MonthFieldOnOtherWord(s, i, word);
    }
  }

  /** The `"%d %B %Y"` parse of a text laid out as day digits, blank, word, blank, year digits. */
  lemma ParseDayMonthYearOnPieces(s: string, dd: string, word: string, yd: string)
    requires 1 <= |dd| <= 2 && AllDigits(dd)
    requires 1 <= |word| && AllWordChars(word)
    requires 1 <= |yd| && AllDigits(yd)
    requires |s| == |dd| + |word| + |yd| + 2
    requires s[..|dd|] == dd && s[|dd|] == ' '
    requires s[|dd| + 1..|dd| + 1 + |word|] == word && s[|dd| + 1 + |word|] == ' '
    requires s[|dd| + 2 + |word|..] == yd
    ensures var d := Date(DecimalValue(yd), MonthOf(word), DecimalValue(dd));
            ParseDayMonthYear(s) == if |yd| == 4 && MonthOf(word) != 0 && ValidDate(d) then Some(d) else None
  {
    var n := |dd|;
    assert s[0..n] == dd;
    DigitsAt(s, 0, dd);
    var day := DecimalValue(dd);
    if 1 <= day <= 31 {
      assert DayField(s, 0) == Some(Scanned(day, n));
      assert s[n + 1] == word[0];
      WordCharNotSpace(s[n + 1]);
      assert SpaceRunEnd(s, n) == n + 1;
      ParseMonthYearOnToken(s, n + 1, word, yd, day);
    } else {
      assert DayField(s, 0).None?;
    }
  }

  /**
   * Parsing `"<digits> <word> <year digits>"` with `"%d %B %Y"`: it succeeds
   * exactly when the word names a month, the year has four digits and the
   * date exists, and then gives that day, month and year.
   */
  lemma ParseTokenText(dd: string, word: string, yd: string)
    requires 1 <= |dd| <= 2 && AllDigits(dd)
    requires 1 <= |word| && AllWordChars(word)
    requires 1 <= |yd| && AllDigits(yd)
    ensures var d := Date(DecimalValue(yd), MonthOf(word), DecimalValue(dd));
            ParseDayMonthYear(dd + " " + word + " " + yd)
            == if |yd| == 4 && MonthOf(word) != 0 && ValidDate(d) then Some(d) else None
  {
    var s := dd + " " + word + " " + yd;
    var n := |dd|;
    var a := dd + " " + word;
    assert s == a + " " + yd;
    assert s[..n] == a[..n] == dd && s[n] == ' ';
    assert s[n + 1..n + 1 + |word|] == a[n + 1..] == word;
    ParseDayMonthYearOnPieces(s, dd, word, yd);
  }

  /** The leftmost match read as a date of `year`: its digits the day, its word the month. */
  function FirstTokenDate(s: string, year: nat): Date
    requires FindToken(s, 0).Some?
  {
    var p := FindToken(s, 0).value;
    var w := DayWidthAt(s, p);
    Date(year, MonthOf(s[p + w + 1..WordEnd(s, p + w + 1)]), DecimalValue(s[p..p + w]))
  }

  /**
   * The date `extract_date` gives: only the leftmost match is tried; its
   * digits are the day, its word the month and the supplied year the year.
   * When that match does not parse the result is an error, never a later
   * match.
   */
  lemma ExtractDateOfFirstToken(s: string, year: nat)
    requires FindToken(s, 0).Some?
    ensures var p := FindToken(s, 0).value;
            var w := DayWidthAt(s, p);
            var e := WordEnd(s, p + w + 1);
            var d := FirstTokenDate(s, year);
            ExtractDate(s, year)
            == if 1000 <= year && d.month != 0 && ValidDate(d) then Extracted(d)
               else Unparseable(s[p..e])
  {
    var p := FindToken(s, 0).value;
    var w := DayWidthAt(s, p);
    var e := WordEnd(s, p + w + 1);
    TokenPieces(s, p);
    ParseTokenText(s[p..p + w], s[p + w + 1..e], NatToDecimal(year));
    NatToDecimalLength(year);
  }

  /** A date `extract_date` returns is the date of the leftmost match. */
  lemma ExtractedDateOfFirstToken(s: string, year: nat)
    requires ExtractDate(s, year).Extracted?
    ensures FindToken(s, 0).Some? && ExtractDate(s, year).date == FirstTokenDate(s, year)
  {
    ExtractDateNoToken(s, year);
    ExtractDateOfFirstToken(s, year);
  }

  /** The text of a match is its day digits, a blank and its word. */
  lemma TokenPieces(s: string, p: nat)
    requires DayWidthAt(s, p) > 0
    ensures var w := DayWidthAt(s, p);
            var e := WordEnd(s, p + w + 1);
            && p + w + 1 < e <= |s|
            && AllDigits(s[p..p + w]) && AllWordChars(s[p + w + 1..e])
            && TokenText(s, p) == s[p..p + w] + " " + s[p + w + 1..e]
  {
    var w := DayWidthAt(s, p);
    var e := WordEnd(s, p + w + 1);
    assert TokenText(s, p) == s[p..e];
    assert s[p..e] == s[p..p + w] + [s[p + w]] + s[p + w + 1..e];
  }
}
