/** The text checks the profilers run on individual values: the
    "numeric stored as text" test of `generate_column_summary`
    (`v.replace('.', '', 1).isdigit()`), the e-mail and mobile-number
    regular expressions and the year-range test of `initial_data_check`. */
module Validators {
  import opened Wrappers
  import opened Text
  import opened Cells

  // ---------------------------------------------------------------------
  // Numeric-looking text
  // ---------------------------------------------------------------------

  /** `v.replace('.', '', 1).isdigit()`. */
  predicate IsStrNumeric(s: string) {
    IsDigitString(DeleteFirst(s, '.'))
  }

  /** An unsigned decimal numeral: digits with at most one '.', and at least
      one digit somewhere ("24", "3.5", ".5", "7."). */
  ghost predicate PlainDecimal(s: string) {
    IsDigitString(s)
    || exists i :: 0 <= i < |s| && s[i] == '.' && |s| >= 2 && AllDigits(s[..i]) && AllDigits(s[i + 1..])
  }

  /** The text test accepts exactly the unsigned decimal numerals. */
  lemma StrNumericIffPlainDecimal(s: string)
    ensures IsStrNumeric(s) <==> PlainDecimal(s)
  {
    if '.' in s {
      var j := IndexOf(s, '.');
      if IsStrNumeric(s) {
        DigitsAroundDot(s, j);
      }
      if PlainDecimal(s) {
        var i :| 0 <= i < |s| && s[i] == '.' && |s| >= 2 && AllDigits(s[..i]) && AllDigits(s[i + 1..]);
        DotBetweenDigits(s, i);
      }
    } else {
      assert DeleteFirst(s, '.') == s;
    }
  }

  /** When the text test accepts a value with a '.', the digits sit on both
      sides of its first '.'. */
  lemma DigitsAroundDot(s: string, j: nat)
    requires j < |s| && j == IndexOf(s, '.') && IsStrNumeric(s)
    ensures |s| >= 2 && AllDigits(s[..j]) && AllDigits(s[j + 1..])
  {
    var r := DeleteFirst(s, '.');
    assert r == s[..j] + s[j + 1..];
    assert forall k :: 0 <= k < j ==> s[..j][k] == r[k];
    assert forall k :: j < k < |s| ==> s[k] == r[k - 1];
  }

  /** A '.' with digits on both sides, and at least one digit, passes the
      text test. */
  lemma DotBetweenDigits(s: string, i: nat)
    requires i < |s| && s[i] == '.' && |s| >= 2 && AllDigits(s[..i]) && AllDigits(s[i + 1..])
    ensures IsStrNumeric(s)
  {
    assert forall k :: 0 <= k < i ==> s[k] == s[..i][k];
    assert IndexOf(s, '.') == i;
    var r := DeleteFirst(s, '.');
    assert r == s[..i] + s[i + 1..];
    forall k | 0 <= k < |r|
      ensures IsDigit(r[k])
    {
      if k < i {
        assert r[k] == s[..i][k];
      } else {
        assert r[k] == s[i + 1..][k - i];
      }
    }
  }

  lemma StrNumericAccepts()
    ensures IsStrNumeric("24") && IsStrNumeric("3.5") && IsStrNumeric(".5")
  {
    assert DeleteFirst("24", '.') == "24";
    assert DeleteFirst(".5", '.') == "5";
    assert DeleteFirst("3.5", '.') == "35" by {
      assert "3.5"[1..] == ".5";
    }
  }

  lemma StrNumericRejects()
    ensures !IsStrNumeric("-3") && !IsStrNumeric("1.2.3") && !IsStrNumeric(".") && !IsStrNumeric("")
  {
    assert DeleteFirst("", '.') == "";
    assert DeleteFirst("-3", '.') == "-3";
    assert DeleteFirst(".", '.') == "";
    assert DeleteFirst("1.2.3", '.') == "12.3" by {
      assert "1.2.3"[1..] == ".2.3";
      assert DeleteFirst(".2.3", '.') == "2.3";
    }
    assert !IsDigit("12.3"[2]);
  }

  // ---------------------------------------------------------------------
  // Scanning helpers
  // ---------------------------------------------------------------------

  /** Index of the last `c` in `s[..j]`, or -1 when there is none. */
  function LastIndexBefore(s: string, c: char, j: nat): (r: int)
    requires j <= |s|
    ensures -1 <= r < j
    ensures forall k :: r < k < j ==> s[k] != c
    ensures r >= 0 ==> s[r] == c
  {
    if j == 0 then -1
    else if s[j - 1] == c then j - 1
    else LastIndexBefore(s, c, j - 1)
  }

  /** Index of the last `c` in `s`, or -1 when there is none. */
  function LastIndexOf(s: string, c: char): (r: int)
    ensures -1 <= r < |s|
    ensures forall k :: r < k < |s| ==> s[k] != c
    ensures r >= 0 ==> s[r] == c
  {
    LastIndexBefore(s, c, |s|)
  }

  /** The first occurrence is the one with no earlier occurrence. */
  lemma IndexOfUnique(s: string, c: char, i: nat)
    requires i < |s| && s[i] == c
    requires forall k :: 0 <= k < i ==> s[k] != c
    ensures IndexOf(s, c) == i
  {
  }

  /** The last occurrence is the one with no later occurrence. */
  lemma LastIndexOfUnique(s: string, c: char, i: nat)
    requires i < |s| && s[i] == c
    requires forall k :: i < k < |s| ==> s[k] != c
    ensures LastIndexOf(s, c) == i
  {
  }

  // ---------------------------------------------------------------------
  // E-mail-like values: \b[A-Za-z0-9._%+-]+@[A-Za-z0-9.-]+\.[A-Za-z]{2,}\b
  // matched with fullmatch
  // ---------------------------------------------------------------------

  predicate IsLocalChar(c: char) {
    IsAlnum(c) || c == '.' || c == '_' || c == '%' || c == '+' || c == '-'
  }

  predicate IsDomainChar(c: char) { IsAlnum(c) || c == '.' || c == '-' }

  predicate AllLocal(s: string) { forall i :: 0 <= i < |s| ==> IsLocalChar(s[i]) }

  predicate AllDomain(s: string) { forall i :: 0 <= i < |s| ==> IsDomainChar(s[i]) }

  predicate AllLetters(s: string) { forall i :: 0 <= i < |s| ==> IsLetter(s[i]) }

  /** What the pattern demands of the text before '@': one or more local
      characters, the first of which opens a word (`\b` at the start). */
  predicate LocalPart(s: string) {
    |s| >= 1 && IsWordChar(s[0]) && AllLocal(s)
  }

  /** The pattern read as a decomposition `local '@' domain '.' tld`. */
  ghost predicate EmailPattern(s: string) {
    exists at, dot :: 0 <= at < dot < |s| && s[at] == '@' && s[dot] == '.'
      && LocalPart(s[..at])
      && at + 1 < dot && AllDomain(s[at + 1..dot])
      && dot + 3 <= |s| && AllLetters(s[dot + 1..])
  }

  /** The scan the model uses: split at the first '@' and the last '.'. */
  predicate IsEmailLike(s: string) {
    var at := IndexOf(s, '@');
    var dot := LastIndexOf(s, '.');
    at < |s| && at < dot
    && LocalPart(s[..at])
    && at + 1 < dot && AllDomain(s[at + 1..dot])
    && dot + 3 <= |s| && AllLetters(s[dot + 1..])
  }

  /** The scan accepts exactly the strings the pattern fully matches. */
  lemma EmailLikeIffPattern(s: string)
    ensures IsEmailLike(s) <==> EmailPattern(s)
  {
    if EmailPattern(s) {
      var at, dot :| 0 <= at < dot < |s| && s[at] == '@' && s[dot] == '.'
        && LocalPart(s[..at])
        && at + 1 < dot && AllDomain(s[at + 1..dot])
        && dot + 3 <= |s| && AllLetters(s[dot + 1..]);
      ScanFindsSplit(s, at, dot);
    }
    if IsEmailLike(s) {
      var at := IndexOf(s, '@');
      var dot := LastIndexOf(s, '.');
      assert 0 <= at < dot < |s| && s[at] == '@' && s[dot] == '.';
    }
  }

  /** A split that fits the pattern is the one the scan finds: the local
      part holds no '@' and the top-level domain no '.'. */
  lemma ScanFindsSplit(s: string, at: nat, dot: nat)
    requires at < dot < |s| && s[at] == '@' && s[dot] == '.'
    requires LocalPart(s[..at]) && AllLetters(s[dot + 1..])
    ensures IndexOf(s, '@') == at && LastIndexOf(s, '.') == dot
  {
    assert forall k :: 0 <= k < at ==> s[k] == s[..at][k];
    IndexOfUnique(s, '@', at);
    assert forall k :: dot < k < |s| ==> s[k] == s[dot + 1..][k - dot - 1];
    LastIndexOfUnique(s, '.', dot);
  }

  /** Nothing after the local part of an e-mail-like value is an '@'. */
  lemma NoAtAfterLocal(s: string, at: nat, dot: nat)
    requires at < dot < |s| && s[dot] == '.'
    requires AllDomain(s[at + 1..dot]) && AllLetters(s[dot + 1..])
    ensures forall k :: at < k < |s| ==> s[k] != '@'
  {
    forall k | at < k < |s|
      ensures s[k] != '@'
    {
      if k < dot {
        assert s[k] == s[at + 1..dot][k - at - 1];
      } else if k > dot {
        assert s[k] == s[dot + 1..][k - dot - 1];
      }
    }
  }

  /** An e-mail-like value contains exactly one '@'. */
  lemma EmailLikeOneAt(s: string)
    requires IsEmailLike(s)
    ensures forall i :: 0 <= i < |s| && s[i] == '@' ==> i == IndexOf(s, '@')
  {
    var at := IndexOf(s, '@');
    var dot := LastIndexOf(s, '.');
    NoAtAfterLocal(s, at, dot);
  }

  lemma EmailAccepts()
    ensures IsEmailLike("a.b@ex.com")
  {
    var s := "a.b@ex.com";
    IndexOfUnique(s, '@', 3);
    LastIndexOfUnique(s, '.', 6);
    assert s[..3] == "a.b" && s[4..6] == "ex" && s[7..] == "com";
    EmailAcceptsParts();
  }

  lemma EmailAcceptsParts()
    ensures LocalPart("a.b") && AllDomain("ex") && AllLetters("com")
  {
  }

  lemma EmailRejectsLeadingHyphen()
    ensures !IsEmailLike("-a@example.com")
  {
    IndexOfUnique("-a@example.com", '@', 2);
  }

  lemma EmailRejectsShortTld()
    ensures !IsEmailLike("a@example.c")
  {
    LastIndexOfUnique("a@example.c", '.', 9);
  }

  lemma EmailRejectsEmptyDomain()
    ensures !IsEmailLike("a@.com")
  {
    IndexOfUnique("a@.com", '@', 1);
    LastIndexOfUnique("a@.com", '.', 2);
  }

  // ---------------------------------------------------------------------
  // Mobile-number-like values: ^\+?[1-9]\d{9,14}$ matched with fullmatch
  // ---------------------------------------------------------------------

  /** The digits after an optional leading '+'. */
  function MobileBody(s: string): string {
    if |s| > 0 && s[0] == '+' then s[1..] else s
  }

  predicate IsMobileLike(s: string) {
    var body := MobileBody(s);
    10 <= |body| <= 15 && '1' <= body[0] <= '9' && AllDigits(body)
  }

  /** The pattern read as: an optional '+' (`k` characters of sign), then a
      non-zero digit, then 9 to 14 further digits, then the end. */
  ghost predicate MobilePattern(s: string) {
    exists k :: 0 <= k <= 1 && k < |s| && (k == 1 ==> s[0] == '+')
      && '1' <= s[k] <= '9' && 9 <= |s| - k - 1 <= 14 && AllDigits(s[k..])
  }

  lemma MobileLikeIffPattern(s: string)
    ensures IsMobileLike(s) <==> MobilePattern(s)
  {
    if IsMobileLike(s) {
      var k := if |s| > 0 && s[0] == '+' then 1 else 0;
      assert s[k..] == MobileBody(s);
      assert s[k] == MobileBody(s)[0];
    }
    if MobilePattern(s) {
      var k :| 0 <= k <= 1 && k < |s| && (k == 1 ==> s[0] == '+')
        && '1' <= s[k] <= '9' && 9 <= |s| - k - 1 <= 14 && AllDigits(s[k..]);
      assert s[k..] == MobileBody(s);
    }
  }

  /** A mobile-like value has 10 to 15 digits and nothing else but an
      optional leading '+'. */
  lemma MobileDigitCount(s: string)
    requires IsMobileLike(s)
    ensures |s| > 0 && s[0] == '+' ==> 11 <= |s| <= 16
    ensures |s| > 0 && s[0] != '+' ==> 10 <= |s| <= 15
    ensures forall i :: 0 <= i < |s| ==> IsDigit(s[i]) || (i == 0 && s[i] == '+')
  {
    if |s| > 0 && s[0] == '+' {
      assert forall i :: 1 <= i < |s| ==> s[i] == MobileBody(s)[i - 1];
    }
  }

  lemma MobileExamples()
    ensures IsMobileLike("+14155550123")
    ensures IsMobileLike("9876543210")
    ensures !IsMobileLike("0123456789")
    ensures !IsMobileLike("+123456789")
    ensures !IsMobileLike("98765-43210")
  {
    assert MobileBody("+14155550123") == "14155550123";
    assert !IsDigit("98765-43210"[5]);
  }

  // ---------------------------------------------------------------------
  // Values as `str(x)` renders them
  // ---------------------------------------------------------------------

  /** `str(x)` for the cells whose rendering can match either pattern.
      Floats render with '.', 'e', "inf" or "nan", timestamps with '-' and
      ':', so neither can match; these, and `Other`, map to `None`. */
  function CellText(c: Cell): (r: Option<string>)
    ensures r.Some? <==> c.S? || c.I? || c.B?
    ensures c.S? ==> r == Some(c.s)
    ensures c.I? ==> IsDigitString(r.value) == (c.i >= 0) && (c.i >= 0 ==> ParseDigits(r.value) == c.i)
  {
    match c
    case S(s) => Some(s)
    case I(i) => Some(IntToString(i))
    case B(b) => Some(if b then "True" else "False")
    case _ => None
  }

  predicate EmailCell(c: Cell) {
    c != Missing && CellText(c).Some? && IsEmailLike(CellText(c).value)
  }

  predicate MobileCell(c: Cell) {
    c != Missing && CellText(c).Some? && IsMobileLike(CellText(c).value)
  }

  // ---------------------------------------------------------------------
  // Year range of timestamps
  // ---------------------------------------------------------------------

  /** `(year < 1900) | (year > 2100)` on one cell; a missing timestamp has
      no year and both comparisons are false. */
  predicate OutOfRangeYear(c: Cell) {
    c.Ts? && (c.year < 1900 || c.year > 2100)
  }

  predicate InRangeYear(c: Cell) {
    c.Ts? && 1900 <= c.year <= 2100
  }

  /** The out-of-range count never includes a missing timestamp, and on a
      column of timestamps and missing cells the missing, in-range and
      out-of-range counts add up to the row count. */
  lemma YearCountsPartition(col: seq<Cell>)
    requires forall i :: 0 <= i < |col| ==> col[i].Ts? || col[i] == Missing
    ensures CountIf(col, OutOfRangeYear) + CountIf(col, InRangeYear) + CountIf(col, IsMissing) == |col|
  {
    CountIfPartition(col, OutOfRangeYear, InRangeYear, IsMissing);
  }
}
