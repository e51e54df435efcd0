/** The handful of Python `str` operations the profiler and the front-ends
    rely on: `strip()`, `lower()`, `isdigit()`, `replace(old, '', 1)`,
    decimal rendering of integers and `sep.join(lines)`. Characters are
    modelled as ASCII; Python's Unicode tables are not part of this model. */
module Text {

  // ---------------------------------------------------------------------
  // Character classes
  // ---------------------------------------------------------------------

  /** `str.isspace()` on an ASCII character: tab, line feed, vertical tab,
      form feed, carriage return, the four separators 0x1C-0x1F and space. */
  predicate IsSpace(c: char) {
    c == ' ' || ('\t' <= c <= '\r') || ('\U{1C}' <= c <= '\U{1F}')
  }

  predicate IsUpper(c: char) { 'A' <= c <= 'Z' }

  predicate IsLowerLetter(c: char) { 'a' <= c <= 'z' }

  predicate IsLetter(c: char) { IsUpper(c) || IsLowerLetter(c) }

  predicate IsDigit(c: char) { '0' <= c <= '9' }

  predicate IsAlnum(c: char) { IsLetter(c) || IsDigit(c) }

  /** The regular-expression class `\w` on ASCII. */
  predicate IsWordChar(c: char) { IsAlnum(c) || c == '_' }

  predicate AllSpace(s: string) { forall i :: 0 <= i < |s| ==> IsSpace(s[i]) }

  predicate AllDigits(s: string) { forall i :: 0 <= i < |s| ==> IsDigit(s[i]) }

  predicate NoUpper(s: string) { forall i :: 0 <= i < |s| ==> !IsUpper(s[i]) }

  /** Neither the first nor the last character is whitespace. */
  predicate NoEdgeSpace(s: string) {
    |s| == 0 || (!IsSpace(s[0]) && !IsSpace(s[|s| - 1]))
  }

  /** Python's `str.isdigit()`: non-empty and every character a digit. */
  predicate IsDigitString(s: string) { |s| > 0 && AllDigits(s) }

  // ---------------------------------------------------------------------
  // strip()
  // ---------------------------------------------------------------------

  /** The index of the first non-whitespace character of `s` at or after
      `i`, or `|s|` when there is none: where `lstrip()` cuts. */
  function SkipSpace(s: string, i: nat): (r: nat)
    requires i <= |s|
    ensures i <= r <= |s|
    ensures forall k :: i <= k < r ==> IsSpace(s[k])
    ensures r == |s| || !IsSpace(s[r])
    decreases |s| - i
  {
    if i < |s| && IsSpace(s[i]) then SkipSpace(s, i + 1) else i
  }

  /** The end of `s[lo..j]` once its trailing whitespace is cut: where
      `rstrip()` cuts. */
  function SkipSpaceBack(s: string, lo: nat, j: nat): (r: nat)
    requires lo <= j <= |s|
    ensures lo <= r <= j
    ensures forall k :: r <= k < j ==> IsSpace(s[k])
    ensures r == lo || !IsSpace(s[r - 1])
  {
    if lo < j && IsSpace(s[j - 1]) then SkipSpaceBack(s, lo, j - 1) else j
  }

  /** `s.strip()`: whitespace cut from both ends. */
  function Strip(s: string): (r: string)
    ensures NoEdgeSpace(r)
    ensures |r| <= |s|
  {
    var i := SkipSpace(s, 0);
    s[i..SkipSpaceBack(s, i, |s|)]
  }

  /** Exactly the all-whitespace strings strip to the empty string. */
  lemma StripEmptyIff(s: string)
    ensures Strip(s) == "" <==> AllSpace(s)
  {
    var i := SkipSpace(s, 0);
    assert i < |s| ==> |Strip(s)| > 0;
  }

  /** A string with no edge whitespace is its own strip. */
  lemma StripFixed(s: string)
    requires NoEdgeSpace(s)
    ensures Strip(s) == s
  {
  }

  /** The strip of `s` is the infix between its whitespace edges: whatever
      `i` and `j` mark the first and the last non-space character, with
      only whitespace before `i` and from `j` on, the strip is `s[i..j]`. */
  lemma StripIs(s: string, i: nat, j: nat)
    requires i < j <= |s| && !IsSpace(s[i]) && !IsSpace(s[j - 1])
    requires forall k :: 0 <= k < i ==> IsSpace(s[k])
    requires forall k :: j <= k < |s| ==> IsSpace(s[k])
    ensures Strip(s) == s[i..j]
  {
  }

  // ---------------------------------------------------------------------
  // lower()
  // ---------------------------------------------------------------------

  /** `c.lower()` on ASCII: an upper-case letter becomes the lower-case
      letter 32 code points above it; every other character is kept. */
  function LowerChar(c: char): (r: char)
    ensures !IsUpper(r)
    ensures IsUpper(c) ==> IsLowerLetter(r) && r as int == c as int + 32
    ensures !IsUpper(c) ==> r == c
    ensures IsSpace(r) <==> IsSpace(c)
  {
    if IsUpper(c) then (c as int + 32) as char else c
  }

  /** `s.lower()` on ASCII: every upper-case letter replaced by its
      lower-case partner, everything else kept. */
  function Lower(s: string): (r: string)
    ensures |r| == |s|
    ensures NoUpper(r)
    ensures forall i :: 0 <= i < |s| && IsUpper(s[i]) ==> IsLowerLetter(r[i]) && r[i] as int == s[i] as int + 32
    ensures forall i :: 0 <= i < |s| && !IsUpper(s[i]) ==> r[i] == s[i]
    ensures forall i :: 0 <= i < |s| ==> (IsSpace(r[i]) <==> IsSpace(s[i]))
  {
    seq(|s|, i requires 0 <= i < |s| => LowerChar(s[i]))
  }

  /** A string with no upper-case letter is its own lower-case form. */
  lemma LowerFixed(s: string)
    requires NoUpper(s)
    ensures Lower(s) == s
  {
  }

  // ---------------------------------------------------------------------
  // replace('.', '', 1)
  // ---------------------------------------------------------------------

  /** Index of the first `c` in `s` at or after `i`, or `|s|` when there
      is none. */
  function IndexFrom(s: string, c: char, i: nat): (r: nat)
    requires i <= |s|
    ensures i <= r <= |s|
    ensures forall k :: i <= k < r ==> s[k] != c
    ensures r < |s| ==> s[r] == c
    decreases |s| - i
  {
    if i < |s| && s[i] != c then IndexFrom(s, c, i + 1) else i
  }

  /** Index of the first `c` in `s`, or `|s|` when there is none. */
  function IndexOf(s: string, c: char): (r: nat)
    ensures r <= |s|
    ensures forall k :: 0 <= k < r ==> s[k] != c
    ensures r < |s| ==> s[r] == c
  {
    IndexFrom(s, c, 0)
  }

  /** `s.replace(c, '', 1)`: deletes the first occurrence of `c`, if any. */
  function DeleteFirst(s: string, c: char): (r: string)
    ensures c !in s ==> r == s
    ensures c in s ==> exists i :: 0 <= i < |s| && s[i] == c && (forall k :: 0 <= k < i ==> s[k] != c) && r == s[..i] + s[i + 1..]
  {
    var i := IndexOf(s, c);
    if i == |s| then s else s[..i] + s[i + 1..]
  }

  // ---------------------------------------------------------------------
  // Decimal rendering of integers: f"{n}"
  // ---------------------------------------------------------------------

  function DigitChar(d: nat): (c: char)
    requires d < 10
    ensures IsDigit(c)
  {
    ('0' as int + d) as char
  }

  function DigitValue(c: char): nat
    requires IsDigit(c)
  {
    c as int - '0' as int
  }

  /** The value of a string of decimal digits; the inverse of `NatToString`. */
  function ParseDigits(s: string): nat
    requires AllDigits(s)
  {
    if |s| == 0 then 0 else 10 * ParseDigits(s[..|s| - 1]) + DigitValue(s[|s| - 1])
  }

  /** Python's `str(n)` for a non-negative integer: its shortest decimal
      spelling, with no leading zero unless `n` is zero. */
  function NatToString(n: nat): (r: string)
    ensures IsDigitString(r)
    ensures |r| > 1 ==> r[0] != '0'
  {
    if n < 10 then [DigitChar(n)] else NatToString(n / 10) + [DigitChar(n % 10)]
  }

  /** Reading back the rendered decimal gives the number again. */
  lemma {:induction false} ParseNatToString(n: nat)
    ensures ParseDigits(NatToString(n)) == n
  {
    if n >= 10 {
      var s := NatToString(n);
      assert s[..|s| - 1] == NatToString(n / 10);
      ParseNatToString(n / 10);
    }
  }

  /** Distinct numbers get distinct renderings. */
  lemma NatToStringInjective(m: nat, n: nat)
    requires NatToString(m) == NatToString(n)
    ensures m == n
  {
    ParseNatToString(m);
    ParseNatToString(n);
  }

  /** `str(i)` for a Python int, with a leading '-' when negative. */
  function IntToString(i: int): (r: string)
    ensures |r| > 0
    ensures i < 0 <==> r[0] == '-'
    ensures i >= 0 ==> IsDigitString(r) && ParseDigits(r) == i
    ensures i < 0 ==> IsDigitString(r[1..]) && ParseDigits(r[1..]) == -i
  {
    if i < 0 then
      ParseNatToString(-i);
      var r := "-" + NatToString(-i);
      assert r[1..] == NatToString(-i);
      r
    else
      ParseNatToString(i);
      NatToString(i)
  }

  // ---------------------------------------------------------------------
  // sep.join(lines)
  // ---------------------------------------------------------------------

  function TotalLength(xs: seq<string>): nat {
    if |xs| == 0 then 0 else TotalLength(xs[..|xs| - 1]) + |xs[|xs| - 1]|
  }

  /** `sep.join(xs)`: the pieces in order with `sep` between neighbours. */
  function Join(xs: seq<string>, sep: string): (r: string)
    ensures |xs| == 0 ==> r == ""
    ensures |xs| > 0 ==> |r| == TotalLength(xs) + (|xs| - 1) * |sep|
    ensures |xs| > 0 ==> |xs[0]| <= |r| && r[..|xs[0]|] == xs[0]
  {
    if |xs| == 0 then ""
    else if |xs| == 1 then xs[0]
    else
      var init := Join(xs[..|xs| - 1], sep);
      assert xs[..|xs| - 1][0] == xs[0];
      assert (init + sep + xs[|xs| - 1])[..|init|] == init;
      init + sep + xs[|xs| - 1]
  }

  /** Joining one more piece appends the separator and the piece. */
  lemma JoinSnoc(xs: seq<string>, y: string, sep: string)
    requires |xs| > 0
    ensures Join(xs + [y], sep) == Join(xs, sep) + sep + y
  {
    assert (xs + [y])[..|xs + [y]| - 1] == xs;
  }

  /** Joining two non-empty lists puts one separator between their joins. */
  lemma {:induction false} JoinAppend(xs: seq<string>, ys: seq<string>, sep: string)
    requires |xs| > 0 && |ys| > 0
    ensures Join(xs + ys, sep) == Join(xs, sep) + sep + Join(ys, sep)
    decreases |ys|
  {
    if |ys| == 1 {
      JoinSnoc(xs, ys[0], sep);
      assert ys == [ys[0]];
    } else {
      var init := ys[..|ys| - 1];
      var last := ys[|ys| - 1];
      assert ys == init + [last];
      assert xs + ys == (xs + init) + [last];
      JoinAppend(xs, init, sep);
      JoinSnoc(xs + init, last, sep);
      JoinSnoc(init, last, sep);
    }
  }
}
