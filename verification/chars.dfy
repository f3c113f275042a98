/**
 * Character classes, literals and digit runs shared by the price patterns.
 *
 * Python's `\d` and `\s` are Unicode classes; here they are restricted to their
 * ASCII members: the digits `0`-`9`, and the characters `str.isspace` accepts,
 * ` \t\n\r\v\f` and the separators U+001C to U+001F.
 */
module Chars {

  import opened Wrappers

  /** The new shekel sign, U+20AA. */
  const Shekel: char := '\U{20AA}'

  /** "המחיר" ("the price"). */
  const PriceWord: string := "\U{05D4}\U{05DE}\U{05D7}\U{05D9}\U{05E8}"

  /** "עכשיו" ("now"). */
  const NowWord: string := "\U{05E2}\U{05DB}\U{05E9}\U{05D9}\U{05D5}"

  /** "כעת" ("currently"). */
  const CurrentlyWord: string := "\U{05DB}\U{05E2}\U{05EA}"

  predicate IsDigit(c: char) {
    '0' <= c <= '9'
  }

  predicate IsSpace(c: char) {
    c == ' ' || c == '\t' || c == '\n' || c == '\r' || c == '\U{0B}' || c == '\U{0C}'
    || ('\U{1C}' <= c <= '\U{1F}')
  }

  /** `s[lo..hi]` consists of digits only. */
  predicate AllDigits(s: string, lo: nat, hi: nat)
    requires lo <= hi <= |s|
  {
    forall k :: lo <= k < hi ==> IsDigit(s[k])
  }

  /** `s[lo..hi]` consists of whitespace only. */
  predicate AllSpaces(s: string, lo: nat, hi: nat)
    requires lo <= hi <= |s|
  {
    forall k :: lo <= k < hi ==> IsSpace(s[k])
  }

  /** `s[lo..hi]` has no line feed, so a regex `.` can cross all of it. */
  predicate NoNewline(s: string, lo: nat, hi: nat)
    requires lo <= hi <= |s|
  {
    forall k :: lo <= k < hi ==> s[k] != '\n'
  }

  /** The word `w` occurs in `s` starting at index `i`. */
  predicate LiteralAt(s: string, i: nat, w: string) {
    i + |w| <= |s| && s[i..i + |w|] == w
  }

  /** An occurrence of a word starts with the word's first character. */
  lemma LiteralAtStartsWith(s: string, w: string)
    requires 0 < |w|
    ensures forall i: nat :: LiteralAt(s, i, w) ==> s[i] == w[0]
  {
    forall i: nat | LiteralAt(s, i, w)
      ensures s[i] == w[0]
    {
      assert s[i] == s[i..i + |w|][0];
    }
  }

  /** A numeral: a non-empty string of digits. */
  predicate IsNumeral(d: string) {
    0 < |d| && forall k :: 0 <= k < |d| ==> IsDigit(d[k])
  }

  predicate DigitFree(s: string) {
    forall k :: 0 <= k < |s| ==> !IsDigit(s[k])
  }

  /** End of the longest run of digits that starts at `i` (greedy `\d*`). */
  function DigitsEnd(s: string, i: nat): (j: nat)
    requires i <= |s|
    ensures i <= j <= |s| && AllDigits(s, i, j)
    ensures j == |s| || !IsDigit(s[j])
    decreases |s| - i
  {
    if i < |s| && IsDigit(s[i]) then DigitsEnd(s, i + 1) else i
  }

  /** End of the longest run of whitespace that starts at `i` (greedy `\s*`). */
  function SpacesEnd(s: string, i: nat): (j: nat)
    requires i <= |s|
    ensures i <= j <= |s| && AllSpaces(s, i, j)
    ensures j == |s| || !IsSpace(s[j])
    decreases |s| - i
  {
    if i < |s| && IsSpace(s[i]) then SpacesEnd(s, i + 1) else i
  }

  /** Any all-digit stretch from `i` that cannot be extended is the one DigitsEnd finds. */
  lemma DigitsEndUnique(s: string, i: nat, j: nat)
    requires i <= j <= |s| && AllDigits(s, i, j)
    requires j == |s| || !IsDigit(s[j])
    ensures DigitsEnd(s, i) == j
  {
  }

  /** Any all-space stretch from `i` that cannot be extended is the one SpacesEnd finds. */
  lemma SpacesEndUnique(s: string, i: nat, j: nat)
    requires i <= j <= |s| && AllSpaces(s, i, j)
    requires j == |s| || !IsSpace(s[j])
    ensures SpacesEnd(s, i) == j
  {
  }

  function DigitValue(c: char): nat
    requires IsDigit(c)
  {
    c as int - '0' as int
  }

  function DigitChar(n: nat): (c: char)
    requires n < 10
    ensures IsDigit(c) && DigitValue(c) == n
  {
    ('0' as int + n) as char
  }

  /** The number a string of decimal digits denotes (leading zeros allowed). */
  function Value(d: string): nat
    requires forall k :: 0 <= k < |d| ==> IsDigit(d[k])
    decreases |d|
  {
    if |d| == 0 then 0 else 10 * Value(d[..|d| - 1]) + DigitValue(d[|d| - 1])
  }

  /** The canonical decimal numeral of `n`, as Python's `str(n)` writes it. */
  function Decimal(n: nat): (d: string)
    ensures IsNumeral(d) && Value(d) == n
    ensures d[0] == '0' ==> n == 0
    decreases n
  {
    if n < 10 then [DigitChar(n)]
    else
      var prefix := Decimal(n / 10);
      var d := prefix + [DigitChar(n % 10)];
      assert d[..|d| - 1] == prefix;
      d
  }

  /** Python's `int()` on a digit string: CPython (3.11 and later) refuses
      strings longer than its default limit of 4300 digits with a ValueError. */
  const MaxStrDigits: nat := 4300

  function ParseInt(d: string): (r: Option<nat>)
    requires IsNumeral(d)
    ensures r.Some? <==> |d| <= MaxStrDigits
  {
    if |d| <= MaxStrDigits then Some(Value(d)) else None
  }

  /** `str(int(d))` gives `d` back for every numeral `int()` accepts that has no leading zero. */
  lemma ParseIntInvertsDecimal(d: string)
    requires IsNumeral(d)
    ensures ParseInt(d).Some? && d[0] != '0' ==> Decimal(ParseInt(d).value) == d
  {
    DecimalOfValue(d);
  }

  /** A numeral without a leading zero is what `str` writes for its value. */
  lemma {:induction false} DecimalOfValue(d: string)
    requires IsNumeral(d)
    ensures d[0] != '0' ==> Decimal(Value(d)) == d
    decreases |d|
  {
    if d[0] != '0' {
      var prefix := d[..|d| - 1];
      assert d == prefix + [d[|d| - 1]];
      if |d| == 1 {
        SingleDigit(d[0]);
      } else {
        assert prefix[0] == d[0];
        var v, k := Value(prefix), DigitValue(d[|d| - 1]);
        ValueAppend(prefix, d[|d| - 1]);
        DecimalOfValue(prefix);
        LeadingDigitPositive(prefix);
        LastDigitSplit(v, k);
        assert DigitChar(k) == d[|d| - 1];
      }
    }
  }

  lemma SingleDigit(c: char)
    requires IsDigit(c)
    ensures Decimal(Value([c])) == [c]
  {
    assert [c][..0] == [];
    assert DigitChar(DigitValue(c)) == c;
  }

  /** The value of a digit string with one more digit at the end. */
  lemma ValueAppend(prefix: string, c: char)
    requires forall k :: 0 <= k < |prefix| ==> IsDigit(prefix[k])
    requires IsDigit(c)
    ensures Value(prefix + [c]) == 10 * Value(prefix) + DigitValue(c)
  {
    assert (prefix + [c])[..|prefix|] == prefix;
  }

  /** Appending digit `k` to the numeral of a positive `n` writes `10 * n + k`. */
  lemma LastDigitSplit(n: nat, k: nat)
    requires 0 < n && k < 10
    ensures Decimal(10 * n + k) == Decimal(n) + [DigitChar(k)]
  {
    var m := 10 * n + k;
    DivideByTen(n, k);
    assert Decimal(m) == Decimal(m / 10) + [DigitChar(m % 10)];
  }

  lemma DivideByTen(n: nat, k: nat)
    requires k < 10
    ensures (10 * n + k) / 10 == n && (10 * n + k) % 10 == k
  {
  }

  /** A numeral whose first digit is not `0` denotes a positive number. */
  lemma {:induction false} LeadingDigitPositive(d: string)
    requires IsNumeral(d) && d[0] != '0'
    ensures Value(d) > 0
    decreases |d|
  {
    if 1 < |d| {
      var prefix := d[..|d| - 1];
      assert prefix[0] == d[0];
      LeadingDigitPositive(prefix);
    }
  }

  /** `str(n)` has one digit below 10 and one more than `str(n // 10)` above. */
  lemma DecimalLength(n: nat)
    ensures n < 10 ==> |Decimal(n)| == 1
    ensures 10 <= n ==> |Decimal(n)| == |Decimal(n / 10)| + 1
  {
  }

  /** `int(str(n))` gives `n` back for every price-sized `n`. */
  lemma ParseDecimal(n: nat)
    requires n < 1000
    ensures ParseInt(Decimal(n)) == Some(n)
  {
    DecimalLength(n);
    if 10 <= n {
      DecimalLength(n / 10);
      if 100 <= n {
        DecimalLength(n / 10 / 10);
      }
    }
  }
}
