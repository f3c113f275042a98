/**
 * Properties of `extract_price` and `validate_price` on families of texts, and
 * the cases of test_scraper.py as instances of them.  The texts are the visible
 * text of the test pages (markup reduction is not part of this model).
 */
module ScraperExamples {

  import opened Wrappers
  import opened Chars
  import opened Patterns
  import opened PyValues
  import opened Scraper

  predicate NoShekel(s: string) {
    forall k :: 0 <= k < |s| ==> s[k] != Shekel
  }

  predicate AsciiOnly(s: string) {
    forall k :: 0 <= k < |s| ==> s[k] < '\U{80}'
  }

  /** No match of pattern `p` starts anywhere in `s`. */
  lemma NoStartNoMatch(p: Pattern, s: string)
    requires forall i :: 0 <= i < |s| ==> MatchAt(p, s, i).None?
    ensures Leftmost(p, s).None?
  {
  }

  /** The first start with a match is the leftmost match. */
  lemma FirstStartIsLeftmost(p: Pattern, s: string, i: nat, g: Span)
    requires i < |s| && MatchAt(p, s, i) == Some(g)
    requires forall j :: 0 <= j < i ==> MatchAt(p, s, j).None?
    ensures Leftmost(p, s) == Some(Match(i, g))
  {
  }

  /** Whatever a pattern matches needs a shekel sign or the word "המחיר". */
  lemma MatchNeedsMarker(p: Pattern, s: string, i: nat, g: Span)
    requires Accepts(p, s, i, g)
    ensures (exists k :: 0 <= k < |s| && s[k] == Shekel) || LiteralAt(s, i, PriceWord)
  {
    if p == DigitsThenShekel {
      var k :| g.hi <= k < |s| && AllSpaces(s, g.hi, k) && s[k] == Shekel;
    }
  }

  /** Where things sit in `p + d + gap + [₪] + q`. */
  lemma NumeralLayout(p: string, d: string, gap: string, q: string)
    requires DigitFree(p) && IsNumeral(d) && AllSpaces(gap, 0, |gap|)
    ensures var s := p + d + gap + [Shekel] + q;
      && s[|p|..|p| + |d|] == d
      && AllDigits(s, |p|, |p| + |d|)
      && ShekelAfterSpaces(s, |p| + |d|)
      && (forall j :: 0 <= j < |p| ==> !IsDigit(s[j]))
  {
    var s := p + d + gap + [Shekel] + q;
    var lo, hi := |p|, |p| + |d|;
    assert s[lo..hi] == d;
    assert AllSpaces(s, hi, hi + |gap|) && s[hi + |gap|] == Shekel;
    forall j | 0 <= j < lo
      ensures !IsDigit(s[j])
    {
      assert s[j] == p[j];
    }
  }

  /** "<n> ₪": a numeral followed by optional whitespace and the shekel sign,
      after a digit-free prefix, extracts to that number whatever follows. */
  lemma PriceBeforeShekel(p: string, n: nat, gap: string, q: string)
    requires DigitFree(p) && AllSpaces(gap, 0, |gap|) && Plausible(n)
    ensures ExtractPrice(p + Decimal(n) + gap + [Shekel] + q) == Some(n)
  {
    var d := Decimal(n);
    var s := p + d + gap + [Shekel] + q;
    var lo, hi := |p|, |p| + |d|;
    assert Leftmost(DigitsThenShekel, s) == Some(Match(lo, Span(lo, hi))) by {
      NumeralLayout(p, d, gap, q);
      DigitsShekelComplete(s, lo, hi);
      forall j | 0 <= j < lo
        ensures MatchAt(DigitsThenShekel, s, j).None?
      {
      }
      FirstStartIsLeftmost(DigitsThenShekel, s, lo, Span(lo, hi));
    }
    assert s[lo..hi] == d;
    ParseDecimal(n);
    assert PatternVerdict(s, 0) == Captured(n);
  }

  /** `\s` includes the information separators U+001C to U+001F, so
      `8\x1c₪` extracts 8. */
  lemma SeparatorIsWhitespace()
    ensures ExtractPrice("8" + "\U{1C}" + [Shekel]) == Some(8)
  {
    assert Decimal(8) == "8";
    PriceBeforeShekel("", 8, "\U{1C}", "");
    assert "" + Decimal(8) + "\U{1C}" + [Shekel] + "" == "8" + "\U{1C}" + [Shekel];
  }

  /** With a single shekel sign and no digit before it, pattern 1 cannot match. */
  lemma SoleShekelAfterNoDigit(s: string, at: nat)
    requires at < |s| && forall k :: 0 <= k < |s| && s[k] == Shekel ==> k == at
    requires forall k :: 0 <= k < at ==> !IsDigit(s[k])
    ensures Leftmost(DigitsThenShekel, s).None?
  {
    forall i | 0 <= i < |s|
      ensures MatchAt(DigitsThenShekel, s, i).None?
    {
      if MatchAt(DigitsThenShekel, s, i).Some? {
        DigitsShekelSound(s, i);
      }
    }
  }

  /** The first shekel sign followed directly by a whole numeral is where pattern 2 matches. */
  lemma ShekelThenNumeral(s: string, at: nat, hi: nat)
    requires at + 1 < hi <= |s| && s[at] == Shekel
    requires forall k :: 0 <= k < at ==> s[k] != Shekel
    requires AllDigits(s, at + 1, hi) && (hi == |s| || !IsDigit(s[hi]))
    ensures Leftmost(ShekelThenDigits, s) == Some(Match(at, Span(at + 1, hi)))
  {
    SpacesEndUnique(s, at + 1, at + 1);
    DigitsEndUnique(s, at + 1, hi);
    FirstStartIsLeftmost(ShekelThenDigits, s, at, Span(at + 1, hi));
  }

  /** Where things sit in `p + [₪] + d + q`. */
  lemma ShekelLayout(p: string, d: string, q: string)
    requires DigitFree(p) && NoShekel(p) && NoShekel(q) && IsNumeral(d) && (|q| == 0 || !IsDigit(q[0]))
    ensures var s := p + [Shekel] + d + q;
      && s[|p|] == Shekel
      && (forall k :: 0 <= k < |s| && s[k] == Shekel ==> k == |p|)
      && (forall k :: 0 <= k < |p| ==> !IsDigit(s[k]))
      && AllDigits(s, |p| + 1, |p| + 1 + |d|)
      && s[|p| + 1..|p| + 1 + |d|] == d
      && (|p| + 1 + |d| == |s| || !IsDigit(s[|p| + 1 + |d|]))
  {
    var s := p + [Shekel] + d + q;
    var lo, hi := |p| + 1, |p| + 1 + |d|;
    forall k | 0 <= k < |s| && k != |p|
      ensures s[k] != Shekel
    {
      if k < |p| {
        assert s[k] == p[k];
      } else if k < hi {
        assert s[k] == d[k - lo];
      } else {
        assert s[k] == q[k - hi];
      }
    }
    forall k | 0 <= k < |p|
      ensures !IsDigit(s[k])
    {
      assert s[k] == p[k];
    }
    assert s[lo..hi] == d;
    assert hi == |s| || s[hi] == q[0];
  }

  /** "₪<n>": the shekel sign immediately followed by a numeral that is not
      followed by another digit, in a text with no other shekel sign and no
      digit before it, extracts to that number. */
  lemma ShekelBeforePrice(p: string, n: nat, q: string)
    requires DigitFree(p) && NoShekel(p) && NoShekel(q) && (|q| == 0 || !IsDigit(q[0]))
    requires Plausible(n)
    ensures ExtractPrice(p + [Shekel] + Decimal(n) + q) == Some(n)
  {
    var d := Decimal(n);
    var s := p + [Shekel] + d + q;
    var hi := |p| + 1 + |d|;
    ShekelLayout(p, d, q);
    SoleShekelAfterNoDigit(s, |p|);
    ShekelThenNumeral(s, |p|, hi);
    ParseDecimal(n);
    assert PatternVerdict(s, 1) == Captured(n);
    assert DecidedFrom(s, 0, 1, n);
    ExtractIsFirstPlausibleCapture(s, n);
  }

  /** Text with neither the shekel sign nor the word "המחיר" has no price:
      every pattern needs one of them. */
  lemma NoMarkerNoPrice(s: string)
    requires NoShekel(s)
    requires forall i :: 0 <= i < |s| ==> !LiteralAt(s, i, PriceWord)
    ensures ExtractPrice(s) == None
  {
    forall k | 0 <= k < |Ordered|
      ensures PatternVerdict(s, k) == NoMatch
    {
      LeftmostIsPythonMatch(Ordered[k], s);
      if Leftmost(Ordered[k], s).Some? {
        var m := Leftmost(Ordered[k], s).value;
        MatchNeedsMarker(Ordered[k], s, m.start, m.group);
      }
    }
    if ExtractPrice(s).Some? {
      ExtractIsFirstPlausibleCapture(s, ExtractPrice(s).value);
    }
  }

  /** When `s[lo..hi]` holds the only digits of `s`, every pattern that captures
      anything captures exactly that numeral. */
  lemma SoleNumeralCaptured(s: string, lo: nat, hi: nat, k: nat)
    requires lo < hi <= |s| && AllDigits(s, lo, hi)
    requires forall j :: 0 <= j < |s| && IsDigit(s[j]) ==> lo <= j < hi
    requires k < |Ordered| && PatternVerdict(s, k).Captured?
    ensures IsNumeral(s[lo..hi]) && PatternVerdict(s, k).value == Value(s[lo..hi])
  {
    var m := Leftmost(Ordered[k], s).value;
    LeftmostGroupIsWholeNumeral(Ordered[k], s);
    assert IsDigit(s[m.group.lo]) && IsDigit(s[m.group.hi - 1]);
    assert m.group == Span(lo, hi);
  }

  /** Between two digit-free strings, a numeral holds the only digits. */
  lemma SandwichedNumeral(p: string, d: string, q: string)
    requires DigitFree(p) && IsNumeral(d) && DigitFree(q)
    ensures var s := p + d + q;
      && s[|p|..|p| + |d|] == d
      && AllDigits(s, |p|, |p| + |d|)
      && forall j :: 0 <= j < |s| && IsDigit(s[j]) ==> |p| <= j < |p| + |d|
  {
    var s := p + d + q;
    var lo, hi := |p|, |p| + |d|;
    assert s[lo..hi] == d;
    forall j | 0 <= j < |s| && !(lo <= j < hi)
      ensures !IsDigit(s[j])
    {
      if j < lo {
        assert s[j] == p[j];
      } else {
        assert s[j] == q[j - hi];
      }
    }
  }

  /** If the only numeral in the text is implausible, there is no price: every
      pattern captures that whole numeral, never a part of it. */
  lemma ImplausibleOnlyNumeral(p: string, n: nat, q: string)
    requires DigitFree(p) && DigitFree(q) && !Plausible(n)
    ensures ExtractPrice(p + Decimal(n) + q) == None
  {
    var d := Decimal(n);
    var s := p + d + q;
    SandwichedNumeral(p, d, q);
    if ExtractPrice(s).Some? {
      var v := ExtractPrice(s).value;
      ExtractIsFirstPlausibleCapture(s, v);
      var k :| 0 <= k < |Ordered| && DecidedFrom(s, 0, k, v);
      SoleNumeralCaptured(s, |p|, |p| + |d|, k);
    }
  }

  /** Plain ASCII text (no shekel sign, no Hebrew) never has a price. */
  lemma AsciiTextHasNoPrice(s: string)
    requires AsciiOnly(s)
    ensures ExtractPrice(s) == None
  {
    LiteralAtStartsWith(s, PriceWord);
    NoMarkerNoPrice(s);
  }

  lemma Decimal999()
    ensures Decimal(999) == "999"
  {
    assert Decimal(9) == "9";
    assert Decimal(99) == "99";
  }

  /** Whitespace, such as the newlines and indentation markup leaves
      around a text, has no digit, no shekel sign and no non-ASCII character. */
  lemma BlankIsNeutral(w: string)
    requires AllSpaces(w, 0, |w|)
    ensures DigitFree(w) && NoShekel(w) && AsciiOnly(w)
  {
  }

  lemma DigitFreeConcat(a: string, b: string)
    requires DigitFree(a) && DigitFree(b)
    ensures DigitFree(a + b)
  {
    forall k | 0 <= k < |a + b|
      ensures !IsDigit((a + b)[k])
    {
      if k < |a| {
        assert (a + b)[k] == a[k];
      } else {
        assert (a + b)[k] == b[k - |a|];
      }
    }
  }

  /** The text around the numeral of test cases 1 and 4 has no digit. */
  lemma PhraseAroundIsDigitFree()
    ensures DigitFree(PriceWord + " " + NowWord + " ")
    ensures DigitFree(" " + [Shekel])
  {
  }

  /** The text around a numeral in the padded phrase of test cases 1 and 4 has no digit. */
  lemma PaddedPhraseIsDigitFree(pre: string, post: string)
    requires AllSpaces(pre, 0, |pre|) && AllSpaces(post, 0, |post|)
    ensures DigitFree(pre + (PriceWord + " " + NowWord + " "))
    ensures DigitFree(" " + [Shekel] + post)
  {
    BlankIsNeutral(pre);
    BlankIsNeutral(post);
    PhraseAroundIsDigitFree();
    DigitFreeConcat(pre, PriceWord + " " + NowWord + " ");
    DigitFreeConcat(" " + [Shekel], post);
  }

  /** The padded phrase with the numeral `middle` is the numeral between the
      text before it and the text after it. */
  lemma PaddedPhraseSplit(pre: string, post: string, n: nat, middle: string)
    requires (n == 8 && middle == " 8 ") || (n == 999 && middle == " 999 ")
    ensures pre + PriceWord + " " + NowWord + middle + [Shekel] + post
         == pre + (PriceWord + " " + NowWord + " ") + Decimal(n) + " " + [Shekel] + post
    ensures pre + PriceWord + " " + NowWord + middle + [Shekel] + post
         == pre + (PriceWord + " " + NowWord + " ") + Decimal(n) + (" " + [Shekel] + post)
  {
    if n == 999 {
      Decimal999();
    } else {
      assert Decimal(8) == "8";
    }
    assert middle == " " + Decimal(n) + " ";
  }

  /** test_scraper.py case 1: "המחיר עכשיו 8 ₪", between the whitespace the
      markup leaves around it, extracts to 8. */
  lemma HebrewPhraseExample(pre: string, post: string)
    requires AllSpaces(pre, 0, |pre|) && AllSpaces(post, 0, |post|)
    ensures ExtractPrice(pre + PriceWord + " " + NowWord + " 8 " + [Shekel] + post) == Some(8)
  {
    var p := pre + (PriceWord + " " + NowWord + " ");
    PaddedPhraseIsDigitFree(pre, post);
    assert AllSpaces(" ", 0, 1);
    PaddedPhraseSplit(pre, post, 8, " 8 ");
    PriceBeforeShekel(p, 8, " ", post);
  }

  /** test_scraper.py case 2: "Current price: ₪8", between whitespace, extracts to 8. */
  lemma ShekelFirstExample(pre: string, post: string)
    requires AllSpaces(pre, 0, |pre|) && AllSpaces(post, 0, |post|)
    ensures ExtractPrice(pre + "Current price: " + [Shekel] + "8" + post) == Some(8)
  {
    var p := pre + "Current price: ";
    BlankIsNeutral(pre);
    BlankIsNeutral(post);
    DigitFreeConcat(pre, "Current price: ");
    assert NoShekel(p) by {
      forall k | 0 <= k < |p|
        ensures p[k] != Shekel
      {
        if k < |pre| {
          assert p[k] == pre[k];
        }
      }
    }
    ShekelBeforePrice(p, 8, post);
    assert p + [Shekel] + Decimal(8) + post == pre + "Current price: " + [Shekel] + "8" + post;
  }

  /** test_scraper.py case 3: "No pricing information here", between
      whitespace, has no price. */
  lemma NoPriceExample(pre: string, post: string)
    requires AllSpaces(pre, 0, |pre|) && AllSpaces(post, 0, |post|)
    ensures ExtractPrice(pre + "No pricing information here" + post) == None
  {
    var s := pre + "No pricing information here" + post;
    BlankIsNeutral(pre);
    BlankIsNeutral(post);
    assert AsciiOnly(s) by {
      forall k | 0 <= k < |s|
        ensures s[k] < '\U{80}'
      {
        if k < |pre| {
          assert s[k] == pre[k];
        } else if k < |pre| + 27 {
          assert s[k] == "No pricing information here"[k - |pre|];
        } else {
          assert s[k] == post[k - |pre| - 27];
        }
      }
    }
    AsciiTextHasNoPrice(s);
  }

  /** test_scraper.py case 4: "המחיר עכשיו 999 ₪", between whitespace, has no price. */
  lemma ImplausiblePriceExample(pre: string, post: string)
    requires AllSpaces(pre, 0, |pre|) && AllSpaces(post, 0, |post|)
    ensures ExtractPrice(pre + PriceWord + " " + NowWord + " 999 " + [Shekel] + post) == None
  {
    var p, q := pre + (PriceWord + " " + NowWord + " "), " " + [Shekel] + post;
    PaddedPhraseIsDigitFree(pre, post);
    PaddedPhraseSplit(pre, post, 999, " 999 ");
    ImplausibleOnlyNumeral(p, 999, q);
  }


  /** Without the word "המחיר" only the two shekel-sign patterns can match. */
  lemma NoPriceWordNoPhrase(s: string)
    requires forall k :: 0 <= k < |s| ==> s[k] != PriceWord[0]
    ensures forall k :: 2 <= k < |Ordered| ==> PatternVerdict(s, k) == NoMatch
  {
    LiteralAtStartsWith(s, PriceWord);
    NoStartNoMatch(PriceNowDigits, s);
    NoStartNoMatch(PriceCurrentlyDigits, s);
    NoStartNoMatch(PriceLaterDigits, s);
  }

  lemma {:induction false} TryPatternsAllSkipped(s: string, k0: nat)
    requires k0 <= |Ordered|
    requires forall k :: k0 <= k < |Ordered| ==> Skipped(s, k)
    ensures TryPatterns(s, k0) == None
    decreases |Ordered| - k0
  {
    if k0 < |Ordered| {
      assert Skipped(s, k0);
      TryPatternsAllSkipped(s, k0 + 1);
    }
  }

  /** Every pattern passed over: no price. */
  lemma AllSkippedNoPrice(s: string)
    requires forall k :: 0 <= k < |Ordered| ==> Skipped(s, k)
    ensures ExtractPrice(s) == None
  {
    TryPatternsAllSkipped(s, 0);
  }

  /** "200₪;8₪": pattern 1 also matches "8₪". */
  const TwoPrices: string := "200\U{20AA};8\U{20AA}"

  lemma TwoPricesLaterMatch()
    ensures MatchAt(DigitsThenShekel, TwoPrices, 5) == Some(Span(5, 6))
  {
    var s := TwoPrices;
    assert AllDigits(s, 5, 6) && AllSpaces(s, 6, 6) && s[6] == Shekel;
    DigitsShekelComplete(s, 5, 6);
  }

  lemma TwoPricesLeftmost()
    ensures Leftmost(DigitsThenShekel, TwoPrices) == Some(Match(0, Span(0, 3)))
  {
    var s := TwoPrices;
    assert AllDigits(s, 0, 3) && AllSpaces(s, 3, 3) && s[3] == Shekel;
    DigitsShekelComplete(s, 0, 3);
    FirstStartIsLeftmost(DigitsThenShekel, s, 0, Span(0, 3));
  }

  lemma TwoPricesFirstPattern()
    ensures PatternVerdict(TwoPrices, 0) == Captured(200)
  {
    TwoPricesLeftmost();
    assert TwoPrices[0..3] == "200";
    assert Value("200") == 200 by {
      assert "200"[..2] == "20" && "20"[..1] == "2";
    }
  }

  lemma TwoPricesOtherPatterns()
    ensures forall k :: 1 <= k < |Ordered| ==> PatternVerdict(TwoPrices, k) == NoMatch
  {
    var s := TwoPrices;
    SpacesEndUnique(s, 4, 4);
    SpacesEndUnique(s, 7, 7);
    assert forall i :: 0 <= i < |s| ==> MatchAt(ShekelThenDigits, s, i).None?;
    NoStartNoMatch(ShekelThenDigits, s);
    NoPriceWordNoPhrase(s);
  }

  /** Only the leftmost match of a pattern counts: in "200₪;8₪" pattern 1
      also matches "8₪", but its leftmost capture 200 is implausible and no
      other pattern matches, so there is no price. */
  lemma OnlyLeftmostMatchCounts()
    ensures MatchAt(DigitsThenShekel, TwoPrices, 5) == Some(Span(5, 6))
    ensures ExtractPrice(TwoPrices) == None
  {
    TwoPricesLaterMatch();
    TwoPricesFirstPattern();
    TwoPricesOtherPatterns();
    AllSkippedNoPrice(TwoPrices);
  }

  /** test_scraper.py `test_validate_price`. */
  lemma ValidatePriceExamples()
    ensures Truthy(ValidatePrice(PyInt(8)))
    ensures Truthy(ValidatePrice(PyInt(1))) && Truthy(ValidatePrice(PyInt(100)))
    ensures ValidatePrice(PyInt(0)) == PyInt(0) && !Truthy(ValidatePrice(PyInt(0)))
    ensures ValidatePrice(PyInt(101)) == PyBool(false)
    ensures ValidatePrice(PyNone) == PyNone
    ensures ValidatePrice(PyStr("8")) == PyBool(false)
  {
  }
}
