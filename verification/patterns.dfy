/**
 * The five price patterns of the scraper (scraper.py, lines 29-35), each as a
 * hand-written matcher with the semantics of Python's `re.search`:
 *
 *   1. `(\d+)\s*₪`
 *   2. `₪\s*(\d+)`
 *   3. `המחיר\s+עכשיו\s+(\d+)`
 *   4. `המחיר\s+כעת\s+(\d+)`
 *   5. `המחיר.*?(\d+)\s*₪`
 *
 * `re.search` reports the match that starts leftmost; among the matches at that
 * start it reports the first one its backtracking tries.  `Accepts` is the
 * reference reading of each regex (every way the regex can match at a start,
 * with any split between its parts) and `TriedFirst` is the backtracking
 * priority; `LeftmostIsPythonMatch` proves the executable search agrees.
 */
module Patterns {

  import opened Wrappers
  import opened Chars

  datatype Pattern =
    | DigitsThenShekel      // (\d+)\s*₪
    | ShekelThenDigits      // ₪\s*(\d+)
    | PriceNowDigits        // המחיר\s+עכשיו\s+(\d+)
    | PriceCurrentlyDigits  // המחיר\s+כעת\s+(\d+)
    | PriceLaterDigits      // המחיר.*?(\d+)\s*₪

  /** The order in which the scraper tries the patterns. */
  const Ordered: seq<Pattern> :=
    [DigitsThenShekel, ShekelThenDigits, PriceNowDigits, PriceCurrentlyDigits, PriceLaterDigits]

  /** The capture group `(\d+)` as the slice `s[lo..hi]`. */
  datatype Span = Span(lo: nat, hi: nat)

  /** A match starting at `start` whose group is `group`. */
  datatype Match = Match(start: nat, group: Span)

  /** The group spans a whole run of digits inside `s` that cannot be extended to the right. */
  predicate GreedyDigits(s: string, g: Span) {
    g.lo < g.hi <= |s| && AllDigits(s, g.lo, g.hi) && (g.hi == |s| || !IsDigit(s[g.hi]))
  }

  // ---------------------------------------------------------------------------
  // Executable matchers
  // ---------------------------------------------------------------------------

  /** `(\d+)\s*₪` tried at index `i`. */
  function DigitsShekelAt(s: string, i: nat): (r: Option<Span>)
    ensures r.Some? ==> r.value.lo == i && GreedyDigits(s, r.value)
  {
    if i < |s| && IsDigit(s[i]) then
      var j := DigitsEnd(s, i);
      var k := SpacesEnd(s, j);
      if k < |s| && s[k] == Shekel then Some(Span(i, j)) else None
    else None
  }

  /** `\s*(\d+)` (or `\s+(\d+)` when `needSpace`) tried at index `i`. */
  function SpacesDigitsAt(s: string, i: nat, needSpace: bool): (r: Option<Span>)
    requires i <= |s|
    ensures r.Some? ==> i <= r.value.lo && GreedyDigits(s, r.value)
  {
    var lo := SpacesEnd(s, i);
    if (needSpace ==> i < lo) && lo < |s| && IsDigit(s[lo]) then
      Some(Span(lo, DigitsEnd(s, lo)))
    else None
  }

  /** `המחיר\s+<word>\s+(\d+)` tried at index `i`. */
  function PhraseDigitsAt(s: string, i: nat, word: string): (r: Option<Span>)
    ensures r.Some? ==> i <= r.value.lo && GreedyDigits(s, r.value)
  {
    if LiteralAt(s, i, PriceWord) then
      var a := SpacesEnd(s, i + |PriceWord|);
      if i + |PriceWord| < a && LiteralAt(s, a, word) then SpacesDigitsAt(s, a + |word|, true)
      else None
    else None
  }

  /** `.*?(\d+)\s*₪` from index `k`: the lazy `.*?` grows one character at a
      time, never over a line feed, until the rest of the pattern matches. */
  function LazyDigitsShekel(s: string, k: nat): (r: Option<Span>)
    ensures r.Some? ==> k <= r.value.lo <= |s| && NoNewline(s, k, r.value.lo)
    ensures r.Some? ==> DigitsShekelAt(s, r.value.lo) == r
    decreases |s| - k
  {
    if k < |s| then
      match DigitsShekelAt(s, k)
      case Some(g) => Some(g)
      case None => if s[k] == '\n' then None else LazyDigitsShekel(s, k + 1)
    else None
  }

  /** The match of pattern `p` that starts at index `i`, if any. */
  function MatchAt(p: Pattern, s: string, i: nat): (r: Option<Span>)
    ensures r.Some? ==> i <= r.value.lo && GreedyDigits(s, r.value)
  {
    match p
    case DigitsThenShekel => DigitsShekelAt(s, i)
    case ShekelThenDigits => if i < |s| && s[i] == Shekel then SpacesDigitsAt(s, i + 1, false) else None
    case PriceNowDigits => PhraseDigitsAt(s, i, NowWord)
    case PriceCurrentlyDigits => PhraseDigitsAt(s, i, CurrentlyWord)
    case PriceLaterDigits =>
      if LiteralAt(s, i, PriceWord) then LazyDigitsShekel(s, i + |PriceWord|) else None
  }

  /** `re.search` from index `i` on: the first start that matches. */
  function SearchFrom(p: Pattern, s: string, i: nat): (r: Option<Match>)
    ensures r.Some? ==> i <= r.value.start < |s| && MatchAt(p, s, r.value.start) == Some(r.value.group)
    ensures r.Some? ==> forall j :: i <= j < r.value.start ==> MatchAt(p, s, j).None?
    ensures r.None? ==> forall j :: i <= j < |s| ==> MatchAt(p, s, j).None?
    decreases |s| - i
  {
    if i < |s| then
      match MatchAt(p, s, i)
      case Some(g) => Some(Match(i, g))
      case None => SearchFrom(p, s, i + 1)
    else None
  }

  /** `re.search(p, s)`: the leftmost match only. */
  function Leftmost(p: Pattern, s: string): Option<Match> {
    SearchFrom(p, s, 0)
  }

  /** The match `re.search` reports is the first one: the pattern matches at
      no earlier index, and there is no match at all exactly when it matches
      at no index. */
  lemma LeftmostIsFirstMatch(p: Pattern, s: string)
    ensures var r := Leftmost(p, s);
      r.Some? ==> r.value.start < |s| && MatchAt(p, s, r.value.start) == Some(r.value.group)
    ensures var r := Leftmost(p, s);
      r.Some? ==> forall j :: 0 <= j < r.value.start ==> MatchAt(p, s, j).None?
    ensures Leftmost(p, s).None? <==> forall j :: 0 <= j < |s| ==> MatchAt(p, s, j).None?
  {
  }

  // ---------------------------------------------------------------------------
  // Reference reading of the regexes
  // ---------------------------------------------------------------------------

  /** `\s*₪` matches from index `j`. */
  ghost predicate ShekelAfterSpaces(s: string, j: nat) {
    exists k :: j <= k < |s| && AllSpaces(s, j, k) && s[k] == Shekel
  }

  /** `המחיר\s+<word>\s+` matches `s[i..lo]`. */
  ghost predicate PhraseBefore(s: string, i: nat, word: string, lo: nat)
    requires lo <= |s|
  {
    && LiteralAt(s, i, PriceWord)
    && exists a: nat ::
         && i + |PriceWord| < a
         && a + |word| < lo
         && AllSpaces(s, i + |PriceWord|, a)
         && LiteralAt(s, a, word)
         && AllSpaces(s, a + |word|, lo)
  }

  /** Pattern `p` can match starting at index `i` with its group at `g`. */
  ghost predicate Accepts(p: Pattern, s: string, i: nat, g: Span) {
    && i <= g.lo < g.hi <= |s|
    && AllDigits(s, g.lo, g.hi)
    && match p
       case DigitsThenShekel => g.lo == i && ShekelAfterSpaces(s, g.hi)
       case ShekelThenDigits => s[i] == Shekel && i + 1 <= g.lo && AllSpaces(s, i + 1, g.lo)
       case PriceNowDigits => PhraseBefore(s, i, NowWord, g.lo)
       case PriceCurrentlyDigits => PhraseBefore(s, i, CurrentlyWord, g.lo)
       case PriceLaterDigits =>
         && LiteralAt(s, i, PriceWord)
         && i + |PriceWord| <= g.lo
         && NoNewline(s, i + |PriceWord|, g.lo)
         && ShekelAfterSpaces(s, g.hi)
  }

  /** Backtracking tries group `g` no later than group `h`.  The quantifier in
      front of the group decides where the group starts: greedy `\s*`/`\s+`
      try the latest start first, the lazy `.*?` of pattern 5 the earliest.
      The greedy `\d+` then tries the longest group first. */
  ghost predicate TriedFirst(p: Pattern, g: Span, h: Span) {
    if p == PriceLaterDigits then g.lo < h.lo || (g.lo == h.lo && g.hi >= h.hi)
    else g.lo > h.lo || (g.lo == h.lo && g.hi >= h.hi)
  }

  /** What `re.search(p, s)` returns, read off the regex: the leftmost start,
      and at that start the group backtracking tries first. */
  ghost predicate PythonMatch(p: Pattern, s: string, m: Match) {
    && Accepts(p, s, m.start, m.group)
    && (forall i: nat, h :: i < m.start ==> !Accepts(p, s, i, h))
    && (forall h :: Accepts(p, s, m.start, h) ==> TriedFirst(p, m.group, h))
  }

  // ---------------------------------------------------------------------------
  // Agreement of the matchers with the reference reading
  // ---------------------------------------------------------------------------

  lemma DigitsShekelSound(s: string, i: nat)
    requires DigitsShekelAt(s, i).Some?
    ensures ShekelAfterSpaces(s, DigitsShekelAt(s, i).value.hi)
  {
    var k := SpacesEnd(s, DigitsEnd(s, i));
    assert AllSpaces(s, DigitsEnd(s, i), k) && s[k] == Shekel;
  }

  /** A whole digit run followed by `\s*₪` is exactly what `(\d+)\s*₪` finds. */
  lemma DigitsShekelComplete(s: string, lo: nat, hi: nat)
    requires lo < hi <= |s| && AllDigits(s, lo, hi) && ShekelAfterSpaces(s, hi)
    ensures DigitsShekelAt(s, lo) == Some(Span(lo, hi))
  {
    var k :| hi <= k < |s| && AllSpaces(s, hi, k) && s[k] == Shekel;
    assert hi == |s| || !IsDigit(s[hi]) by {
      if hi < k {
        assert IsSpace(s[hi]);
      }
    }
    DigitsEndUnique(s, lo, hi);
    SpacesEndUnique(s, hi, k);
  }

  lemma PhraseDigitsSound(s: string, i: nat, word: string)
    requires 0 < |word| && !IsSpace(word[0])
    requires PhraseDigitsAt(s, i, word).Some?
    ensures PhraseBefore(s, i, word, PhraseDigitsAt(s, i, word).value.lo)
  {
    var a := SpacesEnd(s, i + |PriceWord|);
    var lo := PhraseDigitsAt(s, i, word).value.lo;
    assert SpacesEnd(s, a + |word|) == lo;
    assert AllSpaces(s, a + |word|, lo);
  }

  lemma PhraseDigitsComplete(s: string, i: nat, word: string, h: Span)
    requires 0 < |word| && !IsSpace(word[0])
    requires h.lo < h.hi <= |s| && AllDigits(s, h.lo, h.hi) && PhraseBefore(s, i, word, h.lo)
    ensures PhraseDigitsAt(s, i, word).Some?
    ensures PhraseDigitsAt(s, i, word).value.lo == h.lo
    ensures PhraseDigitsAt(s, i, word).value.hi >= h.hi
  {
    var a: nat :|
      && i + |PriceWord| < a
      && a + |word| < h.lo
      && AllSpaces(s, i + |PriceWord|, a)
      && LiteralAt(s, a, word)
      && AllSpaces(s, a + |word|, h.lo);
    assert s[a] == s[a..a + |word|][0] == word[0];
    SpacesEndUnique(s, i + |PriceWord|, a);
    SpacesEndUnique(s, a + |word|, h.lo);
  }

  /** The lazy scan stops at the earliest group start that completes the pattern. */
  lemma {:induction false} LazyFindsEarliest(s: string, k: nat, h: Span)
    requires k <= h.lo <= |s| && NoNewline(s, k, h.lo)
    requires DigitsShekelAt(s, h.lo) == Some(h)
    ensures LazyDigitsShekel(s, k).Some?
    ensures LazyDigitsShekel(s, k).value.lo <= h.lo
    ensures LazyDigitsShekel(s, k).value.lo == h.lo ==> LazyDigitsShekel(s, k).value == h
    decreases h.lo - k
  {
    if DigitsShekelAt(s, k).None? {
      assert k < h.lo && s[k] != '\n';
      LazyFindsEarliest(s, k + 1, h);
    }
  }

  /** Whatever the matcher finds at `i` is a way the regex can match at `i`. */
  lemma MatchAtSound(p: Pattern, s: string, i: nat)
    requires MatchAt(p, s, i).Some?
    ensures Accepts(p, s, i, MatchAt(p, s, i).value)
  {
    var g := MatchAt(p, s, i).value;
    match p
    case DigitsThenShekel => DigitsShekelSound(s, i);
    case ShekelThenDigits =>
    case PriceNowDigits => PhraseDigitsSound(s, i, NowWord);
    case PriceCurrentlyDigits => PhraseDigitsSound(s, i, CurrentlyWord);
    case PriceLaterDigits => DigitsShekelSound(s, g.lo);
  }

  /** If the regex can match at `i` at all, the matcher finds the match backtracking tries first. */
  lemma MatchAtComplete(p: Pattern, s: string, i: nat, h: Span)
    requires Accepts(p, s, i, h)
    ensures MatchAt(p, s, i).Some?
    ensures TriedFirst(p, MatchAt(p, s, i).value, h)
  {
    match p
    case DigitsThenShekel =>
      DigitsShekelComplete(s, h.lo, h.hi);
    case ShekelThenDigits =>
      SpacesEndUnique(s, i + 1, h.lo);
    case PriceNowDigits =>
      PhraseDigitsComplete(s, i, NowWord, h);
    case PriceCurrentlyDigits =>
      PhraseDigitsComplete(s, i, CurrentlyWord, h);
    case PriceLaterDigits =>
      DigitsShekelComplete(s, h.lo, h.hi);
      LazyFindsEarliest(s, i + |PriceWord|, h);
  }

  /** The executable search returns exactly what `re.search` returns. */
  lemma LeftmostIsPythonMatch(p: Pattern, s: string)
    ensures Leftmost(p, s).Some? ==> PythonMatch(p, s, Leftmost(p, s).value)
    ensures Leftmost(p, s).None? ==> forall i: nat, h :: !Accepts(p, s, i, h)
  {
    var r := Leftmost(p, s);
    if r.Some? {
      var m := r.value;
      MatchAtSound(p, s, m.start);
      forall i: nat, h | i < m.start
        ensures !Accepts(p, s, i, h)
      {
        if Accepts(p, s, i, h) {
          MatchAtComplete(p, s, i, h);
        }
      }
      forall h | Accepts(p, s, m.start, h)
        ensures TriedFirst(p, m.group, h)
      {
        MatchAtComplete(p, s, m.start, h);
      }
    } else {
      forall i: nat, h
        ensures !Accepts(p, s, i, h)
      {
        if Accepts(p, s, i, h) {
          MatchAtComplete(p, s, i, h);
        }
      }
    }
  }

  /** No match of `p` starts before the leftmost one. */
  lemma NothingBeforeLeftmost(p: Pattern, s: string, i: nat, h: Span)
    requires Leftmost(p, s).Some? && i < Leftmost(p, s).value.start
    ensures !Accepts(p, s, i, h)
  {
    LeftmostIsPythonMatch(p, s);
  }

  /** The last character of "המחיר" is not a digit. */
  lemma PriceWordEndsInLetter(s: string, i: nat)
    ensures LiteralAt(s, i, PriceWord) ==> !IsDigit(s[i + |PriceWord| - 1])
  {
    if LiteralAt(s, i, PriceWord) {
      assert s[i + |PriceWord| - 1] == s[i..i + |PriceWord|][|PriceWord| - 1];
    }
  }

  /** Among the matches at the leftmost start, the search returns the one
      backtracking tries first. */
  lemma PreferredAtLeftmost(p: Pattern, s: string, h: Span)
    ensures Leftmost(p, s).Some? && Accepts(p, s, Leftmost(p, s).value.start, h)
            ==> TriedFirst(p, Leftmost(p, s).value.group, h)
  {
    LeftmostIsPythonMatch(p, s);
  }

  /** A digit just before the group of pattern 1 lets the match start one
      character earlier. */
  lemma DigitsShekelExtendsLeft(s: string, g: Span)
    ensures 0 < g.lo <= |s| && IsDigit(s[g.lo - 1]) && Accepts(DigitsThenShekel, s, g.lo, g)
            ==> Accepts(DigitsThenShekel, s, g.lo - 1, Span(g.lo - 1, g.hi))
  {
  }

  /** A digit just before the group of pattern 5, inside the text `.*?`
      covers, lets the lazy part stop one character earlier. */
  lemma LazyGroupExtendsLeft(s: string, i: nat, g: Span)
    ensures i + |PriceWord| < g.lo <= |s| && IsDigit(s[g.lo - 1]) && Accepts(PriceLaterDigits, s, i, g)
            ==> Accepts(PriceLaterDigits, s, i, Span(g.lo - 1, g.hi))
  {
  }

  /** The group of the leftmost match is a whole numeral of `s`: the digit run
      cannot be extended on either side, so `999 ₪` never yields `99` or `9`. */
  lemma LeftmostGroupIsWholeNumeral(p: Pattern, s: string)
    requires Leftmost(p, s).Some?
    ensures GreedyDigits(s, Leftmost(p, s).value.group)
    ensures var g := Leftmost(p, s).value.group; g.lo == 0 || !IsDigit(s[g.lo - 1])
  {
    var m := Leftmost(p, s).value;
    var g := m.group;
    LeftmostIsPythonMatch(p, s);
    match p
    case DigitsThenShekel =>
      // otherwise the match would have started one digit earlier
      if 0 < g.lo {
        DigitsShekelExtendsLeft(s, g);
        NothingBeforeLeftmost(p, s, g.lo - 1, Span(g.lo - 1, g.hi));
      }
    case PriceLaterDigits =>
      // otherwise the lazy `.*?` would have stopped one digit earlier
      if 0 < g.lo {
        PriceWordEndsInLetter(s, m.start);
        LazyGroupExtendsLeft(s, m.start, g);
        PreferredAtLeftmost(p, s, Span(g.lo - 1, g.hi));
      }
    case _ =>
  }
}
