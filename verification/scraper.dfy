/**
 * `extract_price` and `validate_price` of scraper.py.
 *
 * The extractor tries the five patterns in order.  Each pattern contributes
 * only its leftmost match; the captured numeral goes through `int()`.  The
 * first capture in [1, 100] is the price; an implausible capture moves on to
 * the next pattern; an `int()` failure is caught by the handler around the
 * whole loop, so it ends extraction with no price.
 */
module Scraper {

  import opened Wrappers
  import opened Chars
  import opened Patterns
  import opened PyValues

  /** The plausibility bound on a toll price, in shekels. */
  predicate Plausible(n: int) {
    1 <= n <= 100
  }

  /** What one pattern yields: no match, a numeral `int()` refuses, or a number. */
  datatype Verdict = NoMatch | Unconvertible | Captured(value: int)

  /** The verdict of the `k`-th pattern on `s`: its leftmost group through `int()`. */
  function PatternVerdict(s: string, k: nat): Verdict
    requires k < |Ordered|
  {
    match Leftmost(Ordered[k], s)
    case None => NoMatch
    case Some(m) =>
      var d := s[m.group.lo..m.group.hi];
      assert IsNumeral(d) by {
        assert GreedyDigits(s, m.group);
      }
      match ParseInt(d)
      case None => Unconvertible
      case Some(v) => Captured(v)
  }

  /** What one pattern decides: no match when `re.search` finds none; a
      ValueError exactly when the leftmost group has more digits than `int()`
      accepts; otherwise the value of the leftmost group's digits. */
  lemma PatternVerdictMeaning(s: string, k: nat)
    requires k < |Ordered|
    ensures var v := PatternVerdict(s, k);
      v.NoMatch? <==> Leftmost(Ordered[k], s).None?
    ensures var v := PatternVerdict(s, k);
      !v.NoMatch? ==> var g := Leftmost(Ordered[k], s).value.group;
        (v.Unconvertible? <==> g.hi - g.lo > MaxStrDigits)
    ensures var v := PatternVerdict(s, k);
      v.Captured? ==> var g := Leftmost(Ordered[k], s).value.group;
        AllDigits(s, g.lo, g.hi) && v.value == Value(s[g.lo..g.hi])
  {
  }

  /** The pattern is passed over: it does not match, or its number is implausible. */
  predicate Skipped(s: string, k: nat)
    requires k < |Ordered|
  {
    var v := PatternVerdict(s, k);
    v.NoMatch? || (v.Captured? && !Plausible(v.value))
  }

  /** Pattern `k` decides the price `v` once the patterns before it, from the
      `k0`-th on, are passed over: it captures the plausible number `v`. */
  predicate DecidedFrom(s: string, k0: nat, k: nat, v: int)
    requires k < |Ordered|
  {
    && PatternVerdict(s, k) == Captured(v)
    && Plausible(v)
    && forall j :: k0 <= j < k ==> Skipped(s, j)
  }

  /** The loop over the patterns, from the `k`-th on. */
  function TryPatterns(s: string, k: nat): (r: Option<int>)
    requires k <= |Ordered|
    ensures r.Some? ==> Plausible(r.value)
    decreases |Ordered| - k
  {
    if k == |Ordered| then None
    else
      match PatternVerdict(s, k)
      case NoMatch => TryPatterns(s, k + 1)
      case Unconvertible => None
      case Captured(v) => if Plausible(v) then Some(v) else TryPatterns(s, k + 1)
  }

  /** `extract_price` on text already reduced from markup. */
  function ExtractPrice(text: string): (r: Option<int>)
    ensures r.Some? ==> Plausible(r.value)
    ensures |text| == 0 ==> r == None
  {
    if |text| == 0 then None else TryPatterns(text, 0)
  }

  /** `validate_price`: `price and isinstance(price, int) and 1 <= price <= 100`,
      which evaluates to its first falsy operand or to the last comparison. */
  function ValidatePrice(price: PyValue): (r: PyValue)
    ensures Truthy(r) <==> IsInt(price) && Plausible(IntValue(price))
    ensures !Truthy(price) ==> r == price
    ensures Truthy(price) ==> r.PyBool?
  {
    if !Truthy(price) then price
    else if !IsInt(price) then PyBool(false)
    else PyBool(Plausible(IntValue(price)))
  }

  // ---------------------------------------------------------------------------
  // Properties
  // ---------------------------------------------------------------------------

  /** One step of the loop: pattern `k0` decides `v`, or it is passed over
      and the rest of the loop returns `v`. */
  lemma TryPatternsStep(s: string, k0: nat, v: int)
    requires k0 < |Ordered|
    ensures TryPatterns(s, k0) == Some(v) <==>
      DecidedFrom(s, k0, k0, v) || (Skipped(s, k0) && TryPatterns(s, k0 + 1) == Some(v))
  {
  }

  /** Some pattern from the `k0`-th on decides `v`. */
  predicate DecidesFrom(s: string, k0: nat, v: int) {
    exists k :: k0 <= k < |Ordered| && DecidedFrom(s, k0, k, v)
  }

  /** Deciding from `k0` on is deciding at `k0`, or passing `k0` over and
      deciding from `k0 + 1` on. */
  lemma DecidesFromStep(s: string, k0: nat, v: int)
    requires k0 < |Ordered|
    ensures DecidesFrom(s, k0, v) <==> DecidedFrom(s, k0, k0, v) || (Skipped(s, k0) && DecidesFrom(s, k0 + 1, v))
  {
    if DecidesFrom(s, k0, v) {
      var k :| k0 <= k < |Ordered| && DecidedFrom(s, k0, k, v);
      if k0 < k {
        assert Skipped(s, k0);
        assert DecidedFrom(s, k0 + 1, k, v);
      }
    }
    if Skipped(s, k0) && DecidesFrom(s, k0 + 1, v) {
      var k :| k0 + 1 <= k < |Ordered| && DecidedFrom(s, k0 + 1, k, v);
      assert DecidedFrom(s, k0, k, v);
    }
  }

  lemma {:induction false} TryPatternsDecided(s: string, k0: nat, v: int)
    requires k0 <= |Ordered|
    ensures TryPatterns(s, k0) == Some(v) <==> DecidesFrom(s, k0, v)
    decreases |Ordered| - k0
  {
    if k0 < |Ordered| {
      TryPatternsDecided(s, k0 + 1, v);
      TryPatternsStep(s, k0, v);
      DecidesFromStep(s, k0, v);
    }
  }

  /** Patterns are tried in the fixed order 1 to 5 and the first one whose
      leftmost capture is plausible decides the price; nothing else yields one. */
  lemma ExtractIsFirstPlausibleCapture(s: string, v: int)
    ensures ExtractPrice(s) == Some(v) <==>
      0 < |s| && exists k :: 0 <= k < |Ordered| && DecidedFrom(s, 0, k, v)
  {
    TryPatternsDecided(s, 0, v);
  }

  lemma {:induction false} TryPatternsStopsAtFault(s: string, k0: nat, k: nat)
    requires k0 <= k < |Ordered|
    requires PatternVerdict(s, k) == Unconvertible
    requires forall j :: k0 <= j < k ==> Skipped(s, j)
    ensures TryPatterns(s, k0) == None
    decreases k - k0
  {
    if k0 < k {
      assert Skipped(s, k0);
      TryPatternsStopsAtFault(s, k0 + 1, k);
    }
  }

  /** A numeral `int()` refuses ends extraction with no price, even if a later
      pattern would have found one: the fault is caught around the whole loop. */
  lemma UnconvertibleCaptureAborts(s: string, k: nat)
    requires k < |Ordered|
    requires PatternVerdict(s, k) == Unconvertible
    requires forall j :: 0 <= j < k ==> Skipped(s, j)
    ensures ExtractPrice(s) == None
  {
    TryPatternsStopsAtFault(s, 0, k);
  }

  /** Every value `extract_price` returns passes `validate_price`, and its
      "no price" result fails it. */
  lemma ExtractedPricesValidate(s: string)
    ensures Truthy(ValidatePrice(FromOption(ExtractPrice(s)))) <==> ExtractPrice(s).Some?
  {
  }
}
