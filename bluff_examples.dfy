/**
 * examples/bluffing.py: the bluff candidates of the package. A candidate has
 * no one pair that uses a holecard, is not two pair or better, and has three
 * to a flush and three to a straight with both holecards. get_bluffcandidates
 * filters the canonical holecards, skipping those that share a card with the
 * flop.
 */
module BluffExamples {
  import opened Outcomes
  import opened Cards
  import opened Sorting
  import opened PokerTools
  import Hand
  import Flop
  import Holecards
  import Complex
  import Bluffing

  /**
   * is_bluffcandidate: not one pair made with a holecard (the board alone may
   * be paired), not two pair or better, then three to a flush and three to a
   * straight with both holecards, in that short-circuit order.
   */
  function IsBluffCandidate(holecards: seq<Card>, flop: seq<Card>): (r: Result<bool>)
    ensures Complex.FiveCardsOf(holecards, flop).Err? ==> r == Err(Complex.FiveCardsOf(holecards, flop).error)
    ensures Complex.FiveCardsOf(holecards, flop).Ok? && r.Err? ==> |holecards| != 2 && r.error == ValueError
  {
    var hand :- Complex.FiveCardsOf(holecards, flop);
    if Complex.IsOnePair(holecards, flop, true).value then Ok(false)
    else if Hand.IsTwoPairOrBetter(hand).value then Ok(false)
    else
      var flush :- Complex.ThreeFlush(holecards, flop, 2);
      if !flush then Ok(false) else Complex.ThreeStraight(holecards, flop, 2)
  }

  /**
   * is_bluffcandidate as written: once its five_cards check passes, it calls
   * is_onepair(holecards, flop, include_board=False). The five_cards wrapper
   * of is_onepair accepts the keyword, passes the same five cards again and
   * hands the keyword on to is_onepair, which does not take it: TypeError.
   */
  function IsBluffCandidateAsWritten(holecards: seq<Card>, flop: seq<Card>): (r: Result<bool>)
    ensures Complex.FiveCardsOf(holecards, flop).Err? ==> r == Err(Complex.FiveCardsOf(holecards, flop).error)
    ensures Complex.FiveCardsOf(holecards, flop).Ok? ==> r == Err(TypeError)
  {
    var hand :- Complex.FiveCardsOf(holecards, flop);
    Err(TypeError)
  }

  /**
   * As written, no five different cards get a verdict: every call that the
   * docstring's test answers raises TypeError instead.
   */
  lemma KeywordMismatchRaises(holecards: seq<Card>, flop: seq<Card>)
    requires Complex.FiveCardsOf(holecards, flop).Ok? && |holecards| == 2
    ensures IsBluffCandidate(holecards, flop).Ok?
    ensures IsBluffCandidateAsWritten(holecards, flop) == Err(TypeError)
  {
  }

  /** The first docstring example: Qd Jd on Kc 2d 2h is a candidate, but the call as written raises TypeError. */
  lemma KeywordMismatchExample(holecards: seq<Card>, flop: seq<Card>)
    requires holecards == [Card(12, D), Card(11, D)] && flop == [Card(13, C), Card(2, D), Card(2, H)]
    ensures IsBluffCandidate(holecards, flop) == Ok(true)
    ensures IsBluffCandidateAsWritten(holecards, flop) == Err(TypeError)
  {
    BoardPairCandidate(holecards, flop);
  }

  /**
   * A candidate has three to a flush and three to a straight with both
   * holecards, is not two pair or better, and if it is one pair the pair is
   * on the board.
   */
  lemma CandidateProperties(holecards: seq<Card>, flop: seq<Card>)
    requires IsBluffCandidate(holecards, flop) == Ok(true)
    ensures Complex.FiveCardsOf(holecards, flop).Ok? && |holecards| == 2
    ensures Complex.ThreeFlush(holecards, flop, 2) == Ok(true) && Complex.ThreeStraight(holecards, flop, 2) == Ok(true)
    ensures Hand.IsTwoPairOrBetter(holecards + flop) == Ok(false)
    ensures Hand.IsOnePair(holecards + flop) ==> Flop.HasPair(flop)
  {
  }

  /**
   * Every candidate of bluffing.py is a candidate here: no pair at all leaves
   * no one pair and nothing better, and its straight triples are windows here.
   */
  lemma OlderCandidatesKept(holecards: seq<Card>, flop: seq<Card>)
    requires Bluffing.IsBluffCandidate(holecards, flop) == Ok(true)
    ensures IsBluffCandidate(holecards, flop) == Ok(true)
  {
    var hand := holecards + flop;
    Bluffing.BluffCandidateParts(holecards, flop);
    Hand.NoPairNotTwoPairOrBetter(hand);
    Bluffing.ThreeStraightAgainstPackage(holecards, flop, 2);
    NoPairIsNotOnePair(holecards, flop);
    CandidateOfParts(holecards, flop);
  }

  lemma NoPairIsNotOnePair(holecards: seq<Card>, flop: seq<Card>)
    requires Complex.FiveCardsOf(holecards, flop).Ok? && Hand.IsNoPair(holecards + flop)
    ensures Complex.IsOnePair(holecards, flop, true) == Ok(false)
  {
  }

  /** The three tests True make a candidate. */
  lemma CandidateOfParts(holecards: seq<Card>, flop: seq<Card>)
    requires Complex.IsOnePair(holecards, flop, true) == Ok(false)
    requires Hand.IsTwoPairOrBetter(holecards + flop) == Ok(false)
    requires Complex.ThreeFlush(holecards, flop, 2) == Ok(true) && Complex.ThreeStraight(holecards, flop, 2) == Ok(true)
    ensures IsBluffCandidate(holecards, flop) == Ok(true)
  {
  }

  // ---------------------------------------------------------------------------
  // get_bluffcandidates

  /**
   * CANONICAL_HOLECARDS.values(): the two cards of every canonical name, the
   * earlier card of CARD_NAMES first.
   */
  function CanonicalHolecards(): set<seq<Card>> {
    set i, j | 0 <= i < j < 52 :: [DeckCard(i), DeckCard(j)]
  }

  /**
   * CANONICAL_HOLECARDS is HOLECARDS restricted to CANONICAL_HOLECARDS_NAMES:
   * every canonical name looks up a pair of these holecards, and every pair of
   * them is what its own canonical name looks up.
   */
  lemma CanonicalHolecardsOfNames(s: string, h: seq<Card>)
    ensures s in CanonicalHolecardsNames() ==>
              HolecardsOfName(s).Some? && [HolecardsOfName(s).value.0, HolecardsOfName(s).value.1] in CanonicalHolecards()
    ensures h in CanonicalHolecards() ==>
              |h| == 2 && HolecardName(h[0], h[1]) in CanonicalHolecardsNames() &&
              HolecardsOfName(HolecardName(h[0], h[1])) == Some((h[0], h[1]))
  {
    if s in CanonicalHolecardsNames() {
      var i, j :| 0 <= i < j < 52 && s == HolecardName(DeckCard(i), DeckCard(j));
      CanonicalHolecardsMembership(DeckCard(i), DeckCard(j), s);
      var p := HolecardsOfName(s).value;
      HolecardNameInjective(p.0, p.1, DeckCard(i), DeckCard(j));
      assert [p.0, p.1] == [DeckCard(i), DeckCard(j)];
    }
    if h in CanonicalHolecards() {
      var i, j :| 0 <= i < j < 52 && h == [DeckCard(i), DeckCard(j)];
      var n := HolecardName(h[0], h[1]);
      assert n in CanonicalHolecardsNames();
      CanonicalHolecardsMembership(h[0], h[1], n);
      var p := HolecardsOfName(n).value;
      HolecardNameInjective(p.0, p.1, h[0], h[1]);
    }
  }

  /**
   * What get_bluffcandidates yields from the holecards of `pool` in order:
   * the candidates, skipping holecards whose cards conflict with the flop; any
   * other error ends the generator with that error.
   */
  function Candidates(pool: seq<seq<Card>>, flop: seq<Card>): (r: Result<seq<seq<Card>>>)
    ensures r.Ok? ==> |r.value| <= |pool|
  {
    if pool == [] then Ok([])
    else
      var holecards := pool[|pool| - 1];
      Extend(Candidates(pool[..|pool| - 1], flop), holecards, IsBluffCandidate(holecards, flop))
  }

  /** One step of the generator: keep a candidate, skip a conflict, stop at any other error. */
  function Extend(earlier: Result<seq<seq<Card>>>, holecards: seq<Card>, c: Result<bool>): (r: Result<seq<seq<Card>>>)
    ensures r.Ok? ==> earlier.Ok? && |r.value| <= |earlier.value| + 1
  {
    var found :- earlier;
    if c.Err? && c.error != ConflictingCards then Err(c.error)
    else Ok(found + (if c == Ok(true) then [holecards] else []))
  }

  lemma CandidatesPrefix(pool: seq<seq<Card>>, flop: seq<Card>, i: nat)
    requires i < |pool|
    ensures Candidates(pool[..i + 1], flop) == Extend(Candidates(pool[..i], flop), pool[i], IsBluffCandidate(pool[i], flop))
  {
    assert pool[..i + 1][..i] == pool[..i];
  }

  /** Once the generator has stopped with an error, later holecards change nothing. */
  lemma {:induction false} CandidatesErrorPersists(pool: seq<seq<Card>>, flop: seq<Card>, i: nat)
    requires i <= |pool| && Candidates(pool[..i], flop).Err?
    ensures Candidates(pool, flop) == Candidates(pool[..i], flop)
  {
    if i == |pool| {
      assert pool[..i] == pool;
    } else {
      var init := pool[..|pool| - 1];
      assert init[..i] == pool[..i];
      CandidatesErrorPersists(init, flop, i);
    }
  }

  /**
   * get_bluffcandidates over the canonical holecards, listed by `pool` in the
   * order in which the dictionary of canonical holecards yields them.
   */
  method GetBluffCandidates(flop: seq<Card>, pool: seq<seq<Card>>) returns (r: Result<seq<seq<Card>>>)
    ensures r == Candidates(pool, flop)
  {
    var found: seq<seq<Card>> := [];
    for i := 0 to |pool|
      invariant Candidates(pool[..i], flop) == Ok(found)
    {
      var holecards := pool[i];
      var c := IsBluffCandidate(holecards, flop);
      CandidatesPrefix(pool, flop, i);
      if c.Err? && c.error != ConflictingCards {
        CandidatesErrorPersists(pool, flop, i + 1);
        return Err(c.error);
      }
      found := Keep(found, holecards, c);
    }
    assert pool[..|pool|] == pool;
    return Ok(found);
  }

  /** The body of the generator's loop after the error test: yield a candidate, pass over the rest. */
  method Keep(found: seq<seq<Card>>, holecards: seq<Card>, c: Result<bool>) returns (r: seq<seq<Card>>)
    requires c.Ok? || c.error == ConflictingCards
    ensures Ok(r) == Extend(Ok(found), holecards, c)
    ensures c == Ok(true) ==> r == found + [holecards]
    ensures c != Ok(true) ==> r == found
  {
    r := found;
    if c == Ok(true) {
      r := found + [holecards];
    } else {
      assert found + [] == found;
    }
  }

  /** The holecards yielded are exactly the candidates among the pool, in pool order. */
  lemma {:induction false} CandidatesMembership(pool: seq<seq<Card>>, flop: seq<Card>)
    requires Candidates(pool, flop).Ok?
    ensures forall x :: x in Candidates(pool, flop).value <==> x in pool && IsBluffCandidate(x, flop) == Ok(true)
  {
    if pool != [] {
      var init := pool[..|pool| - 1];
      CandidatesMembership(init, flop);
      assert pool == init + [pool[|pool| - 1]];
    }
  }

  /** For a flop of three cards and pairs of holecards the only error is a conflict, which is skipped. */
  lemma {:induction false} CandidatesDefined(pool: seq<seq<Card>>, flop: seq<Card>)
    requires |flop| == 3 && forall i :: 0 <= i < |pool| ==> |pool[i]| == 2
    ensures Candidates(pool, flop).Ok?
  {
    if pool != [] {
      CandidatesDefined(pool[..|pool| - 1], flop);
    }
  }

  /**
   * Over the canonical holecards, in whatever order, get_bluffcandidates
   * yields exactly the canonical holecards that are candidates on the flop,
   * and none of them shares a card with the flop.
   */
  lemma CanonicalCandidates(pool: seq<seq<Card>>, flop: seq<Card>)
    requires |flop| == 3 && forall x :: x in pool <==> x in CanonicalHolecards()
    ensures Candidates(pool, flop).Ok?
    ensures forall x :: x in Candidates(pool, flop).value <==> x in CanonicalHolecards() && IsBluffCandidate(x, flop) == Ok(true)
    ensures forall x :: x in Candidates(pool, flop).value ==> Distinct(x + flop)
  {
    forall i | 0 <= i < |pool|
      ensures |pool[i]| == 2
    {
      assert pool[i] in CanonicalHolecards();
    }
    CandidatesDefined(pool, flop);
    CandidatesMembership(pool, flop);
  }

  // ---------------------------------------------------------------------------
  // Examples

  /** Five ranks, one of them twice and two others once each, are one pair. */
  lemma OnePairByCounts(hand: seq<Card>, p: int, x: int, y: int)
    requires |hand| == 5 && Distinct(hand)
    requires var s := NumericalRanks(hand);
      p in s && x in s && y in s && x != y &&
      multiset(s)[p] == 2 && multiset(s)[x] == 1 && multiset(s)[y] == 1
    ensures Hand.IsOnePair(hand)
  {
    var s := NumericalRanks(hand);
    SortedCountOfValuesFacts(hand);
    Hand.NoFiveOfARank(hand);
    Hand.PartitionsOfFive(SortedCounts(s));
    CountIsListed(s, p);
    CountIsListed(s, x);
    TwoValuesCounted(s, x, y);
  }

  /** A hit window makes three to a straight with both holecards. */
  lemma StraightOfWindow(holecards: seq<Card>, flop: seq<Card>, k: nat)
    requires Complex.FiveCardsOf(holecards, flop).Ok? && |holecards| == 2
    requires k < |RankWindows(holecards + flop)|
    requires var hr := SortedNumericalRanks(holecards);
      Complex.Hit(RankWindows(holecards + flop)[k], hr[0], hr[1], 2)
    ensures Complex.ThreeStraight(holecards, flop, 2) == Ok(true)
  {
  }

  /** Suited holecards with one more card of their suit on the flop make three to a flush with both. */
  lemma FlushOfSuits(holecards: seq<Card>, flop: seq<Card>)
    requires Complex.FiveCardsOf(holecards, flop).Ok? && |holecards| == 2 && holecards[0].suit == holecards[1].suit
    requires multiset(Complex.SuitsOf(flop))[holecards[0].suit] == 1
    ensures Complex.ThreeFlush(holecards, flop, 2) == Ok(true)
  {
    Bluffing.FlushOfSuits(holecards, flop);
  }

  /**
   * Qd Jd on Kc 2d 2h is a candidate: the pair is on the board, the hand is
   * one pair, three diamonds use both holecards and J Q K uses both ranks.
   * bluffing.py rejects it for the pair.
   */
  lemma BoardPairCandidate(holecards: seq<Card>, flop: seq<Card>)
    requires holecards == [Card(12, D), Card(11, D)] && flop == [Card(13, C), Card(2, D), Card(2, H)]
    ensures IsBluffCandidate(holecards, flop) == Ok(true)
    ensures Bluffing.IsBluffCandidate(holecards, flop) == Ok(false)
  {
    var hand := holecards + flop;
    BoardPairHand(holecards, flop);
    var nr := NumericalRanks(hand);
    BoardPairCounts(nr);
    OnePairByCounts(hand, 2, 12, 11);
    Hand.OnePairNotTwoPairOrBetter(hand);
    BoardPairFlop(NumericalRanks(flop));
    Flop.PairCharacterised(flop);
    BoardPairSorted(hand);
    BoardPairHolecards(holecards);
    BoardPairWindow(SortedNumericalRanks(hand));
    StraightOfWindow(holecards, flop, 2);
    BoardPairSuits(Complex.SuitsOf(flop));
    FlushOfSuits(holecards, flop);
    CandidateOfParts(holecards, flop);
    Hand.NoPairCharacterised(hand);
  }

  lemma BoardPairHand(holecards: seq<Card>, flop: seq<Card>)
    requires holecards == [Card(12, D), Card(11, D)] && flop == [Card(13, C), Card(2, D), Card(2, H)]
    ensures NumericalRanks(holecards + flop) == [12, 11, 13, 2, 2]
    ensures NumericalRanks(flop) == [13, 2, 2] && NumericalRanks(holecards) == [12, 11]
    ensures Complex.FiveCardsOf(holecards, flop) == Ok(holecards + flop)
    ensures Complex.SuitsOf(flop) == [C, D, H] && holecards[0].suit == holecards[1].suit == D
  {
    assert holecards + flop == [Card(12, D), Card(11, D), Card(13, C), Card(2, D), Card(2, H)];
  }

  lemma BoardPairCounts(s: seq<int>)
    requires s == [12, 11, 13, 2, 2]
    ensures 2 in s && 12 in s && 11 in s
    ensures multiset(s)[2] == 2 && multiset(s)[12] == 1 && multiset(s)[11] == 1
    ensures !NoDuplicates(s)
  {
    assert s[3] == s[4];
  }

  lemma BoardPairFlop(s: seq<int>)
    requires s == [13, 2, 2]
    ensures !NoDuplicates(s) && s[0] != s[1]
  {
    assert s[1] == s[2];
  }

  lemma BoardPairSorted(hand: seq<Card>)
    requires NumericalRanks(hand) == [12, 11, 13, 2, 2]
    ensures SortedNumericalRanks(hand) == [2, 2, 11, 12, 13]
  {
    BoardPairArranged(SortedNumericalRanks(hand), NumericalRanks(hand));
  }

  lemma BoardPairArranged(x: seq<int>, s: seq<int>)
    requires s == [12, 11, 13, 2, 2] && Ascending(x) && multiset(x) == multiset(s)
    ensures x == [2, 2, 11, 12, 13]
  {
    var t := [2, 2, 11, 12, 13];
    BoardPairAscending(t);
    BoardPairPermuted(s, t);
    AscendingUnique(x, t);
  }

  lemma BoardPairPermuted(s: seq<int>, t: seq<int>)
    requires s == [12, 11, 13, 2, 2] && t == [2, 2, 11, 12, 13]
    ensures multiset(s) == multiset(t)
  {
  }

  lemma BoardPairAscending(t: seq<int>)
    requires t == [2, 2, 11, 12, 13]
    ensures Ascending(t)
  {
  }

  lemma BoardPairHolecards(holecards: seq<Card>)
    requires NumericalRanks(holecards) == [12, 11] && |holecards| == 2
    ensures SortedNumericalRanks(holecards) == [11, 12]
  {
    Holecards.TwoSortedRanks(holecards);
  }

  /** The windows 2 2 11, 2 11 12 and 11 12 13: the last holds both holecard ranks. */
  lemma BoardPairWindow(s: seq<int>)
    requires s == [2, 2, 11, 12, 13]
    ensures |WindowsOfRanks(s)| == 3 && Complex.Hit(WindowsOfRanks(s)[2], 11, 12, 2)
  {
    WindowsOfFive(s);
    assert s[2..5] == [11, 12, 13];
  }

  lemma BoardPairSuits(suits: seq<Suit>)
    requires suits == [C, D, H]
    ensures multiset(suits)[D] == 1
  {
  }
}
