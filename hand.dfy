/**
 * The five-card hand categories of properties/hand.py: each is a test on the
 * sorted rank counts, the number of suits or the sorted ranks of the hand.
 */
module Hand {
  import opened Outcomes
  import opened Cards
  import opened Sorting
  import opened PokerTools

  /** The counts of five different ranks. */
  const FiveOnes: seq<int> := [1, 1, 1, 1, 1]

  /** The ace-low straight A-2-3-4-5, as sorted numerical ranks. */
  const Wheel: seq<int> := [2, 3, 4, 5, 14]

  /** Five consecutive ranks starting at lo. */
  function Run(lo: int): seq<int> {
    [lo, lo + 1, lo + 2, lo + 3, lo + 4]
  }

  predicate IsFourOfAKind(hand: seq<Card>) {
    SortedCountOfValues(hand) == [4, 1]
  }

  predicate IsFullHouse(hand: seq<Card>) {
    SortedCountOfValues(hand) == [3, 2]
  }

  predicate IsFlush(hand: seq<Card>) {
    NumSuits(hand) == 1
  }

  predicate IsThreeOfAKind(hand: seq<Card>) {
    SortedCountOfValues(hand) == [3, 1, 1]
  }

  predicate IsTwoPair(hand: seq<Card>) {
    SortedCountOfValues(hand) == [2, 2, 1]
  }

  predicate IsOnePair(hand: seq<Card>) {
    SortedCountOfValues(hand) == [2, 1, 1, 1]
  }

  /**
   * is_straight: the wheel, or a span of four between the highest and the
   * lowest rank with five different ranks. max() of no ranks raises ValueError.
   */
  function IsStraight(hand: seq<Card>): (r: Result<bool>)
    ensures r.Err? <==> hand == []
    ensures r.Err? ==> r.error == ValueError
  {
    StraightTest(SortedNumericalRanks(hand), SortedCountOfValues(hand))
  }

  /** The body of is_straight on the sorted ranks and the sorted counts of the hand. */
  function StraightTest(ranks: seq<int>, counts: seq<int>): (r: Result<bool>)
    ensures r.Err? <==> ranks == []
    ensures r.Err? ==> r.error == ValueError
  {
    if ranks == Wheel then Ok(true)
    else if ranks == [] then Err(ValueError)
    else Ok(Max(ranks) - Min(ranks) == 4 && counts == FiveOnes)
  }

  /** is_straightflush: a flush, and then a straight (a flush has cards, so is_straight cannot raise). */
  function IsStraightFlush(hand: seq<Card>): bool {
    NumSuitsFacts(hand);
    IsFlush(hand) && IsStraight(hand).value
  }

  /** is_nopair: five different ranks, then neither a straight nor a flush. */
  function IsNoPair(hand: seq<Card>): bool {
    SortedCountOfValuesFacts(hand);
    SortedCountOfValues(hand) == FiveOnes && !IsStraight(hand).value && !IsFlush(hand)
  }

  function IsPairOrBetter(hand: seq<Card>): bool {
    !IsNoPair(hand)
  }

  /**
   * is_twopair_or_better: the or-chain in its own order, so that a hand with
   * no cards reaches is_straight and raises ValueError.
   */
  function IsTwoPairOrBetter(hand: seq<Card>): (r: Result<bool>)
    ensures r.Err? <==> hand == []
    ensures r.Err? ==> r.error == ValueError
  {
    if IsTwoPair(hand) || IsThreeOfAKind(hand) || IsFlush(hand) then Ok(true)
    else
      var straight :- IsStraight(hand);
      Ok(straight || IsFullHouse(hand) || IsFourOfAKind(hand))
  }

  // ---------------------------------------------------------------------------
  // Properties

  /** Five different values in ascending order spanning four are five consecutive values. */
  lemma SpanOfFour(ranks: seq<int>)
    requires |ranks| == 5 && Ascending(ranks) && NoDuplicates(ranks) && ranks[4] - ranks[0] == 4
    ensures ranks == Run(ranks[0])
  {
    assert ranks[0] < ranks[1] < ranks[2] < ranks[3] < ranks[4];
  }

  /** The hand's ranks repeat nowhere exactly when its sorted ranks repeat nowhere. */
  lemma SortedRanksDistinct(hand: seq<Card>)
    ensures NoDuplicates(NumericalRanks(hand)) <==> NoDuplicates(SortedNumericalRanks(hand))
  {
    NoDuplicatesPermutation(NumericalRanks(hand), SortedNumericalRanks(hand));
  }

  /**
   * A straight is exactly a hand of five cards whose sorted ranks are the
   * wheel or five consecutive ranks.
   */
  lemma StraightCharacterised(hand: seq<Card>)
    ensures var ranks := SortedNumericalRanks(hand);
      IsStraight(hand) == Ok(true) <==> |hand| == 5 && (ranks == Wheel || ranks == Run(ranks[0]))
  {
    var ranks := SortedNumericalRanks(hand);
    if IsStraight(hand) == Ok(true) {
      StraightIsRun(hand);
    }
    if |hand| == 5 && (ranks == Wheel || ranks == Run(ranks[0])) {
      RunIsStraight(hand);
    }
  }

  lemma StraightIsRun(hand: seq<Card>)
    requires IsStraight(hand) == Ok(true)
    ensures var ranks := SortedNumericalRanks(hand); |hand| == 5 && (ranks == Wheel || ranks == Run(ranks[0]))
  {
    var ranks, nr := SortedNumericalRanks(hand), NumericalRanks(hand);
    if ranks != Wheel {
      assert SortedCounts(nr) == FiveOnes && Max(ranks) - Min(ranks) == 4;
      FiveOnesCounts(nr);
      NoDuplicatesPermutation(nr, ranks);
      AscendingMinMax(ranks);
      SpanOfFour(ranks);
    }
  }

  lemma RunIsStraight(hand: seq<Card>)
    requires var ranks := SortedNumericalRanks(hand); |hand| == 5 && (ranks == Wheel || ranks == Run(ranks[0]))
    ensures IsStraight(hand) == Ok(true)
  {
    var ranks := SortedNumericalRanks(hand);
    if ranks != Wheel {
      RunCounts(hand, ranks[0]);
      AscendingMinMax(ranks);
      StraightBySpan(ranks, SortedCountOfValues(hand));
    }
  }

  lemma RunCounts(hand: seq<Card>, lo: int)
    requires SortedNumericalRanks(hand) == Run(lo)
    ensures SortedCountOfValues(hand) == FiveOnes
  {
    RunDistinct(lo);
    NoDuplicatesPermutation(NumericalRanks(hand), Run(lo));
    FiveOnesCounts(NumericalRanks(hand));
  }

  lemma RunDistinct(lo: int)
    ensures NoDuplicates(Run(lo))
  {
  }

  lemma StraightBySpan(ranks: seq<int>, counts: seq<int>)
    requires counts == FiveOnes && ranks != [] && Max(ranks) - Min(ranks) == 4
    ensures StraightTest(ranks, counts) == Ok(true)
  {
  }

  /** The counts are five ones exactly for five values that are all different. */
  lemma FiveOnesCounts(s: seq<int>)
    ensures SortedCounts(s) == FiveOnes <==> |s| == 5 && NoDuplicates(s)
  {
    SortedCountsFacts(s);
    AllCountsOne(s);
    assert seq(5, _ => 1) == FiveOnes;
    if SortedCounts(s) == FiveOnes {
      assert Sum(FiveOnes) == 5;
    }
  }

  /** A straight flush is five cards of one suit whose ranks are the wheel or five consecutive ranks. */
  lemma StraightFlushCharacterised(hand: seq<Card>)
    ensures var ranks := SortedNumericalRanks(hand);
      IsStraightFlush(hand) <==>
        |hand| == 5 && (forall i :: 0 <= i < 5 ==> hand[i].suit == hand[0].suit) &&
        (ranks == Wheel || ranks == Run(ranks[0]))
  {
    NumSuitsFacts(hand);
    StraightCharacterised(hand);
  }

  /** No pair: five cards of five different ranks that are neither a straight nor a flush. */
  lemma NoPairCharacterised(hand: seq<Card>)
    ensures IsNoPair(hand) <==>
      |hand| == 5 && NoDuplicates(NumericalRanks(hand)) && IsStraight(hand) == Ok(false) && NumSuits(hand) != 1
  {
    FiveOnesCounts(NumericalRanks(hand));
  }

  // ---------------------------------------------------------------------------
  // The categories of five different cards

  /** Five cards, two of a suit: there are only four suits. */
  lemma SuitPigeonhole(a: Suit, b: Suit, c: Suit, d: Suit, e: Suit)
    ensures a == b || a == c || a == d || a == e || b == c || b == d || b == e || c == d || c == e || d == e
  {
  }

  /** Five different cards hold at least two ranks. */
  lemma TwoRanksAmongFive(hand: seq<Card>) returns (i: nat)
    requires |hand| == 5 && Distinct(hand)
    ensures i < 5 && hand[i].rank != hand[0].rank
  {
    SuitPigeonhole(hand[0].suit, hand[1].suit, hand[2].suit, hand[3].suit, hand[4].suit);
    i := if hand[1].rank != hand[0].rank then 1 else if hand[2].rank != hand[0].rank then 2
         else if hand[3].rank != hand[0].rank then 3 else 4;
  }

  /** No rank occurs five times among five different cards. */
  lemma NoFiveOfARank(hand: seq<Card>)
    requires |hand| == 5 && Distinct(hand)
    ensures |SortedCountOfValues(hand)| >= 2
  {
    var i := TwoRanksAmongFive(hand);
    var nr := NumericalRanks(hand);
    var d := Dedup(nr);
    DedupFacts(nr);
    SortedCountOfValuesFacts(hand);
    assert nr[0] in nr && nr[i] in nr && nr[0] != nr[i];
    var k :| 0 <= k < |d| && d[k] == nr[0];
    var m :| 0 <= m < |d| && d[m] == nr[i];
    assert k != m;
  }

  /** The ways five splits into non-increasing positive parts. */
  lemma PartitionsOfFive(c: seq<int>)
    requires Descending(c) && Sum(c) == 5 && (forall x :: x in c ==> 1 <= x <= 5)
    ensures c == [5] || c == [4, 1] || c == [3, 2] || c == [3, 1, 1] || c == [2, 2, 1] || c == [2, 1, 1, 1] || c == FiveOnes
  {
    SumOfPositives(c);
    var n := |c|;
    assert forall i :: 0 <= i < n ==> 1 <= c[i] <= 5 by {
      assert forall i :: 0 <= i < n ==> c[i] in c;
    }
    assert forall i :: 0 <= i < n - 1 ==> c[i] >= c[i + 1];
    SumOfFew(c);
    Parts(n, c);
  }

  lemma Parts(n: nat, c: seq<int>)
    requires n == |c| && 1 <= n <= 5
    requires forall i :: 0 <= i < n ==> 1 <= c[i] <= 5
    requires forall i :: 0 <= i < n - 1 ==> c[i] >= c[i + 1]
    requires n == 1 ==> c[0] == 5
    requires n == 2 ==> c[0] + c[1] == 5
    requires n == 3 ==> c[0] + c[1] + c[2] == 5
    requires n == 4 ==> c[0] + c[1] + c[2] + c[3] == 5
    requires n == 5 ==> c[0] + c[1] + c[2] + c[3] + c[4] == 5
    ensures c == [5] || c == [4, 1] || c == [3, 2] || c == [3, 1, 1] || c == [2, 2, 1] || c == [2, 1, 1, 1] || c == FiveOnes
  {
    if n == 1 {
      assert c == [c[0]];
    } else if n == 2 {
      assert c[0] >= c[1];
      assert c == [c[0], c[1]];
    } else if n == 3 {
      assert c[0] >= c[1] >= c[2];
      assert c == [c[0], c[1], c[2]];
    } else if n == 4 {
      assert c[0] >= c[1] >= c[2] >= c[3];
      assert c == [c[0], c[1], c[2], c[3]];
    } else if n == 5 {
      assert c == [c[0], c[1], c[2], c[3], c[4]];
    }
  }

  /**
   * Five different cards fall in exactly one of the rank-count categories:
   * four of a kind, full house, three of a kind, two pair, one pair, or five
   * different ranks.
   */
  lemma HandCategories(hand: seq<Card>)
    requires |hand| == 5 && Distinct(hand)
    ensures (if IsFourOfAKind(hand) then 1 else 0) + (if IsFullHouse(hand) then 1 else 0) +
            (if IsThreeOfAKind(hand) then 1 else 0) + (if IsTwoPair(hand) then 1 else 0) +
            (if IsOnePair(hand) then 1 else 0) + (if SortedCountOfValues(hand) == FiveOnes then 1 else 0) == 1
  {
    SortedCountOfValuesFacts(hand);
    NoFiveOfARank(hand);
    PartitionsOfFive(SortedCountOfValues(hand));
  }

  /** A straight has five different ranks. */
  lemma StraightDistinct(hand: seq<Card>)
    ensures IsStraight(hand) == Ok(true) ==> NoDuplicates(NumericalRanks(hand))
  {
    if IsStraight(hand) == Ok(true) {
      StraightRanksDistinct(hand);
      SortedRanksDistinct(hand);
    }
  }

  lemma StraightRanksDistinct(hand: seq<Card>)
    requires IsStraight(hand) == Ok(true)
    ensures NoDuplicates(SortedNumericalRanks(hand))
  {
    StraightIsRun(hand);
    var ranks := SortedNumericalRanks(hand);
    if ranks == Wheel {
      WheelDistinct();
    } else {
      RunDistinct(ranks[0]);
    }
  }

  lemma WheelDistinct()
    ensures NoDuplicates(Wheel)
  {
  }

  /** Two different cards of the same rank differ in suit, so a flush of different cards has different ranks. */
  lemma FlushDistinct(hand: seq<Card>)
    requires Distinct(hand)
    ensures IsFlush(hand) ==> NoDuplicates(NumericalRanks(hand))
  {
    var nr := NumericalRanks(hand);
    if !NoDuplicates(nr) {
      var i, j :| 0 <= i < j < |nr| && nr[i] == nr[j];
      assert hand[i] != hand[j];
      NumSuitsFacts(hand);
    }
  }

  /**
   * is_twopair_or_better is false for one pair and for no pair, and every
   * hand it accepts is pair or better.
   */
  lemma TwoPairOrBetterExcludes(hand: seq<Card>)
    requires Distinct(hand)
    ensures IsOnePair(hand) ==> IsTwoPairOrBetter(hand) == Ok(false)
    ensures IsNoPair(hand) ==> IsTwoPairOrBetter(hand) == Ok(false)
    ensures IsTwoPairOrBetter(hand) == Ok(true) ==> IsPairOrBetter(hand)
  {
    if IsOnePair(hand) {
      OnePairNotTwoPairOrBetter(hand);
    }
    if IsNoPair(hand) {
      NoPairNotTwoPairOrBetter(hand);
    }
  }

  lemma OnePairNotTwoPairOrBetter(hand: seq<Card>)
    requires Distinct(hand) && IsOnePair(hand)
    ensures IsTwoPairOrBetter(hand) == Ok(false)
  {
    OnePairRepeats(hand);
    FlushDistinct(hand);
    StraightDistinct(hand);
    NotStraight(hand);
    NoneOfTwoPairOrBetter(hand);
  }

  lemma OnePairRepeats(hand: seq<Card>)
    requires IsOnePair(hand)
    ensures |hand| == 5 && !NoDuplicates(NumericalRanks(hand))
  {
    SortedCountOfValuesFacts(hand);
    assert Sum([2, 1, 1, 1]) == 5;
    FiveOnesCounts(NumericalRanks(hand));
  }

  lemma NoneOfTwoPairOrBetter(hand: seq<Card>)
    requires !IsTwoPair(hand) && !IsThreeOfAKind(hand) && !IsFlush(hand) && IsStraight(hand) == Ok(false)
    requires !IsFullHouse(hand) && !IsFourOfAKind(hand)
    ensures IsTwoPairOrBetter(hand) == Ok(false)
  {
  }

  lemma NotStraight(hand: seq<Card>)
    requires hand != [] && IsStraight(hand) != Ok(true)
    ensures IsStraight(hand) == Ok(false)
  {
  }

  lemma NoPairNotTwoPairOrBetter(hand: seq<Card>)
    requires IsNoPair(hand)
    ensures IsTwoPairOrBetter(hand) == Ok(false)
  {
    SortedCountOfValuesFacts(hand);
    assert Sum(FiveOnes) == 5;
    NotStraight(hand);
    NoneOfTwoPairOrBetter(hand);
  }
}
