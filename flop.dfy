/**
 * The properties of a three-card flop in properties/flop.py: how many suits it
 * shows, whether its ranks pair, and whether they make a three-card straight
 * or a gutshot draw.
 */
module Flop {
  import opened Outcomes
  import opened Cards
  import opened Sorting
  import opened PokerTools

  /** The counts of three different ranks. */
  const ThreeOnes: seq<int> := [1, 1, 1]

  predicate IsRainbow(flop: seq<Card>) {
    NumSuits(flop) == 3
  }

  predicate IsMonotone(flop: seq<Card>) {
    NumSuits(flop) == 1
  }

  predicate Has2Flush(flop: seq<Card>) {
    NumSuits(flop) == 2
  }

  predicate HasPair(flop: seq<Card>) {
    SortedCountOfValues(flop) == [2, 1]
  }

  predicate HasThreeOfAKind(flop: seq<Card>) {
    SortedCountOfValues(flop) == [3]
  }

  /**
   * has_3straight: A-2-3, or three different ranks spanning two. max() of no
   * ranks raises ValueError.
   */
  function Has3Straight(flop: seq<Card>): (r: Result<bool>)
    ensures r.Err? <==> flop == []
    ensures r.Err? ==> r.error == ValueError
  {
    ThreeStraightTest(SortedNumericalRanks(flop), SortedCountOfValues(flop))
  }

  /** The body of has_3straight on the sorted ranks and the sorted counts. */
  function ThreeStraightTest(ranks: seq<int>, counts: seq<int>): (r: Result<bool>)
    ensures r.Err? <==> ranks == []
    ensures r.Err? ==> r.error == ValueError
  {
    if ranks == [2, 3, 14] then Ok(true)
    else if ranks == [] then Err(ValueError)
    else Ok(Max(ranks) - Min(ranks) == 2 && counts == ThreeOnes)
  }

  /**
   * has_gutshot: A-2-4 or A-3-4, or three different ranks spanning three.
   * max() of no ranks raises ValueError.
   */
  function HasGutshot(flop: seq<Card>): (r: Result<bool>)
    ensures r.Err? <==> flop == []
    ensures r.Err? ==> r.error == ValueError
  {
    GutshotTest(SortedNumericalRanks(flop), SortedCountOfValues(flop))
  }

  /** The body of has_gutshot on the sorted ranks and the sorted counts. */
  function GutshotTest(ranks: seq<int>, counts: seq<int>): (r: Result<bool>)
    ensures r.Err? <==> ranks == []
    ensures r.Err? ==> r.error == ValueError
  {
    if ranks == [2, 4, 14] || ranks == [3, 4, 14] then Ok(true)
    else if ranks == [] then Err(ValueError)
    else Ok(Max(ranks) - Min(ranks) == 3 && counts == ThreeOnes)
  }

  // ---------------------------------------------------------------------------
  // Suits

  /** The suits of three cards are the set of the three suits. */
  lemma SuitsOfThree(flop: seq<Card>)
    requires |flop| == 3
    ensures SuitsIn(flop) == {flop[0].suit, flop[1].suit, flop[2].suit}
  {
  }

  /**
   * A flop is monotone when its three cards share one suit, rainbow when
   * they have three different suits, and has a two-flush otherwise: exactly
   * one of the three holds.
   */
  lemma FlopSuits(flop: seq<Card>)
    requires |flop| == 3
    ensures var a, b, c := flop[0].suit, flop[1].suit, flop[2].suit;
      (IsMonotone(flop) <==> a == b == c) &&
      (IsRainbow(flop) <==> a != b && b != c && a != c) &&
      (Has2Flush(flop) <==> !(a == b == c) && !(a != b && b != c && a != c))
  {
    SuitsOfThree(flop);
    var a, b, c := flop[0].suit, flop[1].suit, flop[2].suit;
    if a == b == c {
      assert {a, b, c} == {a};
    } else if a == b {
      assert {a, b, c} == {a, c};
    } else if b == c {
      assert {a, b, c} == {a, b};
    } else if a == c {
      assert {a, b, c} == {a, b};
    }
  }

  // ---------------------------------------------------------------------------
  // Ranks

  /** The counts are three ones exactly for three values that are all different. */
  lemma ThreeOnesCounts(s: seq<int>)
    ensures SortedCounts(s) == ThreeOnes <==> |s| == 3 && NoDuplicates(s)
  {
    SortedCountsFacts(s);
    AllCountsOne(s);
    assert seq(3, _ => 1) == ThreeOnes;
    if SortedCounts(s) == ThreeOnes {
      assert Sum(ThreeOnes) == 3;
    }
  }

  /** The ways three splits into non-increasing positive parts. */
  lemma PartitionsOfThree(c: seq<int>)
    requires Descending(c) && Sum(c) == 3 && (forall x :: x in c ==> 1 <= x <= 3)
    ensures c == [3] || c == [2, 1] || c == ThreeOnes
  {
    SumOfPositives(c);
    SumOfFew(c);
    var n := |c|;
    assert forall i :: 0 <= i < n ==> 1 <= c[i] <= 3 by {
      assert forall i :: 0 <= i < n ==> c[i] in c;
    }
    if n == 1 {
      assert c == [c[0]];
    } else if n == 2 {
      assert c[0] >= c[1];
      assert c == [c[0], c[1]];
    } else {
      assert c == [c[0], c[1], c[2]];
    }
  }

  /** Three of a kind: three cards of one rank. */
  lemma ThreeOfAKindCharacterised(flop: seq<Card>)
    ensures HasThreeOfAKind(flop) <==> |flop| == 3 && flop[0].rank == flop[1].rank == flop[2].rank
  {
    var nr := NumericalRanks(flop);
    SortedCountOfValuesFacts(flop);
    if HasThreeOfAKind(flop) {
      assert Sum([3]) == 3;
    }
    if |flop| == 3 {
      OneValueCounts(nr);
    }
  }

  /** A pair: three cards with a repeated rank that are not all of one rank. */
  lemma PairCharacterised(flop: seq<Card>)
    ensures HasPair(flop) <==>
      |flop| == 3 && !NoDuplicates(NumericalRanks(flop)) && !(flop[0].rank == flop[1].rank == flop[2].rank)
  {
    var nr := NumericalRanks(flop);
    SortedCountOfValuesFacts(flop);
    ThreeOfAKindCharacterised(flop);
    ThreeOnesCounts(nr);
    if HasPair(flop) {
      assert Sum([2, 1]) == 3;
    }
    if |flop| == 3 {
      PartitionsOfThree(SortedCountOfValues(flop));
    }
  }

  /** Three cards show exactly one of: three of a kind, a pair, three different ranks. */
  lemma FlopRanks(flop: seq<Card>)
    requires |flop| == 3
    ensures (if HasThreeOfAKind(flop) then 1 else 0) + (if HasPair(flop) then 1 else 0) +
            (if SortedCountOfValues(flop) == ThreeOnes then 1 else 0) == 1
  {
    SortedCountOfValuesFacts(flop);
    PartitionsOfThree(SortedCountOfValues(flop));
  }

  // ---------------------------------------------------------------------------
  // Straight draws

  /** Three consecutive values starting at lo. */
  function Run3(lo: int): seq<int> {
    [lo, lo + 1, lo + 2]
  }

  /** A-2-3 or three consecutive values. */
  predicate ThreeStraightRanks(ranks: seq<int>) {
    ranks == [2, 3, 14] || (|ranks| == 3 && ranks == Run3(ranks[0]))
  }

  /** A three-card straight is A-2-3 or three consecutive ranks. */
  lemma ThreeStraightCharacterised(flop: seq<Card>)
    ensures var ranks := SortedNumericalRanks(flop);
      Has3Straight(flop) == Ok(true) <==> |flop| == 3 && ThreeStraightRanks(ranks)
  {
    var ranks := SortedNumericalRanks(flop);
    if Has3Straight(flop) == Ok(true) {
      ThreeStraightIsRun(flop);
    }
    if |flop| == 3 && ThreeStraightRanks(ranks) {
      RunIsThreeStraight(flop);
    }
  }

  /** Three different values in ascending order increase strictly. */
  lemma DistinctAscending3(ranks: seq<int>)
    requires |ranks| == 3 && Ascending(ranks) && NoDuplicates(ranks)
    ensures ranks[0] < ranks[1] < ranks[2]
  {
  }

  lemma ThreeStraightIsRun(flop: seq<Card>)
    requires Has3Straight(flop) == Ok(true)
    ensures var ranks := SortedNumericalRanks(flop); |flop| == 3 && ThreeStraightRanks(ranks)
  {
    var ranks, counts := SortedNumericalRanks(flop), SortedCountOfValues(flop);
    if ranks != [2, 3, 14] {
      ThreeStraightTestTrue(ranks, counts);
      ThreeOnesRanks(flop);
      AscendingMinMax(ranks);
      SpanOfTwo(ranks);
    }
  }

  /** Three increasing values spanning two are consecutive. */
  lemma SpanOfTwo(ranks: seq<int>)
    requires |ranks| == 3 && ranks[0] < ranks[1] < ranks[2] && ranks[2] - ranks[0] == 2
    ensures ranks == Run3(ranks[0])
  {
  }

  /** Three increasing values spanning three leave out one of the two middle values. */
  lemma SpanOfThree(ranks: seq<int>)
    requires |ranks| == 3 && ranks[0] < ranks[1] < ranks[2] && ranks[2] - ranks[0] == 3
    ensures ranks == [ranks[0], ranks[0] + 1, ranks[0] + 3] || ranks == [ranks[0], ranks[0] + 2, ranks[0] + 3]
  {
    if ranks[1] == ranks[0] + 1 {
      assert ranks == [ranks[0], ranks[0] + 1, ranks[0] + 3];
    } else {
      assert ranks == [ranks[0], ranks[0] + 2, ranks[0] + 3];
    }
  }

  lemma ThreeStraightTestTrue(ranks: seq<int>, counts: seq<int>)
    requires ThreeStraightTest(ranks, counts) == Ok(true) && ranks != [2, 3, 14]
    ensures counts == ThreeOnes && ranks != [] && Max(ranks) - Min(ranks) == 2
  {
  }

  /** Counts of three different ranks come from three cards whose sorted ranks strictly increase. */
  lemma ThreeOnesRanks(flop: seq<Card>)
    requires SortedCountOfValues(flop) == ThreeOnes
    ensures var ranks := SortedNumericalRanks(flop); |flop| == 3 && ranks[0] < ranks[1] < ranks[2]
  {
    var ranks, nr := SortedNumericalRanks(flop), NumericalRanks(flop);
    ThreeOnesCounts(nr);
    NoDuplicatesPermutation(nr, ranks);
    DistinctAscending3(ranks);
  }

  lemma RunIsThreeStraight(flop: seq<Card>)
    requires var ranks := SortedNumericalRanks(flop); |flop| == 3 && ThreeStraightRanks(ranks)
    ensures Has3Straight(flop) == Ok(true)
  {
    var ranks := SortedNumericalRanks(flop);
    if ranks != [2, 3, 14] {
      DistinctCounts3(flop, ranks);
      AscendingMinMax(ranks);
      ThreeStraightBySpan(ranks, SortedCountOfValues(flop));
    }
  }

  /** Sorted ranks that are three different values give the counts of three different ranks. */
  lemma DistinctCounts3(flop: seq<Card>, ranks: seq<int>)
    requires ranks == SortedNumericalRanks(flop) && |ranks| == 3 && ranks[0] < ranks[1] < ranks[2]
    ensures SortedCountOfValues(flop) == ThreeOnes
  {
    NoDuplicatesPermutation(NumericalRanks(flop), ranks);
    ThreeOnesCounts(NumericalRanks(flop));
  }

  lemma ThreeStraightBySpan(ranks: seq<int>, counts: seq<int>)
    requires counts == ThreeOnes && ranks != [] && Max(ranks) - Min(ranks) == 2
    ensures ThreeStraightTest(ranks, counts) == Ok(true)
  {
  }

  /** A-2-4, A-3-4, or the lowest and the highest of four consecutive values with one of the middle two. */
  predicate GutshotRanks(ranks: seq<int>) {
    ranks == [2, 4, 14] || ranks == [3, 4, 14] ||
    (|ranks| == 3 && (ranks == [ranks[0], ranks[0] + 1, ranks[0] + 3] || ranks == [ranks[0], ranks[0] + 2, ranks[0] + 3]))
  }

  /**
   * A gutshot is A-2-4, A-3-4, or three different ranks spanning three: the
   * lowest and the highest of four consecutive ranks with one of the middle two.
   */
  lemma GutshotCharacterised(flop: seq<Card>)
    ensures var ranks := SortedNumericalRanks(flop);
      HasGutshot(flop) == Ok(true) <==> |flop| == 3 && GutshotRanks(ranks)
  {
    var ranks := SortedNumericalRanks(flop);
    if HasGutshot(flop) == Ok(true) {
      GutshotIsSpan(flop);
    }
    if |flop| == 3 && GutshotRanks(ranks) {
      SpanIsGutshot(flop);
    }
  }

  lemma GutshotIsSpan(flop: seq<Card>)
    requires HasGutshot(flop) == Ok(true)
    ensures var ranks := SortedNumericalRanks(flop); |flop| == 3 && GutshotRanks(ranks)
  {
    var ranks, counts := SortedNumericalRanks(flop), SortedCountOfValues(flop);
    if ranks != [2, 4, 14] && ranks != [3, 4, 14] {
      GutshotTestTrue(ranks, counts);
      ThreeOnesRanks(flop);
      GutshotSpanShape(ranks);
    }
  }

  lemma GutshotSpanShape(ranks: seq<int>)
    requires Ascending(ranks) && |ranks| == 3 && ranks[0] < ranks[1] < ranks[2] && Max(ranks) - Min(ranks) == 3
    ensures GutshotRanks(ranks)
  {
    AscendingMinMax(ranks);
    SpanOfThree(ranks);
  }

  lemma GutshotTestTrue(ranks: seq<int>, counts: seq<int>)
    requires GutshotTest(ranks, counts) == Ok(true) && ranks != [2, 4, 14] && ranks != [3, 4, 14]
    ensures counts == ThreeOnes && ranks != [] && Max(ranks) - Min(ranks) == 3
  {
  }

  lemma SpanIsGutshot(flop: seq<Card>)
    requires var ranks := SortedNumericalRanks(flop); |flop| == 3 && GutshotRanks(ranks)
    ensures HasGutshot(flop) == Ok(true)
  {
    var ranks := SortedNumericalRanks(flop);
    if ranks != [2, 4, 14] && ranks != [3, 4, 14] {
      DistinctCounts3(flop, ranks);
      AscendingMinMax(ranks);
      GutshotBySpan(ranks, SortedCountOfValues(flop));
    }
  }

  lemma GutshotBySpan(ranks: seq<int>, counts: seq<int>)
    requires counts == ThreeOnes && ranks != [] && Max(ranks) - Min(ranks) == 3 && ranks != [2, 4, 14] && ranks != [3, 4, 14]
    ensures GutshotTest(ranks, counts) == Ok(true)
  {
  }

  /** No sequence of ranks has the shape of both draws. */
  lemma DrawShapesDisjoint(ranks: seq<int>)
    ensures !(ThreeStraightRanks(ranks) && GutshotRanks(ranks))
  {
  }

  /** Either draw shape is three strictly increasing values. */
  lemma DrawShapesIncrease(ranks: seq<int>)
    requires ThreeStraightRanks(ranks) || GutshotRanks(ranks)
    ensures |ranks| == 3 && ranks[0] < ranks[1] < ranks[2]
  {
  }

  /** No flop is both a three-card straight and a gutshot. */
  lemma StraightDrawsExclusive(flop: seq<Card>)
    ensures !(Has3Straight(flop) == Ok(true) && HasGutshot(flop) == Ok(true))
  {
    ThreeStraightCharacterised(flop);
    GutshotCharacterised(flop);
    DrawShapesDisjoint(SortedNumericalRanks(flop));
  }

  /** A three-card straight or a gutshot has three different ranks, so it is neither paired nor trips. */
  lemma StraightDrawsUnpaired(flop: seq<Card>)
    requires Has3Straight(flop) == Ok(true) || HasGutshot(flop) == Ok(true)
    ensures SortedCountOfValues(flop) == ThreeOnes
    ensures !HasPair(flop) && !HasThreeOfAKind(flop)
  {
    var ranks := SortedNumericalRanks(flop);
    ThreeStraightCharacterised(flop);
    GutshotCharacterised(flop);
    DrawShapesIncrease(ranks);
    DistinctCounts3(flop, ranks);
  }
}
