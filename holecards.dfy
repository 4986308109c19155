/**
 * The properties of two holecards in properties/holecards.py: a pocket pair,
 * suitedness, and the gap between the two ranks, where an ace plays high or low.
 */
module Holecards {
  import opened Outcomes
  import opened Cards
  import opened Sorting
  import opened PokerTools

  predicate IsPair(holecards: seq<Card>) {
    SortedCountOfValues(holecards) == [2]
  }

  predicate IsSuited(holecards: seq<Card>) {
    NumSuits(holecards) == 1
  }

  function MinInt(x: int, y: int): int {
    if x <= y then x else y
  }

  /**
   * _gap_size: unpacks the sorted ranks into exactly two (ValueError
   * otherwise); with an ace on top the gap is the smaller of the distance to
   * the ace played high and to the ace played low.
   */
  function GapSize(holecards: seq<Card>): (r: Result<int>)
    ensures r.Ok? <==> |holecards| == 2
    ensures r.Err? ==> r.error == ValueError
    ensures r.Ok? ==> 0 <= r.value <= 11
  {
    if |holecards| != 2 then Err(ValueError)
    else
      var ranks := SortedNumericalRanks(holecards);
      var a, b := ranks[0], ranks[1];
      assert a <= b && a in multiset(ranks) && b in multiset(ranks);
      if b == 14 then Ok(MinInt(b - a, a - 1)) else Ok(b - a)
  }

  function IsConnected(holecards: seq<Card>): Result<bool> {
    var gap :- GapSize(holecards);
    Ok(gap == 1)
  }

  function HasOneGap(holecards: seq<Card>): Result<bool> {
    var gap :- GapSize(holecards);
    Ok(gap == 2)
  }

  function HasTwoGap(holecards: seq<Card>): Result<bool> {
    var gap :- GapSize(holecards);
    Ok(gap == 3)
  }

  // ---------------------------------------------------------------------------
  // Properties

  function Abs(x: int): nat {
    if x < 0 then -x else x
  }

  /** The value of a rank when an ace plays low. */
  function AceLow(r: Rank): int {
    if r == 14 then 1 else r
  }

  /** The distance between two ranks, with an ace counted high or low, whichever is closer. */
  function Distance(x: Rank, y: Rank): nat {
    MinInt(Abs(x - y), Abs(AceLow(x) - AceLow(y)))
  }

  /** The sorted ranks of two cards are the smaller rank, then the larger. */
  lemma TwoSortedRanks(holecards: seq<Card>)
    requires |holecards| == 2
    ensures var x, y := holecards[0].rank, holecards[1].rank;
      SortedNumericalRanks(holecards) == [MinInt(x, y), if x <= y then y else x]
  {
    var x, y := holecards[0].rank, holecards[1].rank;
    var r := SortedNumericalRanks(holecards);
    assert NumericalRanks(holecards) == [x, y];
    AscendingPair(r, x, y);
  }

  /** _gap_size is the distance between the two ranks with the ace playing either way. */
  lemma GapSizeIsDistance(holecards: seq<Card>)
    ensures GapSize(holecards) ==
      if |holecards| == 2 then Ok(Distance(holecards[0].rank, holecards[1].rank)) else Err(ValueError)
  {
    if |holecards| == 2 {
      TwoSortedRanks(holecards);
    }
  }

  /** The gap does not depend on the order of the two cards. */
  lemma GapSizeOrderFree(a: Card, b: Card)
    ensures GapSize([a, b]) == GapSize([b, a])
  {
    GapSizeIsDistance([a, b]);
    GapSizeIsDistance([b, a]);
  }

  /** A pocket pair is two cards of one rank, which is a gap of zero. */
  lemma PairCharacterised(holecards: seq<Card>)
    ensures IsPair(holecards) <==> |holecards| == 2 && holecards[0].rank == holecards[1].rank
    ensures IsPair(holecards) <==> GapSize(holecards) == Ok(0)
  {
    PairIsTwoCards(holecards);
    if |holecards| == 2 {
      PairOfTwoCards(holecards);
      GapSizeIsDistance(holecards);
    }
  }

  /** Only two cards can have the counts [2]. */
  lemma PairIsTwoCards(holecards: seq<Card>)
    ensures IsPair(holecards) ==> |holecards| == 2
  {
    if IsPair(holecards) {
      SortedCountOfValuesFacts(holecards);
      assert Sum([2]) == 2;
    }
  }

  /** Two cards have the counts [2] exactly when their ranks agree. */
  lemma PairOfTwoCards(holecards: seq<Card>)
    requires |holecards| == 2
    ensures IsPair(holecards) <==> holecards[0].rank == holecards[1].rank
  {
    TwoValueCounts(NumericalRanks(holecards));
  }

  /** Suited holecards are two cards of one suit. */
  lemma SuitedCharacterised(holecards: seq<Card>)
    requires |holecards| == 2
    ensures IsSuited(holecards) <==> holecards[0].suit == holecards[1].suit
  {
    NumSuitsFacts(holecards);
  }

  /** Two ranks g apart, or an ace with the rank g + 1, where the ace plays low. */
  predicate GapOf(x: Rank, y: Rank, g: int) {
    Abs(x - y) == g || (x == 14 && y == g + 1) || (y == 14 && x == g + 1)
  }

  /** For g between 1 and 6, a gap of g is exactly GapOf the two ranks. */
  lemma GapCharacterised(holecards: seq<Card>, g: int)
    requires 1 <= g <= 6
    ensures GapSize(holecards) == Ok(g) <==>
      |holecards| == 2 && GapOf(holecards[0].rank, holecards[1].rank, g)
  {
    GapSizeIsDistance(holecards);
  }

  /** is_connected, has_one_gap and has_two_gap as statements about the two ranks. */
  lemma GapPredicatesCharacterised(holecards: seq<Card>)
    ensures IsConnected(holecards) == Ok(true) <==> |holecards| == 2 && GapOf(holecards[0].rank, holecards[1].rank, 1)
    ensures HasOneGap(holecards) == Ok(true) <==> |holecards| == 2 && GapOf(holecards[0].rank, holecards[1].rank, 2)
    ensures HasTwoGap(holecards) == Ok(true) <==> |holecards| == 2 && GapOf(holecards[0].rank, holecards[1].rank, 3)
    ensures IsConnected(holecards).Err? <==> |holecards| != 2
  {
    GapCharacterised(holecards, 1);
    GapCharacterised(holecards, 2);
    GapCharacterised(holecards, 3);
  }
}
