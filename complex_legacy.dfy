/**
 * The older copy of the holecard-and-flop properties, properties/complex.py:
 * is_onepair counts a required number of holecards instead of excluding the
 * board, and has_two_overcards is built on it. is_3straight and is_3flush
 * there are the same code as in the package and are Complex.Is3Straight and
 * Complex.Is3Flush.
 */
module ComplexLegacy {
  import opened Outcomes
  import opened Cards
  import opened Sorting
  import opened PokerTools
  import Hand
  import Holecards
  import Complex

  // ---------------------------------------------------------------------------
  // is_onepair

  /**
   * is_onepair as written. With one required holecard the condition reads
   * `is_onepair(hand) and counts[rank1] == 2 or counts[rank2] == 2`, which
   * Python groups as `(is_onepair(hand) and counts[rank1] == 2) or counts[rank2] == 2`.
   */
  function IsOnePair(holecards: seq<Card>, flop: seq<Card>, required: int): (r: Result<bool>)
    ensures Complex.FiveCardsOf(holecards, flop).Err? ==> r == Err(Complex.FiveCardsOf(holecards, flop).error)
    ensures Complex.FiveCardsOf(holecards, flop).Ok? ==>
      (r == Err(AssertionError) <==> !(0 <= required <= 2)) &&
      (r == Err(ValueError) <==> required == 1 && |holecards| != 2) &&
      (r.Err? <==> r == Err(AssertionError) || r == Err(ValueError))
  {
    var hand :- Complex.FiveCardsOf(holecards, flop);
    if !(0 <= required <= 2) then Err(AssertionError)
    else if required == 2 then Ok(Holecards.IsPair(holecards))
    else if required == 1 then
      if |holecards| != 2 then Err(ValueError)
      else
        var hr := SortedNumericalRanks(holecards);
        var counts := multiset(NumericalRanks(hand));
        Ok((Hand.IsOnePair(hand) && counts[hr[0]] == 2) || counts[hr[1]] == 2)
    else Ok(Hand.IsOnePair(hand))
  }

  /** is_onepair as its docstring intends: with one required holecard, one pair that uses a holecard rank. */
  function IsOnePairIntended(holecards: seq<Card>, flop: seq<Card>, required: int): (r: Result<bool>)
    ensures Complex.FiveCardsOf(holecards, flop).Err? ==> r == Err(Complex.FiveCardsOf(holecards, flop).error)
    ensures Complex.FiveCardsOf(holecards, flop).Ok? ==>
      (r == Err(AssertionError) <==> !(0 <= required <= 2)) &&
      (r == Err(ValueError) <==> required == 1 && |holecards| != 2) &&
      (r.Err? <==> r == Err(AssertionError) || r == Err(ValueError))
  {
    var hand :- Complex.FiveCardsOf(holecards, flop);
    if !(0 <= required <= 2) then Err(AssertionError)
    else if required == 2 then Ok(Holecards.IsPair(holecards))
    else if required == 1 then
      if |holecards| != 2 then Err(ValueError)
      else
        var hr := SortedNumericalRanks(holecards);
        var counts := multiset(NumericalRanks(hand));
        Ok(Hand.IsOnePair(hand) && (counts[hr[0]] == 2 || counts[hr[1]] == 2))
    else Ok(Hand.IsOnePair(hand))
  }

  /** With both holecards required, is_onepair is a pocket pair, whatever the flop. */
  lemma OnePairBothRequired(holecards: seq<Card>, flop: seq<Card>)
    requires Complex.FiveCardsOf(holecards, flop).Ok?
    ensures IsOnePair(holecards, flop, 2) == Ok(true) <==>
      |holecards| == 2 && holecards[0].rank == holecards[1].rank
  {
    Holecards.PairCharacterised(holecards);
  }

  /**
   * The intended one-holecard test is the package's exclude_board test: in a
   * one-pair hand a holecard rank is paired exactly when the flop has three
   * different ranks.
   */
  lemma IntendedIsExcludeBoard(holecards: seq<Card>, flop: seq<Card>)
    requires |flop| == 3
    ensures IsOnePairIntended(holecards, flop, 1) == Ok(true) <==>
      |holecards| == 2 && Complex.IsOnePair(holecards, flop, true) == Ok(true)
  {
    Complex.OnePairExcludingBoard(holecards, flop);
    if Complex.FiveCardsOf(holecards, flop).Ok? && |holecards| == 2 {
      IntendedOneRequired(holecards, flop);
      if Hand.IsOnePair(holecards + flop) {
        Complex.NumericalRanksAppend(holecards, flop);
        PairUsesHolecard(NumericalRanks(holecards), NumericalRanks(flop));
      }
    }
  }

  /** The intended test with one required holecard, in terms of the two holecards themselves. */
  lemma IntendedOneRequired(holecards: seq<Card>, flop: seq<Card>)
    requires Complex.FiveCardsOf(holecards, flop).Ok? && |holecards| == 2
    ensures var counts := multiset(NumericalRanks(holecards + flop));
      IsOnePairIntended(holecards, flop, 1) ==
      Ok(Hand.IsOnePair(holecards + flop) && (counts[holecards[0].rank] == 2 || counts[holecards[1].rank] == 2))
  {
    Holecards.TwoSortedRanks(holecards);
  }

  /**
   * The precedence slip: Kc Kd on 2c 2d 5h is two pair, yet is_onepair with
   * one required holecard accepts it because the kings occur twice.
   */
  lemma PrecedenceAcceptsTwoPair(holecards: seq<Card>, flop: seq<Card>)
    requires holecards == [Card(13, C), Card(13, D)] && flop == [Card(2, C), Card(2, D), Card(5, H)]
    ensures IsOnePair(holecards, flop, 1) == Ok(true)
    ensures IsOnePairIntended(holecards, flop, 1) == Ok(false)
    ensures !Hand.IsOnePair(holecards + flop)
  {
    PrecedenceExampleCards(holecards, flop);
    PrecedenceNotOnePair(holecards, flop);
    var nr := PrecedenceExampleRanks(holecards, flop);
    assert SortedNumericalRanks(holecards) == [13, 13] by {
      Holecards.TwoSortedRanks(holecards);
    }
    assert multiset(nr)[13] == 2;
    AsWrittenOneRequired(holecards, flop);
    IntendedOneRequired(holecards, flop);
  }

  /** The test as written with one required holecard, with the ranks sorted. */
  lemma AsWrittenOneRequired(holecards: seq<Card>, flop: seq<Card>)
    requires Complex.FiveCardsOf(holecards, flop).Ok? && |holecards| == 2
    ensures |SortedNumericalRanks(holecards)| == 2
    ensures var counts, hr := multiset(NumericalRanks(holecards + flop)), SortedNumericalRanks(holecards);
      IsOnePair(holecards, flop, 1) == Ok((Hand.IsOnePair(holecards + flop) && counts[hr[0]] == 2) || counts[hr[1]] == 2)
  {
    Holecards.TwoSortedRanks(holecards);
  }

  lemma PrecedenceNotOnePair(holecards: seq<Card>, flop: seq<Card>)
    requires holecards == [Card(13, C), Card(13, D)] && flop == [Card(2, C), Card(2, D), Card(5, H)]
    ensures !Hand.IsOnePair(holecards + flop)
  {
    var nr := PrecedenceExampleRanks(holecards, flop);
    assert multiset(nr)[13] == 2 && multiset(nr)[2] == 2;
    TwoDoublesNotOnePair(nr, 13, 2);
  }

  lemma PrecedenceExampleCards(holecards: seq<Card>, flop: seq<Card>)
    requires holecards == [Card(13, C), Card(13, D)] && flop == [Card(2, C), Card(2, D), Card(5, H)]
    ensures Complex.FiveCardsOf(holecards, flop) == Ok(holecards + flop)
  {
    var hand := holecards + flop;
    assert hand == [Card(13, C), Card(13, D), Card(2, C), Card(2, D), Card(5, H)];
  }

  lemma PrecedenceExampleRanks(holecards: seq<Card>, flop: seq<Card>) returns (nr: seq<int>)
    requires holecards == [Card(13, C), Card(13, D)] && flop == [Card(2, C), Card(2, D), Card(5, H)]
    ensures nr == NumericalRanks(holecards + flop) && nr == [13, 13, 2, 2, 5]
  {
    var hand := holecards + flop;
    assert hand == [Card(13, C), Card(13, D), Card(2, C), Card(2, D), Card(5, H)];
    nr := NumericalRanks(hand);
  }

  /** Two different values occurring twice each make no one-pair count. */
  lemma TwoDoublesNotOnePair(s: seq<int>, x: int, y: int)
    requires x != y && multiset(s)[x] == 2 && multiset(s)[y] == 2
    ensures SortedCounts(s) != [2, 1, 1, 1]
  {
    if SortedCounts(s) == [2, 1, 1, 1] {
      OnePairSingleDouble(s, x, y);
    }
  }

  // ---------------------------------------------------------------------------
  // Counting lemmas

  /** In a one-pair count only one value occurs twice. */
  lemma OnePairSingleDouble(s: seq<int>, x: int, y: int)
    requires SortedCounts(s) == [2, 1, 1, 1]
    requires x in s && y in s && multiset(s)[x] == 2 && multiset(s)[y] == 2
    ensures x == y
  {
    if x != y {
      TwoValuesCounted(s, x, y);
    }
  }

  /**
   * Two holecard ranks `a` and flop ranks `b` that make one pair: a holecard
   * rank is the paired one exactly when the flop ranks are all different.
   */
  lemma PairUsesHolecard(a: seq<int>, b: seq<int>)
    requires |a| == 2 && |b| == 3 && SortedCounts(a + b) == [2, 1, 1, 1]
    ensures multiset(a + b)[a[0]] == 2 || multiset(a + b)[a[1]] == 2 <==> NoDuplicates(b)
  {
    var s := a + b;
    assert multiset(s) == multiset(a) + multiset(b);
    assert a == [a[0], a[1]];
    if NoDuplicates(b) {
      var p := CountWitness(s, 2);
      NoDuplicatesCounts(b);
      assert multiset(a)[p] >= 1;
      assert p in a;
    }
    if multiset(s)[a[0]] == 2 || multiset(s)[a[1]] == 2 {
      var r := if multiset(s)[a[0]] == 2 then a[0] else a[1];
      assert r in a && r in s;
      if !NoDuplicates(b) {
        var j, k :| 0 <= j < k < |b| && b[j] == b[k];
        TwoPositions(b, j, k);
        var q := b[j];
        assert q in s;
        CountIsListed(s, q);
        OnePairSingleDouble(s, q, r);
      }
    }
  }

  /**
   * A rank that occurs twice among five different cards that are not one pair
   * makes two pair or a full house, so is_twopair_or_better holds.
   */
  lemma PairedButNotOnePair(hand: seq<Card>, x: int)
    requires |hand| == 5 && Distinct(hand)
    requires x in NumericalRanks(hand) && multiset(NumericalRanks(hand))[x] == 2
    requires !Hand.IsOnePair(hand)
    ensures Hand.IsTwoPairOrBetter(hand) == Ok(true)
  {
    SortedCountOfValuesFacts(hand);
    Hand.NoFiveOfARank(hand);
    Hand.PartitionsOfFive(SortedCountOfValues(hand));
    CountIsListed(NumericalRanks(hand), x);
  }

  /** The number of times a holecard rank above the whole flop occurs in the hand. */
  lemma OvercardCount(holecards: seq<Card>, flop: seq<Card>, i: nat)
    requires |holecards| == 2 && i < 2
    requires forall j :: 0 <= j < |flop| ==> flop[j].rank < holecards[i].rank
    ensures multiset(NumericalRanks(holecards + flop))[holecards[i].rank] ==
      if holecards[0].rank == holecards[1].rank then 2 else 1
  {
    var r := holecards[i].rank;
    var a, b := NumericalRanks(holecards), NumericalRanks(flop);
    Complex.NumericalRanksAppend(holecards, flop);
    assert a == [holecards[0].rank, holecards[1].rank];
    assert r !in b;
    assert multiset(a + b) == multiset(a) + multiset(b);
  }

  // ---------------------------------------------------------------------------
  // has_two_overcards

  /**
   * has_two_overcards as written: both holecards above the flop, and then
   * (short-circuiting in that order) not is_onepair with one required
   * holecard and not is_twopair_or_better.
   */
  function HasTwoOvercards(holecards: seq<Card>, flop: seq<Card>): (r: Result<bool>)
    ensures Complex.FiveCardsOf(holecards, flop).Err? ==> r == Err(Complex.FiveCardsOf(holecards, flop).error)
    ensures Complex.FiveCardsOf(holecards, flop).Ok? ==>
      (r.Err? <==> Complex.HasTwoOvercards(holecards, flop) == Ok(true) && |holecards| != 2) &&
      (r.Err? ==> r.error == ValueError)
  {
    var over :- Complex.HasTwoOvercards(holecards, flop);
    if !over then Ok(false)
    else
      var onePair :- IsOnePair(holecards, flop, 1);
      if onePair then Ok(false)
      else Ok(!Hand.IsTwoPairOrBetter(holecards + flop).value)
  }

  /**
   * Two overcards here: both holecards above the flop, not a pocket pair, and
   * not two pair or better.
   */
  lemma OvercardsLegacyCharacterised(holecards: seq<Card>, flop: seq<Card>)
    requires Complex.FiveCardsOf(holecards, flop).Ok? && |holecards| == 2
    ensures HasTwoOvercards(holecards, flop) == Ok(true) <==>
      Complex.HasTwoOvercards(holecards, flop) == Ok(true) &&
      holecards[0].rank != holecards[1].rank &&
      Hand.IsTwoPairOrBetter(holecards + flop) == Ok(false)
  {
    if Complex.HasTwoOvercards(holecards, flop) == Ok(true) {
      OvercardsAsWritten(holecards, flop);
    }
  }

  /**
   * The precedence slip in is_onepair cannot change has_two_overcards: with
   * the intended is_onepair the result is the same.
   */
  lemma OvercardsUnaffectedByPrecedence(holecards: seq<Card>, flop: seq<Card>)
    requires Complex.FiveCardsOf(holecards, flop).Ok? && |holecards| == 2
    ensures HasTwoOvercards(holecards, flop) ==
      Ok(Complex.HasTwoOvercards(holecards, flop).value &&
         !IsOnePairIntended(holecards, flop, 1).value &&
         !Hand.IsTwoPairOrBetter(holecards + flop).value)
  {
    OvercardsValue(holecards, flop);
    var hand := holecards + flop;
    if Complex.HasTwoOvercards(holecards, flop) == Ok(true) {
      OvercardsAsWritten(holecards, flop);
      var x := holecards[0].rank;
      if x == holecards[1].rank && !Hand.IsOnePair(hand) {
        assert NumericalRanks(hand)[0] == x;
        PairedButNotOnePair(hand, x);
      }
    }
  }

  /** has_two_overcards for two holecards, as the conjunction of its three tests. */
  lemma OvercardsValue(holecards: seq<Card>, flop: seq<Card>)
    requires Complex.FiveCardsOf(holecards, flop).Ok? && |holecards| == 2
    ensures HasTwoOvercards(holecards, flop) ==
      Ok(Complex.HasTwoOvercards(holecards, flop).value &&
         !IsOnePair(holecards, flop, 1).value &&
         !Hand.IsTwoPairOrBetter(holecards + flop).value)
  {
  }

  /** Above the flop the counts of the holecard ranks say only whether they are a pocket pair. */
  lemma OvercardsAsWritten(holecards: seq<Card>, flop: seq<Card>)
    requires Complex.FiveCardsOf(holecards, flop).Ok? && |holecards| == 2
    requires Complex.HasTwoOvercards(holecards, flop) == Ok(true)
    ensures IsOnePair(holecards, flop, 1) == Ok(holecards[0].rank == holecards[1].rank)
    ensures IsOnePairIntended(holecards, flop, 1) ==
      Ok(Hand.IsOnePair(holecards + flop) && holecards[0].rank == holecards[1].rank)
    ensures multiset(NumericalRanks(holecards + flop))[holecards[0].rank] ==
      if holecards[0].rank == holecards[1].rank then 2 else 1
  {
    Complex.OvercardsCharacterised(holecards, flop);
    OvercardCount(holecards, flop, 0);
    OvercardCount(holecards, flop, 1);
    Holecards.TwoSortedRanks(holecards);
  }
}
