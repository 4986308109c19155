/**
 * The holecard-and-flop properties of properties/complex.py (the package
 * version): one pair with or without a pair on the board only, three to a
 * straight and three to a flush using a required number of holecards, and
 * two overcards. Each is guarded by five_cards.
 */
module Complex {
  import opened Outcomes
  import opened Cards
  import opened Sorting
  import opened PokerTools
  import Hand
  import Flop

  /** five_cards applied to (holecards, flop). */
  function FiveCardsOf(holecards: seq<Card>, flop: seq<Card>): (r: Result<seq<Card>>)
    ensures r.Ok? <==> |holecards + flop| == 5 && Distinct(holecards + flop)
    ensures r.Ok? ==> r.value == holecards + flop
    ensures r == Err(ValueError) <==> |holecards + flop| != 5
    ensures r == Err(ConflictingCards) <==> |holecards + flop| == 5 && !Distinct(holecards + flop)
  {
    FlattenTwo(holecards, flop);
    FiveCards([holecards, flop])
  }

  lemma NumericalRanksAppend(a: seq<Card>, b: seq<Card>)
    ensures NumericalRanks(a + b) == NumericalRanks(a) + NumericalRanks(b)
  {
  }

  // ---------------------------------------------------------------------------
  // is_onepair

  /** is_onepair: the five cards are one pair, and with exclude_board the flop itself is not paired. */
  function IsOnePair(holecards: seq<Card>, flop: seq<Card>, excludeBoard: bool): (r: Result<bool>)
    ensures r.Err? <==> FiveCardsOf(holecards, flop).Err?
    ensures r.Err? ==> r.error == FiveCardsOf(holecards, flop).error
  {
    var hand :- FiveCardsOf(holecards, flop);
    if excludeBoard then Ok(Hand.IsOnePair(hand) && !Flop.HasPair(flop))
    else Ok(Hand.IsOnePair(hand))
  }

  /**
   * On a three-card flop, exclude_board keeps exactly the one-pair hands
   * whose flop has three different ranks: the pair uses a holecard.
   */
  lemma OnePairExcludingBoard(holecards: seq<Card>, flop: seq<Card>)
    requires |flop| == 3
    ensures IsOnePair(holecards, flop, true) == Ok(true) <==>
      IsOnePair(holecards, flop, false) == Ok(true) && NoDuplicates(NumericalRanks(flop))
  {
    var hand := holecards + flop;
    Flop.PairCharacterised(flop);
    if IsOnePair(holecards, flop, false) == Ok(true) && flop[0].rank == flop[1].rank == flop[2].rank {
      OnePairHasNoTrips(holecards, flop);
    }
  }

  /** A one-pair hand holds no rank three times, so its flop is not three of one rank. */
  lemma OnePairHasNoTrips(holecards: seq<Card>, flop: seq<Card>)
    requires |flop| == 3 && Hand.IsOnePair(holecards + flop)
    ensures !(flop[0].rank == flop[1].rank == flop[2].rank)
  {
    if flop[0].rank == flop[1].rank == flop[2].rank {
      FlopTripleCounted(holecards, flop);
      OnePairCountsBelowThree(holecards + flop, flop[0].rank);
    }
  }

  /** A flop of one rank puts that rank three times into the hand. */
  lemma FlopTripleCounted(holecards: seq<Card>, flop: seq<Card>)
    requires |flop| == 3 && flop[0].rank == flop[1].rank == flop[2].rank
    ensures multiset(NumericalRanks(holecards + flop))[flop[0].rank] >= 3
  {
    var x := flop[0].rank;
    NumericalRanksAppend(holecards, flop);
    assert NumericalRanks(flop) == [x, x, x];
  }

  /** A one-pair hand holds no rank three times. */
  lemma OnePairCountsBelowThree(hand: seq<Card>, x: int)
    requires Hand.IsOnePair(hand)
    ensures multiset(NumericalRanks(hand))[x] < 3
  {
    var s := NumericalRanks(hand);
    if x in s {
      CountIsListed(s, x);
    }
  }

  // ---------------------------------------------------------------------------
  // is_3straight

  /** x == y - 1 == z - 2 for a window [x, y, z]. */
  predicate Consecutive(w: seq<int>) {
    |w| == 3 && w[0] == w[1] - 1 && w[1] - 1 == w[2] - 2
  }

  /** subseq.append(14) for a window that starts at the ace played low. */
  function AceLowExtended(w: seq<int>): (e: seq<int>)
    requires |w| > 0
    ensures forall x :: x in w ==> x in e
  {
    if w[0] == 1 then w + [14] else w
  }

  /** The holecard requirement on the ranks of a window: both, at least one, or none of the two ranks. */
  predicate Meets(required: int, rank1: int, rank2: int, w: seq<int>) {
    if required == 2 then rank1 in w && rank2 in w
    else if required == 1 then rank1 in w || rank2 in w
    else required == 0
  }

  /** A window that makes is_3straight return True. */
  predicate Hit(w: seq<int>, rank1: int, rank2: int, required: int) {
    Consecutive(w) && Meets(required, rank1, rank2, AceLowExtended(w))
  }

  predicate AnyHit(windows: seq<seq<int>>, rank1: int, rank2: int, required: int) {
    exists i :: 0 <= i < |windows| && Hit(windows[i], rank1, rank2, required)
  }

  /**
   * What is_3straight returns: the five_cards errors, AssertionError for a
   * requirement outside 0..2, ValueError when the holecards are not two
   * cards, and otherwise whether some window of rank_subsequences hits.
   */
  function ThreeStraight(holecards: seq<Card>, flop: seq<Card>, required: int): (r: Result<bool>)
    ensures FiveCardsOf(holecards, flop).Err? ==> r.Err? && r.error == FiveCardsOf(holecards, flop).error
    ensures FiveCardsOf(holecards, flop).Ok? ==>
      (r == Err(AssertionError) <==> !(0 <= required <= 2)) &&
      (r == Err(ValueError) <==> 0 <= required <= 2 && |holecards| != 2)
  {
    var hand :- FiveCardsOf(holecards, flop);
    if !(0 <= required <= 2) then Err(AssertionError)
    else if |holecards| != 2 then Err(ValueError)
    else
      var hr := SortedNumericalRanks(holecards);
      Ok(AnyHit(RankWindows(hand), hr[0], hr[1], required))
  }

  /** is_3straight: the guards, then the scan of the windows of rank_subsequences. */
  method Is3Straight(holecards: seq<Card>, flop: seq<Card>, required: int) returns (r: Result<bool>)
    ensures r == ThreeStraight(holecards, flop, required)
  {
    var hand :- FiveCardsOf(holecards, flop);
    if !(0 <= required <= 2) {
      return Err(AssertionError);
    }
    var hr := SortedNumericalRanks(holecards);
    if |hr| != 2 {
      return Err(ValueError);
    }
    var windows, _ := RankSubsequences(hand);
    RankWindowsShape(hand);
    var found := ScanWindows(windows, hr[0], hr[1], required);
    return Ok(found);
  }

  /** The loop of is_3straight over the windows, returning at the first hit. */
  method ScanWindows(windows: seq<seq<int>>, rank1: int, rank2: int, required: int) returns (found: bool)
    requires forall i :: 0 <= i < |windows| ==> |windows[i]| == 3
    ensures found == AnyHit(windows, rank1, rank2, required)
  {
    for i := 0 to |windows|
      invariant forall j :: 0 <= j < i ==> !Hit(windows[j], rank1, rank2, required)
    {
      var subseq := windows[i];
      var x, y, z := subseq[0], subseq[1], subseq[2];
      if x == y - 1 == z - 2 {
        if x == 1 {
          subseq := subseq + [14];
        }
        if required == 2 {
          if rank1 in subseq && rank2 in subseq {
            return true;
          }
        } else if required == 1 {
          if rank1 in subseq || rank2 in subseq {
            return true;
          }
        } else if required == 0 {
          return true;
        }
      }
    }
    return false;
  }

  /** Requiring both ranks is stricter than requiring one, which is stricter than requiring none. */
  lemma MeetsMonotone(rank1: int, rank2: int, w: seq<int>)
    ensures Meets(2, rank1, rank2, w) ==> Meets(1, rank1, rank2, w)
    ensures Meets(1, rank1, rank2, w) ==> Meets(0, rank1, rank2, w)
  {
  }

  /** is_3straight with two required holecards implies it with one, and that implies it with none. */
  lemma ThreeStraightMonotone(holecards: seq<Card>, flop: seq<Card>)
    ensures ThreeStraight(holecards, flop, 2) == Ok(true) ==> ThreeStraight(holecards, flop, 1) == Ok(true)
    ensures ThreeStraight(holecards, flop, 1) == Ok(true) ==> ThreeStraight(holecards, flop, 0) == Ok(true)
  {
    if FiveCardsOf(holecards, flop).Ok? && |holecards| == 2 {
      var hr := SortedNumericalRanks(holecards);
      var ws := RankWindows(holecards + flop);
      forall i | 0 <= i < |ws| && Consecutive(ws[i])
        ensures Hit(ws[i], hr[0], hr[1], 2) ==> Hit(ws[i], hr[0], hr[1], 1)
        ensures Hit(ws[i], hr[0], hr[1], 1) ==> Hit(ws[i], hr[0], hr[1], 0)
      {
        MeetsMonotone(hr[0], hr[1], AceLowExtended(ws[i]));
      }
    }
  }

  // ---------------------------------------------------------------------------
  // Three cards of consecutive rank, as the docstring of is_3straight defines it

  /** A rank value among the ranks, where 1 stands for an ace played low. */
  predicate Present(ranks: seq<int>, v: int) {
    v in ranks || (v == 1 && 14 in ranks)
  }

  /**
   * Some three of the ranks are consecutive (with the ace low for A-2-3),
   * and those three ranks meet the holecard requirement.
   */
  predicate IntendedHit(ranks: seq<int>, rank1: int, rank2: int, required: int) {
    exists lo :: 1 <= lo <= 12 && Present(ranks, lo) && Present(ranks, lo + 1) && Present(ranks, lo + 2) &&
      Meets(required, rank1, rank2, AceLowExtended(Flop.Run3(lo)))
  }

  /**
   * is_3straight as its docstring describes it: a combination of three of the
   * five cards that is consecutive in rank, with the same guards.
   */
  function ThreeStraightIntended(holecards: seq<Card>, flop: seq<Card>, required: int): (r: Result<bool>)
    ensures r.Err? <==> ThreeStraight(holecards, flop, required).Err?
    ensures r.Err? ==> r == ThreeStraight(holecards, flop, required)
  {
    var hand :- FiveCardsOf(holecards, flop);
    if !(0 <= required <= 2) then Err(AssertionError)
    else if |holecards| != 2 then Err(ValueError)
    else
      var hr := SortedNumericalRanks(holecards);
      Ok(IntendedHit(NumericalRanks(hand), hr[0], hr[1], required))
  }

  /** Strictly increasing values. */
  predicate Increasing(s: seq<int>) {
    forall i, j :: 0 <= i < j < |s| ==> s[i] < s[j]
  }

  /** In strictly increasing values, the successor of s[k], when present, is s[k + 1]. */
  lemma NextPresent(s: seq<int>, k: nat, v: int)
    requires Increasing(s) && k < |s| && s[k] == v && v + 1 in s
    ensures k + 1 < |s| && s[k + 1] == v + 1
  {
    var m :| 0 <= m < |s| && s[m] == v + 1;
  }

  /** The ranks of a whole run present in five increasing ranks are one of its windows. */
  lemma RunIsWindow(ranks: seq<int>, lo: int)
    requires |ranks| == 5 && Increasing(ranks) && lo in ranks && lo + 1 in ranks && lo + 2 in ranks
    ensures exists k :: 0 <= k < 3 && Windows(ranks)[k] == Flop.Run3(lo)
  {
    var k :| 0 <= k < 5 && ranks[k] == lo;
    NextPresent(ranks, k, lo);
    NextPresent(ranks, k + 1, lo + 1);
    WindowsOfFive(ranks);
    assert Windows(ranks)[k] == ranks[k..k + 3];
  }

  /** A2 3 with the ace low: five increasing ranks from 2..14 holding 14, 2 and 3 start 2, 3 and end 14. */
  lemma WheelEnds(ranks: seq<int>)
    requires |ranks| == 5 && Increasing(ranks) && (forall i :: 0 <= i < 5 ==> 2 <= ranks[i] <= 14)
    requires 14 in ranks && 2 in ranks && 3 in ranks
    ensures ranks[0] == 2 && ranks[1] == 3 && ranks[4] == 14
  {
    var a :| 0 <= a < 5 && ranks[a] == 2;
    var b :| 0 <= b < 5 && ranks[b] == 3;
    var c :| 0 <= c < 5 && ranks[c] == 14;
    NextPresent(ranks, 0, 2);
  }

  /** A window that hits is a run of three present ranks meeting the requirement. */
  lemma HitIsIntended(ranks: seq<int>, rank1: int, rank2: int, required: int, i: nat)
    requires |ranks| == 5 && Increasing(ranks) && (forall k :: 0 <= k < 5 ==> 2 <= ranks[k] <= 14)
    requires i < |WindowsOfRanks(ranks)| && Hit(WindowsOfRanks(ranks)[i], rank1, rank2, required)
    ensures IntendedHit(ranks, rank1, rank2, required)
  {
    var ws := WindowsOfRanks(ranks);
    WindowsOfFive(ranks);
    var w := ws[i];
    var lo := w[0];
    assert w == Flop.Run3(lo);
    if i < 3 {
      assert w == ranks[i..i + 3];
      assert ranks[i] in ranks && ranks[i + 1] in ranks && ranks[i + 2] in ranks;
    } else {
      var low := [1] + ranks[..4];
      assert low == [1, ranks[0], ranks[1], ranks[2], ranks[3]];
      WindowsOfFive(low);
      assert ranks[4] == 14 && ranks[4] in ranks;
      assert ranks[0] in ranks && ranks[1] in ranks && ranks[2] in ranks && ranks[3] in ranks;
      assert w == low[i - 3..i];
    }
    assert Present(ranks, lo) && Present(ranks, lo + 1) && Present(ranks, lo + 2);
  }

  /** A run of three present ranks meeting the requirement is a window that hits. */
  lemma IntendedIsHit(ranks: seq<int>, rank1: int, rank2: int, required: int, lo: int)
    requires |ranks| == 5 && Increasing(ranks) && (forall k :: 0 <= k < 5 ==> 2 <= ranks[k] <= 14)
    requires 1 <= lo <= 12 && Present(ranks, lo) && Present(ranks, lo + 1) && Present(ranks, lo + 2)
    requires Meets(required, rank1, rank2, AceLowExtended(Flop.Run3(lo)))
    ensures AnyHit(WindowsOfRanks(ranks), rank1, rank2, required)
  {
    var ws := WindowsOfRanks(ranks);
    if lo == 1 {
      WheelEnds(ranks);
      var low := [1] + ranks[..4];
      assert low == [1, 2, 3, ranks[2], ranks[3]];
      WindowsOfFive(low);
      assert ws[3] == Flop.Run3(1);
      assert Hit(ws[3], rank1, rank2, required);
    } else {
      RunIsWindow(ranks, lo);
      var k :| 0 <= k < 3 && Windows(ranks)[k] == Flop.Run3(lo);
      assert ws[k] == Flop.Run3(lo);
      assert Hit(ws[k], rank1, rank2, required);
    }
  }

  /** On five different ranks, the window scan finds exactly the consecutive triples. */
  lemma WindowsAgreeOnDistinct(ranks: seq<int>, rank1: int, rank2: int, required: int)
    requires |ranks| == 5 && Increasing(ranks) && (forall k :: 0 <= k < 5 ==> 2 <= ranks[k] <= 14)
    ensures AnyHit(WindowsOfRanks(ranks), rank1, rank2, required) <==> IntendedHit(ranks, rank1, rank2, required)
  {
    if AnyHit(WindowsOfRanks(ranks), rank1, rank2, required) {
      var i :| 0 <= i < |WindowsOfRanks(ranks)| && Hit(WindowsOfRanks(ranks)[i], rank1, rank2, required);
      HitIsIntended(ranks, rank1, rank2, required, i);
    }
    if IntendedHit(ranks, rank1, rank2, required) {
      var lo :| 1 <= lo <= 12 && Present(ranks, lo) && Present(ranks, lo + 1) && Present(ranks, lo + 2) &&
        Meets(required, rank1, rank2, AceLowExtended(Flop.Run3(lo)));
      IntendedIsHit(ranks, rank1, rank2, required, lo);
    }
  }

  /** For a hand of five different ranks, is_3straight is what its docstring promises. */
  lemma ThreeStraightAgreesWithoutPairs(holecards: seq<Card>, flop: seq<Card>, required: int)
    requires NoDuplicates(NumericalRanks(holecards + flop))
    ensures ThreeStraight(holecards, flop, required) == ThreeStraightIntended(holecards, flop, required)
  {
    if FiveCardsOf(holecards, flop).Ok? && 0 <= required <= 2 && |holecards| == 2 {
      var hand := holecards + flop;
      var ranks, nr := SortedNumericalRanks(hand), NumericalRanks(hand);
      var hr := SortedNumericalRanks(holecards);
      SortedRanksIncreasing(hand);
      TopRank(hand);
      SortedHitSame(hand, hr[0], hr[1], required);
      WindowsAgreeOnDistinct(ranks, hr[0], hr[1], required);
    }
  }

  /** Sorting the ranks does not change which ranks are present. */
  lemma SortedHitSame(hand: seq<Card>, rank1: int, rank2: int, required: int)
    ensures IntendedHit(NumericalRanks(hand), rank1, rank2, required) <==>
      IntendedHit(SortedNumericalRanks(hand), rank1, rank2, required)
  {
    var ranks, nr := SortedNumericalRanks(hand), NumericalRanks(hand);
    forall v
      ensures v in ranks <==> v in nr
    {
      assert v in ranks <==> v in multiset(ranks);
    }
    assert forall v :: Present(nr, v) <==> Present(ranks, v);
  }

  /** Five different ranks sort into five increasing ranks. */
  lemma SortedRanksIncreasing(hand: seq<Card>)
    requires NoDuplicates(NumericalRanks(hand)) && |hand| == 5
    ensures Increasing(SortedNumericalRanks(hand))
  {
    var ranks := SortedNumericalRanks(hand);
    NoDuplicatesPermutation(NumericalRanks(hand), ranks);
  }

  /**
   * 2c 3d on 3h 4s 9c: the cards 2c 3d 4s are three consecutive ranks, but
   * the sorted ranks 2 3 3 4 9 have no consecutive window, so is_3straight is
   * False.
   */
  lemma PairedStraightMissed(holecards: seq<Card>, flop: seq<Card>)
    requires holecards == [Card(2, C), Card(3, D)] && flop == [Card(3, H), Card(4, S), Card(9, C)]
    ensures ThreeStraight(holecards, flop, 0) == Ok(false)
    ensures ThreeStraightIntended(holecards, flop, 0) == Ok(true)
  {
    var hand := holecards + flop;
    PairedExampleHand(holecards, flop);
    PairedExampleSorted(hand);
    PairedExampleWindows(SortedNumericalRanks(hand));
    PairedExampleTriple(NumericalRanks(hand));
    PairedExampleHolecards(holecards);
    ThreeStraightValue(holecards, flop, 0);
  }

  /** Past the guards, both versions of is_3straight are the tests on the ranks. */
  lemma ThreeStraightValue(holecards: seq<Card>, flop: seq<Card>, required: int)
    requires |holecards + flop| == 5 && Distinct(holecards + flop) && 0 <= required <= 2 && |holecards| == 2
    ensures var hr := SortedNumericalRanks(holecards);
      ThreeStraight(holecards, flop, required) == Ok(AnyHit(RankWindows(holecards + flop), hr[0], hr[1], required)) &&
      ThreeStraightIntended(holecards, flop, required) == Ok(IntendedHit(NumericalRanks(holecards + flop), hr[0], hr[1], required))
  {
  }

  lemma PairedExampleHand(holecards: seq<Card>, flop: seq<Card>)
    requires holecards == [Card(2, C), Card(3, D)] && flop == [Card(3, H), Card(4, S), Card(9, C)]
    ensures NumericalRanks(holecards + flop) == [2, 3, 3, 4, 9]
    ensures |holecards + flop| == 5 && Distinct(holecards + flop)
  {
    assert holecards + flop == [Card(2, C), Card(3, D), Card(3, H), Card(4, S), Card(9, C)];
  }

  lemma PairedExampleSorted(hand: seq<Card>)
    requires NumericalRanks(hand) == [2, 3, 3, 4, 9]
    ensures SortedNumericalRanks(hand) == [2, 3, 3, 4, 9]
  {
    PairedExampleAscending(NumericalRanks(hand));
    SortedRanksOfAscending(hand);
  }

  lemma PairedExampleAscending(ranks: seq<int>)
    requires ranks == [2, 3, 3, 4, 9]
    ensures Ascending(ranks)
  {
  }

  /** The windows 2 3 3, 3 3 4 and 3 4 9: none is consecutive. */
  lemma PairedExampleWindows(ranks: seq<int>)
    requires ranks == [2, 3, 3, 4, 9]
    ensures !AnyHit(WindowsOfRanks(ranks), 2, 3, 0)
  {
    WindowsOfFive(ranks);
    assert ranks[0..3] == [2, 3, 3] && ranks[1..4] == [3, 3, 4] && ranks[2..5] == [3, 4, 9];
    assert WindowsOfRanks(ranks) == [[2, 3, 3], [3, 3, 4], [3, 4, 9]];
  }

  /** 2, 3 and 4 are among the ranks. */
  lemma PairedExampleTriple(ranks: seq<int>)
    requires ranks == [2, 3, 3, 4, 9]
    ensures IntendedHit(ranks, 2, 3, 0)
  {
    assert Present(ranks, 2) && Present(ranks, 3) && Present(ranks, 4);
  }

  lemma PairedExampleHolecards(holecards: seq<Card>)
    requires holecards == [Card(2, C), Card(3, D)]
    ensures SortedNumericalRanks(holecards) == [2, 3]
  {
    assert NumericalRanks(holecards) == [2, 3];
    SortedRanksOfAscending(holecards);
  }

  // ---------------------------------------------------------------------------
  // is_3flush

  /** [card.suit for card in cards]. */
  function SuitsOf(cards: seq<Card>): (suits: seq<Suit>)
    ensures |suits| == |cards| && forall i :: 0 <= i < |cards| ==> suits[i] == cards[i].suit
  {
    seq(|cards|, i requires 0 <= i < |cards| => cards[i].suit)
  }

  /** The holecard requirement on a suit: both holecards, at least one, or none in that suit. */
  predicate SuitMeets(required: int, suit1: Suit, suit2: Suit, suit: Suit) {
    if required == 2 then suit1 == suit2 == suit
    else if required == 1 then suit1 == suit || suit2 == suit
    else required == 0
  }

  /** A suit that makes is_3flush return True: exactly three cards of it, and the requirement met. */
  predicate FlushHit(suits: seq<Suit>, suit1: Suit, suit2: Suit, required: int, suit: Suit) {
    multiset(suits)[suit] == 3 && SuitMeets(required, suit1, suit2, suit)
  }

  /** What is_3flush returns: the guard errors, then whether some suit of the hand hits. */
  function ThreeFlush(holecards: seq<Card>, flop: seq<Card>, required: int): (r: Result<bool>)
    ensures FiveCardsOf(holecards, flop).Err? ==> r.Err? && r.error == FiveCardsOf(holecards, flop).error
    ensures FiveCardsOf(holecards, flop).Ok? ==>
      (r == Err(AssertionError) <==> !(0 <= required <= 2)) &&
      (r == Err(ValueError) <==> 0 <= required <= 2 && |holecards| != 2)
  {
    var hand :- FiveCardsOf(holecards, flop);
    if !(0 <= required <= 2) then Err(AssertionError)
    else if |holecards| != 2 then Err(ValueError)
    else
      var suits := SuitsOf(hand);
      Ok(exists s :: s in suits && FlushHit(suits, holecards[0].suit, holecards[1].suit, required, s))
  }

  /** is_3flush: the loop over the suits of the hand in the order the Counter first sees them. */
  method Is3Flush(holecards: seq<Card>, flop: seq<Card>, required: int) returns (r: Result<bool>)
    ensures r == ThreeFlush(holecards, flop, required)
  {
    var hand :- FiveCardsOf(holecards, flop);
    if !(0 <= required <= 2) {
      return Err(AssertionError);
    }
    if |holecards| != 2 {
      return Err(ValueError);
    }
    var suit1, suit2 := holecards[0].suit, holecards[1].suit;
    var suits := SuitsOf(hand);
    var keys := Dedup(suits);
    DedupFacts(suits);
    for i := 0 to |keys|
      invariant forall j :: 0 <= j < i ==> !FlushHit(suits, suit1, suit2, required, keys[j])
    {
      var suit := keys[i];
      if multiset(suits)[suit] == 3 {
        if required == 2 && suit1 == suit2 == suit {
          ThreeFlushFound(holecards, flop, required, suit);
          return Ok(true);
        } else if required == 1 {
          if suit1 == suit || suit2 == suit {
            ThreeFlushFound(holecards, flop, required, suit);
            return Ok(true);
          }
        } else if required == 0 {
          ThreeFlushFound(holecards, flop, required, suit);
          return Ok(true);
        }
      }
    }
    forall s | s in suits
      ensures !FlushHit(suits, suit1, suit2, required, s)
    {
      assert s in keys;
    }
    ThreeFlushNotFound(holecards, flop, required);
    return Ok(false);
  }

  /** A suit of the hand that hits makes is_3flush True. */
  lemma ThreeFlushFound(holecards: seq<Card>, flop: seq<Card>, required: int, s: Suit)
    requires FiveCardsOf(holecards, flop).Ok? && 0 <= required <= 2 && |holecards| == 2
    requires var suits := SuitsOf(holecards + flop);
      s in suits && FlushHit(suits, holecards[0].suit, holecards[1].suit, required, s)
    ensures ThreeFlush(holecards, flop, required) == Ok(true)
  {
  }

  /** No suit of the hand hits: is_3flush is False. */
  lemma ThreeFlushNotFound(holecards: seq<Card>, flop: seq<Card>, required: int)
    requires FiveCardsOf(holecards, flop).Ok? && 0 <= required <= 2 && |holecards| == 2
    requires var suits := SuitsOf(holecards + flop);
      forall s :: s in suits ==> !FlushHit(suits, holecards[0].suit, holecards[1].suit, required, s)
    ensures ThreeFlush(holecards, flop, required) == Ok(false)
  {
  }

  /** is_3flush with two required holecards implies it with one, and that implies it with none. */
  lemma ThreeFlushMonotone(holecards: seq<Card>, flop: seq<Card>)
    ensures ThreeFlush(holecards, flop, 2) == Ok(true) ==> ThreeFlush(holecards, flop, 1) == Ok(true)
    ensures ThreeFlush(holecards, flop, 1) == Ok(true) ==> ThreeFlush(holecards, flop, 0) == Ok(true)
  {
  }

  /** Two different suits together occur at most as often as there are cards. */
  lemma {:induction false} TwoSuitCounts(suits: seq<Suit>, a: Suit, b: Suit)
    requires a != b
    ensures multiset(suits)[a] + multiset(suits)[b] <= |suits|
  {
    if suits != [] {
      assert suits == [suits[0]] + suits[1..];
      assert multiset(suits) == multiset{suits[0]} + multiset(suits[1..]);
      TwoSuitCounts(suits[1..], a, b);
    }
  }

  /**
   * Among five cards at most one suit occurs exactly three times, and when a
   * suit occurs four or five times none does, so is_3flush is False.
   */
  lemma ThreeFlushSuitUnique(holecards: seq<Card>, flop: seq<Card>, a: Suit, b: Suit)
    requires |holecards + flop| == 5
    ensures var m := multiset(SuitsOf(holecards + flop)); m[a] == 3 && m[b] == 3 ==> a == b
    ensures var m := multiset(SuitsOf(holecards + flop)); m[a] >= 4 ==> m[b] != 3
  {
    if a != b {
      TwoSuitCounts(SuitsOf(holecards + flop), a, b);
    }
  }

  /** Four or more cards of one suit make is_3flush False for every requirement. */
  lemma FourFlushIsNotThreeFlush(holecards: seq<Card>, flop: seq<Card>, required: int, a: Suit)
    requires |holecards + flop| == 5 && multiset(SuitsOf(holecards + flop))[a] >= 4
    ensures ThreeFlush(holecards, flop, required) != Ok(true)
  {
    var suits := SuitsOf(holecards + flop);
    forall s | s in suits
      ensures multiset(suits)[s] != 3
    {
      ThreeFlushSuitUnique(holecards, flop, a, s);
    }
  }

  // ---------------------------------------------------------------------------
  // has_two_overcards

  /** has_two_overcards: every holecard rank is above every rank of the sorted flop. */
  function HasTwoOvercards(holecards: seq<Card>, flop: seq<Card>): (r: Result<bool>)
    ensures r.Err? <==> FiveCardsOf(holecards, flop).Err?
  {
    var hand :- FiveCardsOf(holecards, flop);
    var flopRanks := SortedNumericalRanks(flop);
    Ok(forall i, j :: 0 <= i < |holecards| && 0 <= j < |flopRanks| ==> holecards[i].rank > flopRanks[j])
  }

  /**
   * Two overcards: each holecard outranks each card of the flop, whatever the
   * order of the flop and whether or not either side is paired.
   */
  lemma OvercardsCharacterised(holecards: seq<Card>, flop: seq<Card>)
    requires FiveCardsOf(holecards, flop).Ok?
    ensures HasTwoOvercards(holecards, flop) == Ok(true) <==>
      forall i, j :: 0 <= i < |holecards| && 0 <= j < |flop| ==> holecards[i].rank > flop[j].rank
  {
    var fr, nr := SortedNumericalRanks(flop), NumericalRanks(flop);
    forall j | 0 <= j < |flop|
      ensures flop[j].rank in fr
    {
      assert nr[j] in multiset(nr);
    }
    forall j | 0 <= j < |fr|
      ensures fr[j] in nr
    {
      assert fr[j] in multiset(fr);
    }
  }
}
