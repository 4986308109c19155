/**
 * bluffing.py: its own five_cards check, three to a straight by a scan of the
 * sorted ranks with a 1 inserted for an ace, three to a flush, and the bluff
 * candidates of that module: no pair or better, three to a flush and three to
 * a straight, both with both holecards. Its hand predicates are the same
 * expressions as those of properties/hand.py and are Hand.IsFlush,
 * Hand.IsStraight, Hand.IsNoPair and the rest.
 */
module Bluffing {
  import opened Outcomes
  import opened Cards
  import opened Sorting
  import opened PokerTools
  import Hand
  import Holecards
  import Complex

  /**
   * five_cards of this module: ValueError for a count other than five and
   * ValueError again for a card passed twice, otherwise the five cards.
   */
  function FiveCardsOf(holecards: seq<Card>, flop: seq<Card>): (r: Result<seq<Card>>)
    ensures r.Ok? <==> |holecards + flop| == 5 && Distinct(holecards + flop)
    ensures r.Ok? ==> r.value == holecards + flop
    ensures r.Err? ==> r.error == ValueError
  {
    var checked := Complex.FiveCardsOf(holecards, flop);
    if checked.Ok? then checked else Err(ValueError)
  }

  // ---------------------------------------------------------------------------
  // is_3straight

  /** hand_ranks: the sorted ranks of five cards, with 1 inserted in front when the top rank is an ace. */
  function HandRanks(ranks: seq<int>): (r: seq<int>)
    requires |ranks| == 5
    ensures |r| == (if ranks[4] == 14 then 6 else 5)
  {
    if ranks[4] == 14 then [1] + ranks else ranks
  }

  /** hand_ranks[i:i + 3] for every i in range(len(hand_ranks) - 2). */
  function Triples(r: seq<int>): (ts: seq<seq<int>>)
    requires |r| >= 2
    ensures |ts| == |r| - 2 && forall i :: 0 <= i < |ts| ==> ts[i] == r[i..i + 3]
  {
    seq(|r| - 2, i requires 0 <= i < |r| - 2 => r[i..i + 3])
  }

  /**
   * A triple that makes is_3straight return True: consecutive ranks that hold
   * the required holecard ranks. An ace holecard keeps its rank 14 and is not
   * looked for as the 1 of a low triple.
   */
  predicate TripleHit(w: seq<int>, rank1: int, rank2: int, required: int) {
    Complex.Consecutive(w) && Complex.Meets(required, rank1, rank2, w)
  }

  /**
   * What is_3straight returns: the five_cards error, AssertionError for a
   * requirement outside 0..2, ValueError when the holecards do not unpack
   * into two ranks, and otherwise whether some triple hits.
   */
  function ThreeStraight(holecards: seq<Card>, flop: seq<Card>, required: int): (r: Result<bool>)
    ensures FiveCardsOf(holecards, flop).Err? ==> r == Err(ValueError)
    ensures FiveCardsOf(holecards, flop).Ok? ==>
      (r == Err(AssertionError) <==> !(0 <= required <= 2)) &&
      (r == Err(ValueError) <==> 0 <= required <= 2 && |holecards| != 2)
  {
    var hand :- FiveCardsOf(holecards, flop);
    if !(0 <= required <= 2) then Err(AssertionError)
    else if |holecards| != 2 then Err(ValueError)
    else
      var ts := Triples(HandRanks(SortedNumericalRanks(hand)));
      Ok(exists i :: 0 <= i < |ts| && TripleHit(ts[i], holecards[0].rank, holecards[1].rank, required))
  }

  /** is_3straight: the guards, the insertion of 1 for an ace, then the indexed scan. */
  method Is3Straight(holecards: seq<Card>, flop: seq<Card>, required: int) returns (r: Result<bool>)
    ensures r == ThreeStraight(holecards, flop, required)
  {
    var hand :- FiveCardsOf(holecards, flop);
    if !(0 <= required <= 2) {
      return Err(AssertionError);
    }
    if |holecards| != 2 {
      return Err(ValueError);
    }
    var rank1, rank2 := holecards[0].rank, holecards[1].rank;
    var handRanks := SortedNumericalRanks(hand);
    if handRanks[4] == 14 {
      handRanks := [1] + handRanks;
    }
    assert handRanks == HandRanks(SortedNumericalRanks(hand));
    var found := ScanTriples(handRanks, rank1, rank2, required);
    return Ok(found);
  }

  /** The loop of is_3straight over the triples of hand_ranks, returning at the first hit. */
  method ScanTriples(handRanks: seq<int>, rank1: int, rank2: int, required: int) returns (found: bool)
    requires |handRanks| >= 2
    ensures found == exists i :: 0 <= i < |Triples(handRanks)| && TripleHit(Triples(handRanks)[i], rank1, rank2, required)
  {
    for i := 0 to |handRanks| - 2
      invariant forall j :: 0 <= j < i ==> !TripleHit(Triples(handRanks)[j], rank1, rank2, required)
    {
      var subseq := handRanks[i..i + 3];
      if subseq[0] == subseq[1] - 1 == subseq[2] - 2 {
        if required == 2 {
          if rank1 in subseq && rank2 in subseq {
            assert TripleHit(Triples(handRanks)[i], rank1, rank2, required);
            return true;
          }
        } else if required == 1 {
          if rank1 in subseq || rank2 in subseq {
            assert TripleHit(Triples(handRanks)[i], rank1, rank2, required);
            return true;
          }
        } else if required == 0 {
          assert TripleHit(Triples(handRanks)[i], rank1, rank2, required);
          return true;
        }
      }
    }
    return false;
  }

  /** is_3straight with two required holecards implies it with one, and that implies it with none. */
  lemma ThreeStraightMonotone(holecards: seq<Card>, flop: seq<Card>)
    ensures ThreeStraight(holecards, flop, 2) == Ok(true) ==> ThreeStraight(holecards, flop, 1) == Ok(true)
    ensures ThreeStraight(holecards, flop, 1) == Ok(true) ==> ThreeStraight(holecards, flop, 0) == Ok(true)
  {
    if FiveCardsOf(holecards, flop).Ok? && |holecards| == 2 {
      var ts := Triples(HandRanks(SortedNumericalRanks(holecards + flop)));
      var a, b := holecards[0].rank, holecards[1].rank;
      forall i | 0 <= i < |ts|
        ensures TripleHit(ts[i], a, b, 2) ==> TripleHit(ts[i], a, b, 1)
        ensures TripleHit(ts[i], a, b, 1) ==> TripleHit(ts[i], a, b, 0)
      {
        Complex.MeetsMonotone(a, b, ts[i]);
      }
    }
  }

  /**
   * The triples of hand_ranks are the windows that rank_subsequences yields
   * for the same sorted ranks, as sets: with an ace, [1, a, b] and the three
   * windows of the five ranks.
   */
  lemma TriplesAreWindows(s: seq<int>)
    requires |s| == 5
    ensures forall w :: w in Triples(HandRanks(s)) <==> w in WindowsOfRanks(s)
  {
    WindowsOfFive(s);
    var r := HandRanks(s);
    if s[4] == 14 {
      var low := [1] + s[..4];
      WindowsOfFive(low);
      assert r[0..3] == low[0..3] && r[1..4] == s[0..3] == low[1..4];
      assert r[2..5] == s[1..4] == low[2..5] && r[3..6] == s[2..5];
      assert Triples(r) == [low[0..3], s[0..3], s[1..4], s[2..5]];
      assert WindowsOfRanks(s) == [s[0..3], s[1..4], s[2..5], low[0..3], low[1..4], low[2..5]];
    } else {
      assert Triples(r) == [s[0..3], s[1..4], s[2..5]];
    }
  }

  /**
   * A triple that hits here is a window that hits in the package version,
   * whose ranks are the sorted holecard ranks; without an ace among the
   * holecards the converse holds as well.
   */
  lemma TripleHitIsHit(w: seq<int>, a: int, b: int, rank1: int, rank2: int, required: int)
    requires (rank1 == a && rank2 == b) || (rank1 == b && rank2 == a)
    ensures TripleHit(w, a, b, required) ==> Complex.Hit(w, rank1, rank2, required)
    ensures a != 14 && b != 14 && Complex.Hit(w, rank1, rank2, required) ==> TripleHit(w, a, b, required)
  {
  }

  /**
   * Past the shared guards, a straight found here is found by the package
   * version too, and without an ace among the holecards the two agree.
   */
  lemma ThreeStraightAgainstPackage(holecards: seq<Card>, flop: seq<Card>, required: int)
    requires Complex.FiveCardsOf(holecards, flop).Ok?
    ensures ThreeStraight(holecards, flop, required) == Ok(true) ==> Complex.ThreeStraight(holecards, flop, required) == Ok(true)
    ensures |holecards| == 2 && holecards[0].rank != 14 && holecards[1].rank != 14 ==>
      ThreeStraight(holecards, flop, required) == Complex.ThreeStraight(holecards, flop, required)
  {
    if 0 <= required <= 2 && |holecards| == 2 {
      var s := SortedNumericalRanks(holecards + flop);
      var hr := SortedNumericalRanks(holecards);
      Holecards.TwoSortedRanks(holecards);
      TriplesAreWindows(s);
      TriplesFoundAsWindows(s, holecards[0].rank, holecards[1].rank, hr[0], hr[1], required);
    }
  }

  /** The scan of the triples against the scan of the windows of the same sorted ranks. */
  lemma TriplesFoundAsWindows(s: seq<int>, a: int, b: int, rank1: int, rank2: int, required: int)
    requires |s| == 5 && (forall w :: w in Triples(HandRanks(s)) <==> w in WindowsOfRanks(s))
    requires (rank1 == a && rank2 == b) || (rank1 == b && rank2 == a)
    ensures var ts := Triples(HandRanks(s));
      (exists i :: 0 <= i < |ts| && TripleHit(ts[i], a, b, required)) ==> Complex.AnyHit(WindowsOfRanks(s), rank1, rank2, required)
    ensures var ts := Triples(HandRanks(s));
      a != 14 && b != 14 && Complex.AnyHit(WindowsOfRanks(s), rank1, rank2, required) ==>
      exists i :: 0 <= i < |ts| && TripleHit(ts[i], a, b, required)
  {
    var ts, ws := Triples(HandRanks(s)), WindowsOfRanks(s);
    if exists i :: 0 <= i < |ts| && TripleHit(ts[i], a, b, required) {
      var i :| 0 <= i < |ts| && TripleHit(ts[i], a, b, required);
      assert ts[i] in ws;
      var k :| 0 <= k < |ws| && ws[k] == ts[i];
      TripleHitIsHit(ts[i], a, b, rank1, rank2, required);
    }
    if a != 14 && b != 14 && Complex.AnyHit(ws, rank1, rank2, required) {
      var k :| 0 <= k < |ws| && Complex.Hit(ws[k], rank1, rank2, required);
      assert ws[k] in ts;
      var i :| 0 <= i < |ts| && ts[i] == ws[k];
      TripleHitIsHit(ws[k], a, b, rank1, rank2, required);
    }
  }

  /**
   * Ah 2c on 3d 9s Kh: the ace holecard with 2 and 3 makes A-2-3, which the
   * package version counts for both holecards, but here the ace is looked
   * for as 14 in the triple 1 2 3 and is not found.
   */
  lemma AceHolecardNotLow(holecards: seq<Card>, flop: seq<Card>)
    requires holecards == [Card(14, H), Card(2, C)] && flop == [Card(3, D), Card(9, S), Card(13, H)]
    ensures ThreeStraight(holecards, flop, 2) == Ok(false)
    ensures Complex.ThreeStraight(holecards, flop, 2) == Ok(true)
  {
    var hand := holecards + flop;
    AceExampleHand(holecards, flop);
    AceExampleSorted(hand);
    var s := SortedNumericalRanks(hand);
    AceExampleTriples(s);
    AceExampleWindows(s);
    Holecards.TwoSortedRanks(holecards);
  }

  lemma AceExampleHand(holecards: seq<Card>, flop: seq<Card>)
    requires holecards == [Card(14, H), Card(2, C)] && flop == [Card(3, D), Card(9, S), Card(13, H)]
    ensures NumericalRanks(holecards + flop) == [14, 2, 3, 9, 13]
    ensures Complex.FiveCardsOf(holecards, flop) == Ok(holecards + flop)
  {
    assert holecards + flop == [Card(14, H), Card(2, C), Card(3, D), Card(9, S), Card(13, H)];
  }

  lemma AceExampleSorted(hand: seq<Card>)
    requires NumericalRanks(hand) == [14, 2, 3, 9, 13]
    ensures SortedNumericalRanks(hand) == [2, 3, 9, 13, 14]
  {
    var u := [2, 3, 9, 13];
    AceExampleAscending(u + [14]);
    assert NumericalRanks(hand) == [14] + u;
    assert multiset([14] + u) == multiset(u + [14]);
    AscendingUnique(SortedNumericalRanks(hand), u + [14]);
  }

  lemma AceExampleAscending(t: seq<int>)
    requires t == [2, 3, 9, 13, 14]
    ensures Ascending(t)
  {
  }

  /** The triples 1 2 3, 2 3 9, 3 9 13, 9 13 14: only 1 2 3 is consecutive, and it lacks 14. */
  lemma AceExampleTriples(s: seq<int>)
    requires s == [2, 3, 9, 13, 14]
    ensures !(exists i :: 0 <= i < |Triples(HandRanks(s))| && TripleHit(Triples(HandRanks(s))[i], 14, 2, 2))
  {
    var r := HandRanks(s);
    assert r == [1, 2, 3, 9, 13, 14];
    assert r[0..3] == [1, 2, 3] && r[1..4] == [2, 3, 9] && r[2..5] == [3, 9, 13] && r[3..6] == [9, 13, 14];
  }

  /** The low window 1 2 3 is extended by 14, so it holds both holecard ranks. */
  lemma AceExampleWindows(s: seq<int>)
    requires s == [2, 3, 9, 13, 14]
    ensures Complex.AnyHit(WindowsOfRanks(s), 2, 14, 2)
  {
    var low := [1] + s[..4];
    WindowsOfFive(low);
    assert low[0..3] == [1, 2, 3];
    assert Complex.Hit(WindowsOfRanks(s)[3], 2, 14, 2);
  }

  // ---------------------------------------------------------------------------
  // is_3flush

  /**
   * What is_3flush of this module returns: the same loop over the suit counts
   * as the package version, behind this module's five_cards.
   */
  function ThreeFlush(holecards: seq<Card>, flop: seq<Card>, required: int): (r: Result<bool>)
    ensures FiveCardsOf(holecards, flop).Err? ==> r == Err(ValueError)
    ensures FiveCardsOf(holecards, flop).Ok? ==> r == Complex.ThreeFlush(holecards, flop, required)
  {
    var hand :- FiveCardsOf(holecards, flop);
    Complex.ThreeFlush(holecards, flop, required)
  }

  method Is3Flush(holecards: seq<Card>, flop: seq<Card>, required: int) returns (r: Result<bool>)
    ensures r == ThreeFlush(holecards, flop, required)
  {
    var hand :- FiveCardsOf(holecards, flop);
    r := Complex.Is3Flush(holecards, flop, required);
  }

  /**
   * Three to a flush with both holecards: the two holecards share a suit and
   * exactly one flop card has it.
   */
  lemma ThreeFlushBothHolecards(holecards: seq<Card>, flop: seq<Card>)
    requires FiveCardsOf(holecards, flop).Ok?
    ensures ThreeFlush(holecards, flop, 2) == Ok(true) <==>
      |holecards| == 2 && holecards[0].suit == holecards[1].suit &&
      multiset(Complex.SuitsOf(flop))[holecards[0].suit] == 1
  {
    if |holecards| == 2 {
      var suits := Complex.SuitsOf(holecards + flop);
      assert suits == Complex.SuitsOf(holecards) + Complex.SuitsOf(flop);
      assert Complex.SuitsOf(holecards) == [holecards[0].suit, holecards[1].suit];
      assert holecards[0].suit in suits;
    }
  }

  // ---------------------------------------------------------------------------
  // is_bluffcandidate

  /** is_bluffcandidate: no pair or better, then three to a flush and three to a straight with both holecards. */
  function IsBluffCandidate(holecards: seq<Card>, flop: seq<Card>): (r: Result<bool>)
    ensures r.Err? <==> (FiveCardsOf(holecards, flop).Err? ||
      (Hand.IsNoPair(holecards + flop) && |holecards| != 2))
    ensures r.Err? ==> r.error == ValueError
  {
    var hand :- FiveCardsOf(holecards, flop);
    if !Hand.IsNoPair(hand) then Ok(false)
    else
      var flush :- ThreeFlush(holecards, flop, 2);
      if !flush then Ok(false) else ThreeStraight(holecards, flop, 2)
  }

  /**
   * A bluff candidate is suited holecards with exactly one more card of their
   * suit on the flop, two different ranks at most two apart, and five
   * different ranks that are neither a straight nor a flush.
   */
  lemma BluffCandidateShape(holecards: seq<Card>, flop: seq<Card>)
    requires IsBluffCandidate(holecards, flop) == Ok(true)
    ensures |holecards| == 2 && holecards[0].suit == holecards[1].suit
    ensures multiset(Complex.SuitsOf(flop))[holecards[0].suit] == 1
    ensures 1 <= Holecards.Abs(holecards[0].rank - holecards[1].rank) <= 2
    ensures Hand.IsNoPair(holecards + flop)
  {
    BluffCandidateParts(holecards, flop);
    ThreeFlushBothHolecards(holecards, flop);
    var hand := holecards + flop;
    Hand.NoPairCharacterised(hand);
    var nr := NumericalRanks(hand);
    assert nr[0] == holecards[0].rank && nr[1] == holecards[1].rank;
    StraightBothGap(holecards, flop);
  }

  /** is_bluffcandidate True is its three tests True. */
  lemma BluffCandidateParts(holecards: seq<Card>, flop: seq<Card>)
    requires IsBluffCandidate(holecards, flop) == Ok(true)
    ensures FiveCardsOf(holecards, flop).Ok? && |holecards| == 2 && Hand.IsNoPair(holecards + flop)
    ensures ThreeFlush(holecards, flop, 2) == Ok(true) && ThreeStraight(holecards, flop, 2) == Ok(true)
  {
  }

  /** Both holecard ranks of a straight triple with two required holecards, when they differ, are one or two apart. */
  lemma StraightBothGap(holecards: seq<Card>, flop: seq<Card>)
    requires ThreeStraight(holecards, flop, 2) == Ok(true) && |holecards| == 2
    requires holecards[0].rank != holecards[1].rank
    ensures 1 <= Holecards.Abs(holecards[0].rank - holecards[1].rank) <= 2
  {
    var a, b := holecards[0].rank, holecards[1].rank;
    var ts := Triples(HandRanks(SortedNumericalRanks(holecards + flop)));
    var i :| 0 <= i < |ts| && TripleHit(ts[i], a, b, 2);
    TripleGap(ts[i], a, b);
  }

  /** Two different values of three consecutive ones are one or two apart. */
  lemma TripleGap(w: seq<int>, a: int, b: int)
    requires TripleHit(w, a, b, 2) && a != b
    ensures 1 <= Holecards.Abs(a - b) <= 2
  {
    assert w == [w[0], w[0] + 1, w[0] + 2];
  }

  /**
   * 2d 3d on 7d As Kh is a bluff candidate: five different ranks with no
   * straight and three suits, three diamonds with both holecards, and the
   * triple 1 2 3 with the ace of the board played low.
   */
  lemma BluffCandidateExample(holecards: seq<Card>, flop: seq<Card>)
    requires holecards == [Card(2, D), Card(3, D)] && flop == [Card(7, D), Card(14, S), Card(13, H)]
    ensures IsBluffCandidate(holecards, flop) == Ok(true)
  {
    var hand := holecards + flop;
    CandidateExampleHand(holecards, flop);
    CandidateExampleSorted(hand);
    CandidateExampleRanks(NumericalRanks(hand), SortedNumericalRanks(hand));
    CandidateExampleTriple(SortedNumericalRanks(hand));
    NumSuitsFacts(hand);
    NoPairOfRanks(hand);
    CandidateExampleSuits(Complex.SuitsOf(flop));
    FlushOfSuits(holecards, flop);
    StraightOfTriple(holecards, flop, 0);
    CandidateOfParts(holecards, flop);
  }

  /** Five different ranks that are not a straight, and more than one suit, are no pair. */
  lemma NoPairOfRanks(hand: seq<Card>)
    requires |hand| == 5 && NoDuplicates(NumericalRanks(hand)) && NumSuits(hand) != 1
    requires SortedNumericalRanks(hand) != Hand.Wheel
    requires Max(SortedNumericalRanks(hand)) - Min(SortedNumericalRanks(hand)) != 4
    ensures Hand.IsNoPair(hand)
  {
    Hand.NoPairCharacterised(hand);
  }

  lemma CandidateExampleSuits(suits: seq<Suit>)
    requires suits == [D, S, H]
    ensures multiset(suits)[D] == 1
  {
  }

  /** Suited holecards with exactly one more card of their suit on the flop are three to a flush with both. */
  lemma FlushOfSuits(holecards: seq<Card>, flop: seq<Card>)
    requires FiveCardsOf(holecards, flop).Ok? && |holecards| == 2 && holecards[0].suit == holecards[1].suit
    requires multiset(Complex.SuitsOf(flop))[holecards[0].suit] == 1
    ensures ThreeFlush(holecards, flop, 2) == Ok(true)
  {
    ThreeFlushBothHolecards(holecards, flop);
  }

  /** A hit triple is a straight with both holecards. */
  lemma StraightOfTriple(holecards: seq<Card>, flop: seq<Card>, k: nat)
    requires FiveCardsOf(holecards, flop).Ok? && |holecards| == 2
    requires k < |Triples(HandRanks(SortedNumericalRanks(holecards + flop)))|
    requires TripleHit(Triples(HandRanks(SortedNumericalRanks(holecards + flop)))[k], holecards[0].rank, holecards[1].rank, 2)
    ensures ThreeStraight(holecards, flop, 2) == Ok(true)
  {
  }

  /** The three tests of is_bluffcandidate True make it True. */
  lemma CandidateOfParts(holecards: seq<Card>, flop: seq<Card>)
    requires FiveCardsOf(holecards, flop).Ok? && |holecards| == 2 && Hand.IsNoPair(holecards + flop)
    requires ThreeFlush(holecards, flop, 2) == Ok(true) && ThreeStraight(holecards, flop, 2) == Ok(true)
    ensures IsBluffCandidate(holecards, flop) == Ok(true)
  {
  }

  lemma CandidateExampleHand(holecards: seq<Card>, flop: seq<Card>)
    requires holecards == [Card(2, D), Card(3, D)] && flop == [Card(7, D), Card(14, S), Card(13, H)]
    ensures NumericalRanks(holecards + flop) == [2, 3, 7, 14, 13]
    ensures |holecards + flop| == 5 && Distinct(holecards + flop)
    ensures (holecards + flop)[3].suit != (holecards + flop)[0].suit
    ensures Complex.SuitsOf(flop) == [D, S, H]
  {
    assert holecards + flop == [Card(2, D), Card(3, D), Card(7, D), Card(14, S), Card(13, H)];
  }

  lemma CandidateExampleSorted(hand: seq<Card>)
    requires NumericalRanks(hand) == [2, 3, 7, 14, 13]
    ensures SortedNumericalRanks(hand) == [2, 3, 7, 13, 14]
  {
    var u := [2, 3, 7];
    CandidateExampleAscending(u + [13, 14]);
    assert NumericalRanks(hand) == u + [14, 13];
    assert multiset([14, 13]) == multiset([13, 14]);
    assert multiset(u + [14, 13]) == multiset(u + [13, 14]);
    AscendingUnique(SortedNumericalRanks(hand), u + [13, 14]);
  }

  lemma CandidateExampleAscending(t: seq<int>)
    requires t == [2, 3, 7, 13, 14]
    ensures Ascending(t)
  {
  }

  /** Five different ranks, not the wheel, spanning twelve. */
  lemma CandidateExampleRanks(ranks: seq<int>, s: seq<int>)
    requires ranks == [2, 3, 7, 14, 13] && s == [2, 3, 7, 13, 14]
    ensures NoDuplicates(ranks)
    ensures s != Hand.Wheel && Max(s) - Min(s) != 4
  {
    assert 14 in s && 2 in s;
  }

  /** hand_ranks 1 2 3 7 13 14 starts with the triple 1 2 3, which holds both holecard ranks. */
  lemma CandidateExampleTriple(s: seq<int>)
    requires s == [2, 3, 7, 13, 14]
    ensures TripleHit(Triples(HandRanks(s))[0], 2, 3, 2)
  {
    assert HandRanks(s)[0..3] == [1, 2, 3];
  }
}
