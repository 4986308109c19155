/**
 * Canonical forms of the flop, as the top-level isomorph module computes
 * them: the same four operations as the packaged module, written on lists.
 * get_canonical tests the suit pattern of the sorted flop with an elif chain
 * and, for a paired bottom under pattern ABB, overwrites the third slot of
 * its list with a club; get_suit_isomorphs filters nested comprehensions over
 * SUITS; get_all_canonicals runs over the suit-major CARDS of the older
 * pokertools module. Each is proved to agree with the packaged module, so the
 * laws proved there (sortedness, idempotence, invariance under renaming,
 * class sizes, the two defects of the dict) hold here too.
 */
module IsomorphLegacy {
  import opened Cards
  import Isomorph
  import PokerTools
  import Sorting
  import PokerToolsLegacy

  // ---------------------------------------------------------------------------
  // Finding the canonical version

  /** get_canonical: sort, read the suit pattern with the elif chain, rename the suits to c, d, h. */
  function GetCanonical(flop: seq<Card>): (r: seq<Card>)
    requires |flop| == 3
    ensures |r| == 3
  {
    var f := Sort3(flop);
    var card1, card2, card3 := f[0], f[1], f[2];
    if card1.suit == card2.suit && card2.suit == card3.suit then
      [card1.WithSuit(C), card2.WithSuit(C), card3.WithSuit(C)]
    else if card1.suit == card2.suit && card2.suit != card3.suit then
      [card1.WithSuit(C), card2.WithSuit(C), card3.WithSuit(D)]
    else if card1.suit == card3.suit && card3.suit != card2.suit then
      var canonical := [card1.WithSuit(C), card2.WithSuit(D), card3.WithSuit(C)];
      Sort3(canonical)
    else if card1.suit != card2.suit && card2.suit == card3.suit then
      var canonical := [card1.WithSuit(C), card2.WithSuit(D), card3.WithSuit(D)];
      if canonical[0].rank == canonical[1].rank then canonical[2 := card3.WithSuit(C)]
      else canonical
    else
      // card1.suit != card2.suit != card3.suit; with ABA taken above, the three suits differ.
      [card1.WithSuit(C), card2.WithSuit(D), card3.WithSuit(H)]
  }

  /** The list version computes the same canonical form as the packaged module, on every flop. */
  lemma CanonicalAgrees(flop: seq<Card>)
    requires |flop| == 3
    ensures GetCanonical(flop) == Isomorph.GetCanonical(flop)
  {
  }

  /**
   * Of three different cards the canonical form is three different cards in
   * sorted order (the ABA branch sorts again, the ABB branch overwrites only
   * the suit of its top card), with the ranks of the flop, a club first and
   * no spade.
   */
  lemma CanonicalSorted(flop: seq<Card>)
    requires Distinct3(flop)
    ensures var r := GetCanonical(flop);
      Sorted3(r) && Distinct3(r) && r[0].suit == C && r[1].suit != S && r[2].suit != S
    ensures var r, f := GetCanonical(flop), Sort3(flop);
      multiset([r[0].rank, r[1].rank, r[2].rank]) == multiset([f[0].rank, f[1].rank, f[2].rank])
  {
    CanonicalAgrees(flop);
    Isomorph.CanonicalForm(flop);
  }

  /**
   * get_canonical is idempotent, and two flops of three different cards
   * have the same canonical form exactly when one is the other reordered
   * and with its suits renamed.
   */
  lemma CanonicalDecidesClass(f: seq<Card>, g: seq<Card>)
    requires Distinct3(f) && Distinct3(g)
    ensures GetCanonical(GetCanonical(f)) == GetCanonical(f)
    ensures GetCanonical(f) == GetCanonical(g) <==> Isomorph.Isomorphic(f, g)
  {
    CanonicalAgrees(f);
    CanonicalAgrees(g);
    Isomorph.CanonicalIdempotent(f);
    CanonicalAgrees(GetCanonical(f));
    Isomorph.CanonicalDecidesClass(f, g);
  }

  /** The doctest: Ks 2c 3s has the canonical form 2c 3d Kd. */
  lemma CanonicalExample()
    ensures GetCanonical([Card(13, S), Card(2, C), Card(3, S)]) == [Card(2, C), Card(3, D), Card(13, D)]
  {
    var f := [Card(13, S), Card(2, C), Card(3, S)];
    assert Sort3(f) == [Card(2, C), Card(3, S), Card(13, S)];
  }

  /** The flop of the cards at positions i, j, k of the suit-major CARD_NAMES. */
  function DeckFlop(i: nat, j: nat, k: nat): (f: seq<Card>)
    requires i < j < k < 52
    ensures Distinct3(f)
  {
    PokerToolsLegacy.DeckCardIndex(i);
    PokerToolsLegacy.DeckCardIndex(j);
    PokerToolsLegacy.DeckCardIndex(k);
    [PokerToolsLegacy.DeckCard(i), PokerToolsLegacy.DeckCard(j), PokerToolsLegacy.DeckCard(k)]
  }

  /** get_all_canonicals: the canonical forms of combinations(CARDS.values(), r=3), as a set. */
  function GetAllCanonicals(): set<seq<Card>> {
    set i: nat, j: nat, k: nat | i < j < k < 52 :: GetCanonical(DeckFlop(i, j, k))
  }

  /** The positions in the suit-major deck of three different cards, in increasing order. */
  lemma DeckPositions(f: seq<Card>) returns (i: nat, j: nat, k: nat)
    requires Distinct3(f)
    ensures i < j < k < 52 && multiset(DeckFlop(i, j, k)) == multiset(f)
  {
    var v := FlopIndices(f);
    assert forall n :: 0 <= n < 3 ==> 0 <= v[n] < 52 && PokerToolsLegacy.DeckCard(v[n]) == f[n];
    var o := IncreasingOrder(v);
    i, j, k := v[o[0]], v[o[1]], v[o[2]];
    PickedFromDeck(f, v, o);
  }

  /** The deck cards at the positions of a flop's cards, taken in order o, are the flop's cards in order o. */
  lemma PickedFromDeck(f: seq<Card>, v: seq<int>, o: seq<nat>)
    requires |f| == 3 && |v| == 3 && IsOrder3(o)
    requires forall n :: 0 <= n < 3 ==> 0 <= v[n] < 52 && PokerToolsLegacy.DeckCard(v[n]) == f[n]
    requires v[o[0]] < v[o[1]] < v[o[2]]
    ensures DeckFlop(v[o[0]], v[o[1]], v[o[2]]) == Pick(f, o)
  {
  }

  /** The deck positions of the three cards of a flop. */
  lemma FlopIndices(f: seq<Card>) returns (v: seq<int>)
    requires Distinct3(f)
    ensures |v| == 3 && v[0] != v[1] && v[1] != v[2] && v[0] != v[2]
    ensures 0 <= v[0] < 52 && 0 <= v[1] < 52 && 0 <= v[2] < 52
    ensures PokerToolsLegacy.DeckCard(v[0]) == f[0] && PokerToolsLegacy.DeckCard(v[1]) == f[1] && PokerToolsLegacy.DeckCard(v[2]) == f[2]
  {
    v := [PokerToolsLegacy.DeckIndex(f[0]), PokerToolsLegacy.DeckIndex(f[1]), PokerToolsLegacy.DeckIndex(f[2])];
  }

  /**
   * get_all_canonicals holds exactly the flops that are their own canonical
   * form, the same set the packaged module builds from its rank-major deck.
   */
  lemma AllCanonicalsExact(f: seq<Card>)
    ensures f in GetAllCanonicals() <==> Isomorph.IsCanonical(f)
    ensures f in GetAllCanonicals() <==> f in Isomorph.GetAllCanonicals()
  {
    if f in GetAllCanonicals() {
      var i: nat, j: nat, k: nat :| i < j < k < 52 && f == GetCanonical(DeckFlop(i, j, k));
      CanonicalAgrees(DeckFlop(i, j, k));
      Isomorph.CanonicalIdempotent(DeckFlop(i, j, k));
    }
    if Isomorph.IsCanonical(f) {
      var i, j, k := DeckPositions(f);
      CanonicalAgrees(DeckFlop(i, j, k));
      Isomorph.CanonicalOrderFree(DeckFlop(i, j, k), f);
      assert f == GetCanonical(DeckFlop(i, j, k));
    }
    Isomorph.AllCanonicalsExact(f);
  }

  // ---------------------------------------------------------------------------
  // Suit-isomorphs

  /** The inner loop `for suit_2 in seconds if suit != suit_2`, as pairs. */
  function SuitPairsWith(suit: Suit, seconds: seq<Suit>): seq<(Suit, Suit)> {
    if seconds == [] then []
    else (if suit != seconds[0] then [(suit, seconds[0])] else []) + SuitPairsWith(suit, seconds[1..])
  }

  /** `for suit in firsts for suit_2 in seconds if suit != suit_2`, as pairs. */
  function SuitPairsOver(firsts: seq<Suit>, seconds: seq<Suit>): seq<(Suit, Suit)> {
    if firsts == [] then [] else SuitPairsWith(firsts[0], seconds) + SuitPairsOver(firsts[1..], seconds)
  }

  /** One turn of the innermost loop: the triple if its three suits differ, else nothing. */
  function KeptTriple(suit: Suit, suit2: Suit, suit3: Suit): seq<(Suit, Suit, Suit)> {
    if suit != suit2 && suit2 != suit3 && suit != suit3 then [(suit, suit2, suit3)] else []
  }

  /** The innermost loop `for suit_3 in thirds` with the three-way filter, as triples. */
  function SuitTriplesWith(suit: Suit, suit2: Suit, thirds: seq<Suit>): seq<(Suit, Suit, Suit)> {
    if thirds == [] then [] else KeptTriple(suit, suit2, thirds[0]) + SuitTriplesWith(suit, suit2, thirds[1..])
  }

  /** The two inner loops, `for suit_2 in seconds for suit_3 in thirds`, for one first suit. */
  function SuitTriplesFor(suit: Suit, seconds: seq<Suit>, thirds: seq<Suit>): seq<(Suit, Suit, Suit)> {
    if seconds == [] then [] else SuitTriplesWith(suit, seconds[0], thirds) + SuitTriplesFor(suit, seconds[1..], thirds)
  }

  /** The three nested loops, `for suit in firsts for suit_2 in seconds for suit_3 in thirds`. */
  function SuitTriplesOver(firsts: seq<Suit>, seconds: seq<Suit>, thirds: seq<Suit>): seq<(Suit, Suit, Suit)> {
    if firsts == [] then [] else SuitTriplesFor(firsts[0], seconds, thirds) + SuitTriplesOver(firsts[1..], seconds, thirds)
  }

  /** t lists the four suits as SUITS does: c, d, h, s. */
  predicate IsSuits(t: seq<Suit>) {
    |t| == 4 && t[0] == C && t[1] == D && t[2] == H && t[3] == S
  }

  /** A loop over four suits is four turns. */
  lemma FourTurns(t: seq<Suit>)
    requires |t| == 4
    ensures t[1..][0] == t[1] && t[2..][0] == t[2] && t[3..][0] == t[3]
    ensures t[3..][1..] == []
  {
  }

  /** The inner pair loop over four suits, turn by turn. */
  lemma PairsWithFour(a: Suit, t: seq<Suit>)
    requires |t| == 4
    ensures SuitPairsWith(a, t) ==
      (if a != t[0] then [(a, t[0])] else []) + ((if a != t[1] then [(a, t[1])] else []) + ((if a != t[2] then [(a, t[2])] else []) + (if a != t[3] then [(a, t[3])] else [])))
  {
    var t1, t2, t3 := t[1..], t[2..], t[3..];
    FourTurns(t);
    assert t1[1..] == t2 && t2[1..] == t3;
    PairsWithStep(a, t3);
    PairsWithStep(a, t2);
    PairsWithStep(a, t1);
    PairsWithStep(a, t);
  }

  /** One turn of the inner pair loop. */
  lemma PairsWithStep(a: Suit, t: seq<Suit>)
    requires t != []
    ensures SuitPairsWith(a, t) == (if a != t[0] then [(a, t[0])] else []) + SuitPairsWith(a, t[1..])
  {
  }

  /** The outer pair loop over four suits, turn by turn. */
  lemma PairsOverFour(t: seq<Suit>, u: seq<Suit>)
    requires |t| == 4
    ensures SuitPairsOver(t, u) ==
      SuitPairsWith(t[0], u) + (SuitPairsWith(t[1], u) + (SuitPairsWith(t[2], u) + SuitPairsWith(t[3], u)))
  {
    var t1, t2, t3 := t[1..], t[2..], t[3..];
    FourTurns(t);
    assert t1[1..] == t2 && t2[1..] == t3;
    PairsOverStep(t3, u);
    PairsOverStep(t2, u);
    PairsOverStep(t1, u);
    PairsOverStep(t, u);
  }

  /** One turn of the outer pair loop. */
  lemma PairsOverStep(t: seq<Suit>, u: seq<Suit>)
    requires t != []
    ensures SuitPairsOver(t, u) == SuitPairsWith(t[0], u) + SuitPairsOver(t[1..], u)
  {
  }

  /** The inner pair loop with suit = c: the three pairs that start with it. */
  lemma SuitPairsWithClubs(t: seq<Suit>)
    requires IsSuits(t)
    ensures SuitPairsWith(C, t) == [(C, D), (C, H), (C, S)]
  {
    PairsWithFour(C, t);
  }

  /** The inner pair loop with suit = d: the three pairs that start with it. */
  lemma SuitPairsWithDiamonds(t: seq<Suit>)
    requires IsSuits(t)
    ensures SuitPairsWith(D, t) == [(D, C), (D, H), (D, S)]
  {
    PairsWithFour(D, t);
  }

  /** The inner pair loop with suit = h: the three pairs that start with it. */
  lemma SuitPairsWithHearts(t: seq<Suit>)
    requires IsSuits(t)
    ensures SuitPairsWith(H, t) == [(H, C), (H, D), (H, S)]
  {
    PairsWithFour(H, t);
  }

  /** The inner pair loop with suit = s: the three pairs that start with it. */
  lemma SuitPairsWithSpades(t: seq<Suit>)
    requires IsSuits(t)
    ensures SuitPairsWith(S, t) == [(S, C), (S, D), (S, H)]
  {
    PairsWithFour(S, t);
  }

  /** The filtered double loop over SUITS gives the ordered pairs of different suits, in SUITS order. */
  lemma SuitPairLoopsEnumerate()
    ensures SuitPairsOver(Suits, Suits) == PokerTools.SuitPermutations
  {
    SuitPairsOverSuits(Suits);
  }

  lemma SuitPairsOverSuits(t: seq<Suit>)
    requires IsSuits(t)
    ensures SuitPairsOver(t, t) == PokerTools.SuitPermutations
  {
    PairsOverFour(t, t);
    SuitPairsWithClubs(t);
    SuitPairsWithDiamonds(t);
    SuitPairsWithHearts(t);
    SuitPairsWithSpades(t);
  }

  /** The innermost loop over four suits, turn by turn. */
  lemma TriplesWithFour(a: Suit, b: Suit, t: seq<Suit>)
    requires |t| == 4
    ensures SuitTriplesWith(a, b, t) ==
      KeptTriple(a, b, t[0]) + (KeptTriple(a, b, t[1]) + (KeptTriple(a, b, t[2]) + KeptTriple(a, b, t[3])))
  {
    var t1, t2, t3 := t[1..], t[2..], t[3..];
    FourTurns(t);
    assert t1[1..] == t2 && t2[1..] == t3;
    TriplesWithStep(a, b, t3);
    TriplesWithStep(a, b, t2);
    TriplesWithStep(a, b, t1);
    TriplesWithStep(a, b, t);
  }

  /** One turn of the innermost loop. */
  lemma TriplesWithStep(a: Suit, b: Suit, t: seq<Suit>)
    requires t != []
    ensures SuitTriplesWith(a, b, t) == KeptTriple(a, b, t[0]) + SuitTriplesWith(a, b, t[1..])
  {
  }

  /** The innermost loop over SUITS keeps nothing when the first two suits coincide. */
  lemma TriplesWithSame(a: Suit, t: seq<Suit>)
    requires IsSuits(t)
    ensures SuitTriplesWith(a, a, t) == []
  {
    TriplesWithFour(a, a, t);
  }

  /** For two different suits a, b the innermost loop over SUITS keeps the other two, x before y in SUITS order. */
  lemma TriplesWithPair(a: Suit, b: Suit, x: Suit, y: Suit, t: seq<Suit>)
    requires IsSuits(t)
    requires a != b && a != x && a != y && b != x && b != y && SuitIndex(x) < SuitIndex(y)
    ensures SuitTriplesWith(a, b, t) == [(a, b, x), (a, b, y)]
  {
    TriplesWithFour(a, b, t);
  }

  /** The middle loop over four suits, turn by turn. */
  lemma TriplesForFour(a: Suit, t: seq<Suit>, u: seq<Suit>)
    requires |t| == 4
    ensures SuitTriplesFor(a, t, u) ==
      SuitTriplesWith(a, t[0], u) + (SuitTriplesWith(a, t[1], u) + (SuitTriplesWith(a, t[2], u) + SuitTriplesWith(a, t[3], u)))
  {
    var t1, t2, t3 := t[1..], t[2..], t[3..];
    FourTurns(t);
    assert t1[1..] == t2 && t2[1..] == t3;
    TriplesForStep(a, t3, u);
    TriplesForStep(a, t2, u);
    TriplesForStep(a, t1, u);
    TriplesForStep(a, t, u);
  }

  /** One turn of the middle loop. */
  lemma TriplesForStep(a: Suit, t: seq<Suit>, u: seq<Suit>)
    requires t != []
    ensures SuitTriplesFor(a, t, u) == SuitTriplesWith(a, t[0], u) + SuitTriplesFor(a, t[1..], u)
  {
  }

  /** The outer loop over four suits, turn by turn. */
  lemma TriplesOverFour(t: seq<Suit>, u: seq<Suit>, v: seq<Suit>)
    requires |t| == 4
    ensures SuitTriplesOver(t, u, v) ==
      SuitTriplesFor(t[0], u, v) + (SuitTriplesFor(t[1], u, v) + (SuitTriplesFor(t[2], u, v) + SuitTriplesFor(t[3], u, v)))
  {
    var t1, t2, t3 := t[1..], t[2..], t[3..];
    FourTurns(t);
    assert t1[1..] == t2 && t2[1..] == t3;
    TriplesOverStep(t3, u, v);
    TriplesOverStep(t2, u, v);
    TriplesOverStep(t1, u, v);
    TriplesOverStep(t, u, v);
  }

  /** One turn of the outer loop. */
  lemma TriplesOverStep(t: seq<Suit>, u: seq<Suit>, v: seq<Suit>)
    requires t != []
    ensures SuitTriplesOver(t, u, v) == SuitTriplesFor(t[0], u, v) + SuitTriplesOver(t[1..], u, v)
  {
  }

  /** The inner loops with suit = c give the six triples of different suits that start with it. */
  lemma SuitTriplesForClubs(t: seq<Suit>)
    requires IsSuits(t)
    ensures SuitTriplesFor(C, t, t) == [(C, D, H), (C, D, S), (C, H, D), (C, H, S), (C, S, D), (C, S, H)]
  {
    TriplesForFour(C, t, t);
    TriplesWithSame(C, t);
    TriplesWithPair(C, D, H, S, t);
    TriplesWithPair(C, H, D, S, t);
    TriplesWithPair(C, S, D, H, t);
  }

  /** The inner loops with suit = d give the six triples of different suits that start with it. */
  lemma SuitTriplesForDiamonds(t: seq<Suit>)
    requires IsSuits(t)
    ensures SuitTriplesFor(D, t, t) == [(D, C, H), (D, C, S), (D, H, C), (D, H, S), (D, S, C), (D, S, H)]
  {
    TriplesForFour(D, t, t);
    TriplesWithSame(D, t);
    TriplesWithPair(D, C, H, S, t);
    TriplesWithPair(D, H, C, S, t);
    TriplesWithPair(D, S, C, H, t);
  }

  /** The inner loops with suit = h give the six triples of different suits that start with it. */
  lemma SuitTriplesForHearts(t: seq<Suit>)
    requires IsSuits(t)
    ensures SuitTriplesFor(H, t, t) == [(H, C, D), (H, C, S), (H, D, C), (H, D, S), (H, S, C), (H, S, D)]
  {
    TriplesForFour(H, t, t);
    TriplesWithSame(H, t);
    TriplesWithPair(H, C, D, S, t);
    TriplesWithPair(H, D, C, S, t);
    TriplesWithPair(H, S, C, D, t);
  }

  /** The inner loops with suit = s give the six triples of different suits that start with it. */
  lemma SuitTriplesForSpades(t: seq<Suit>)
    requires IsSuits(t)
    ensures SuitTriplesFor(S, t, t) == [(S, C, D), (S, C, H), (S, D, C), (S, D, H), (S, H, C), (S, H, D)]
  {
    TriplesForFour(S, t, t);
    TriplesWithSame(S, t);
    TriplesWithPair(S, C, D, H, t);
    TriplesWithPair(S, D, C, H, t);
    TriplesWithPair(S, H, C, D, t);
  }

  /** Four blocks of six that are the four blocks of t make up t. */
  lemma FourBlocks<T>(a: seq<T>, b: seq<T>, c: seq<T>, d: seq<T>, t: seq<T>)
    requires |t| == 24 && a == t[0..6] && b == t[6..12] && c == t[12..18] && d == t[18..24]
    ensures a + (b + (c + d)) == t
  {
    assert t == t[0..6] + (t[6..12] + (t[12..18] + t[18..24]));
  }

  /** SuitTriples in four blocks of six, one per first suit. */
  lemma SuitTriplesBlocks()
    ensures Isomorph.SuitTriples[0..6] == [(C, D, H), (C, D, S), (C, H, D), (C, H, S), (C, S, D), (C, S, H)]
    ensures Isomorph.SuitTriples[6..12] == [(D, C, H), (D, C, S), (D, H, C), (D, H, S), (D, S, C), (D, S, H)]
    ensures Isomorph.SuitTriples[12..18] == [(H, C, D), (H, C, S), (H, D, C), (H, D, S), (H, S, C), (H, S, D)]
    ensures Isomorph.SuitTriples[18..24] == [(S, C, D), (S, C, H), (S, D, C), (S, D, H), (S, H, C), (S, H, D)]
  {
  }

  /** The filtered triple loop over SUITS gives the ordered triples of different suits, in SUITS order. */
  lemma SuitTripleLoopsEnumerate()
    ensures SuitTriplesOver(Suits, Suits, Suits) == Isomorph.SuitTriples
  {
    SuitTriplesOverSuits(Suits);
  }

  lemma SuitTriplesOverSuits(t: seq<Suit>)
    requires IsSuits(t)
    ensures SuitTriplesOver(t, t, t) == Isomorph.SuitTriples
  {
    TriplesOverFour(t, t, t);
    SuitTriplesForClubs(t);
    SuitTriplesForDiamonds(t);
    SuitTriplesForHearts(t);
    SuitTriplesForSpades(t);
    SuitTriplesBlocks();
    FourBlocks(SuitTriplesFor(C, t, t), SuitTriplesFor(D, t, t), SuitTriplesFor(H, t, t), SuitTriplesFor(S, t, t),
               Isomorph.SuitTriples);
  }

  /** get_suit_isomorphs: the flop, in its own order, under every assignment of suits that keeps its pattern. */
  function GetSuitIsomorphs(flop: seq<Card>): (r: seq<seq<Card>>)
    requires |flop| == 3
  {
    var card1, card2, card3 := flop[0], flop[1], flop[2];
    if card1.suit == card2.suit && card2.suit == card3.suit then
      seq(4, i requires 0 <= i < 4 => [card1.WithSuit(Suits[i]), card2.WithSuit(Suits[i]), card3.WithSuit(Suits[i])])
    else if card1.suit == card2.suit && card2.suit != card3.suit then
      PairIsomorphs(flop, SuitPairsOver(Suits, Suits), Isomorph.AAB)
    else if card1.suit != card2.suit && card2.suit == card3.suit then
      PairIsomorphs(flop, SuitPairsOver(Suits, Suits), Isomorph.ABB)
    else if card1.suit == card3.suit && card3.suit != card2.suit then
      PairIsomorphs(flop, SuitPairsOver(Suits, Suits), Isomorph.ABA)
    else
      TripleIsomorphs(flop, SuitTriplesOver(Suits, Suits, Suits))
  }

  /** One comprehension over pairs (A, B) of suits, the cards suited as the pattern says. */
  function PairIsomorphs(flop: seq<Card>, pairs: seq<(Suit, Suit)>, pattern: Isomorph.Pattern): seq<seq<Card>>
    requires |flop| == 3
  {
    seq(|pairs|, i requires 0 <= i < |pairs| =>
      var a, b := pairs[i].0, pairs[i].1;
      match pattern
      case AAB => [flop[0].WithSuit(a), flop[1].WithSuit(a), flop[2].WithSuit(b)]
      case ABB => [flop[0].WithSuit(a), flop[1].WithSuit(b), flop[2].WithSuit(b)]
      case _ => [flop[0].WithSuit(a), flop[1].WithSuit(b), flop[2].WithSuit(a)])
  }

  /** The comprehension over triples (A, B, C) of suits, one per card. */
  function TripleIsomorphs(flop: seq<Card>, triples: seq<(Suit, Suit, Suit)>): seq<seq<Card>>
    requires |flop| == 3
  {
    seq(|triples|, i requires 0 <= i < |triples| =>
      [flop[0].WithSuit(triples[i].0), flop[1].WithSuit(triples[i].1), flop[2].WithSuit(triples[i].2)])
  }

  /** The list version lists the same isomorphs as the packaged module, in the same order. */
  lemma SuitIsomorphsAgree(flop: seq<Card>)
    requires |flop| == 3
    ensures GetSuitIsomorphs(flop) == Isomorph.GetSuitIsomorphs(flop)
  {
    var p := Isomorph.FlopPattern(flop);
    if p == Isomorph.AAA {
      var r, q := GetSuitIsomorphs(flop), Isomorph.GetSuitIsomorphs(flop);
      assert |r| == |q|;
      forall i | 0 <= i < |r| ensures r[i] == q[i] {
      }
    } else if p == Isomorph.ABC {
      TripleIsomorphsAgree(flop);
    } else {
      PairIsomorphsAgree(flop, p);
    }
  }

  /** In the three two-suit patterns the comprehension over pairs lists the packaged isomorphs. */
  lemma PairIsomorphsAgree(flop: seq<Card>, p: Isomorph.Pattern)
    requires |flop| == 3 && Isomorph.FlopPattern(flop) == p && p != Isomorph.AAA && p != Isomorph.ABC
    ensures PairIsomorphs(flop, SuitPairsOver(Suits, Suits), p) == Isomorph.GetSuitIsomorphs(flop)
  {
    SuitPairLoopsEnumerate();
    var r, q := PairIsomorphs(flop, PokerTools.SuitPermutations, p), Isomorph.GetSuitIsomorphs(flop);
    assert |r| == |q|;
    forall i | 0 <= i < |r| ensures r[i] == q[i] {
    }
  }

  /** With three suits the comprehension over triples lists the packaged isomorphs. */
  lemma TripleIsomorphsAgree(flop: seq<Card>)
    requires |flop| == 3 && Isomorph.FlopPattern(flop) == Isomorph.ABC
    ensures TripleIsomorphs(flop, SuitTriplesOver(Suits, Suits, Suits)) == Isomorph.GetSuitIsomorphs(flop)
  {
    var q := Isomorph.GetSuitIsomorphs(flop);
    assert TripleIsomorphs(flop, Isomorph.SuitTriples) == q by {
      PackageTripleIsomorphs(flop);
      TripleIsomorphsResuit(flop, Isomorph.SuitTriples, q);
    }
    SuitTripleLoopsEnumerate();
  }

  /** The packaged isomorphs of a flop of three suits, one per entry of SuitTriples. */
  lemma PackageTripleIsomorphs(flop: seq<Card>)
    requires |flop| == 3 && Isomorph.FlopPattern(flop) == Isomorph.ABC
    ensures var q, t := Isomorph.GetSuitIsomorphs(flop), Isomorph.SuitTriples;
      |q| == |t| && forall i :: 0 <= i < |q| ==> q[i] == Isomorph.Resuit(flop, t[i].0, t[i].1, t[i].2)
  {
  }

  /** A list of isomorphs that suits the flop by each triple in turn is the comprehension over triples. */
  lemma TripleIsomorphsResuit(flop: seq<Card>, t: seq<(Suit, Suit, Suit)>, q: seq<seq<Card>>)
    requires |flop| == 3 && |q| == |t|
    requires forall i :: 0 <= i < |t| ==> q[i] == Isomorph.Resuit(flop, t[i].0, t[i].1, t[i].2)
    ensures TripleIsomorphs(flop, t) == q
  {
  }


  /**
   * get_suit_isomorphs gives 4 flops for one suit, 24 for three and 12
   * otherwise, none twice: exactly the flops with the same ranks in the same
   * places and the same suit pattern, the flop itself among them, and all
   * with the flop's canonical form.
   */
  lemma SuitIsomorphsExact(flop: seq<Card>, g: seq<Card>)
    requires |flop| == 3
    ensures |GetSuitIsomorphs(flop)| ==
      match Isomorph.FlopPattern(flop) case AAA => 4 case ABC => 24 case _ => 12
    ensures Sorting.NoDuplicates(GetSuitIsomorphs(flop))
    ensures flop in GetSuitIsomorphs(flop)
    ensures g in GetSuitIsomorphs(flop) <==> Isomorph.SameShape(flop, g)
    ensures Distinct3(flop) && g in GetSuitIsomorphs(flop) ==> GetCanonical(g) == GetCanonical(flop)
  {
    SuitIsomorphsAgree(flop);
    Isomorph.SuitIsomorphsExact(flop, g);
    Isomorph.SuitIsomorphsDistinct(flop);
    if Distinct3(flop) && g in GetSuitIsomorphs(flop) {
      Isomorph.SuitIsomorphsShareCanonical(flop, g);
      CanonicalAgrees(flop);
      CanonicalAgrees(g);
    }
  }

  /** The doctests: As 4s Ts has the monotone isomorphs in clubs, diamonds, hearts, spades; Kd Qh 8c has 24. */
  lemma SuitIsomorphsExample()
    ensures GetSuitIsomorphs([Card(14, S), Card(4, S), Card(10, S)]) ==
      [[Card(14, C), Card(4, C), Card(10, C)], [Card(14, D), Card(4, D), Card(10, D)],
       [Card(14, H), Card(4, H), Card(10, H)], [Card(14, S), Card(4, S), Card(10, S)]]
    ensures |GetSuitIsomorphs([Card(13, D), Card(12, H), Card(8, C)])| == 24
  {
    SuitIsomorphsAgree([Card(14, S), Card(4, S), Card(10, S)]);
    SuitIsomorphsAgree([Card(13, D), Card(12, H), Card(8, C)]);
    Isomorph.SuitIsomorphsExample();
  }

  // ---------------------------------------------------------------------------
  // Translation dict

  /**
   * get_translation_dict: the suits of the sorted flop sent to the suits of
   * its canonical form, built by the same dict literals as the packaged
   * module (Isomorph.SuitTranslation).
   */
  function GetTranslationDict(flop: seq<Card>): (d: map<Suit, Suit>)
    requires |flop| == 3
  {
    var f := Sort3(flop);
    var k := GetCanonical(f);
    CanonicalAgrees(f);
    Isomorph.CanonicalSuits(f);
    Isomorph.SuitTranslation(f[0].suit, f[1].suit, f[2].suit, k[0].suit, k[1].suit, k[2].suit)
  }

  /**
   * The dict is the packaged module's: total, a renaming that turns the
   * sorted flop into its canonical form outside the two tie-breaks, and not
   * a renaming with a paired top under ABA (Isomorph.PairedTopNotRenaming).
   */
  lemma TranslationDictAgrees(flop: seq<Card>)
    requires |flop| == 3
    ensures GetTranslationDict(flop) == Isomorph.GetTranslationDict(flop)
    ensures Isomorph.Total(GetTranslationDict(flop))
    ensures !Isomorph.PairedTieBreak(Sort3(flop)) ==>
      Isomorph.IsPermutation(GetTranslationDict(flop)) &&
      Isomorph.Relabel(Sort3(flop), GetTranslationDict(flop)) == GetCanonical(flop)
  {
    CanonicalAgrees(Sort3(flop));
    CanonicalAgrees(flop);
    Isomorph.TranslationDictTotal(flop);
    if !Isomorph.PairedTieBreak(Sort3(flop)) {
      Isomorph.TranslationDictRenames(flop);
    }
  }

  /** One suit: the flop's suit and clubs trade places and the other two suits stay where they are. */
  lemma TranslationDictOneSuit(flop: seq<Card>)
    requires |flop| == 3 && Isomorph.FlopPattern(Sort3(flop)) == Isomorph.AAA
    ensures var s1, d := Sort3(flop)[0].suit, GetTranslationDict(flop);
      Isomorph.IsPermutation(d) && d[s1] == C && d[C] == s1 && forall s :: s != C && s != s1 ==> d[s] == s
  {
    var f := Sort3(flop);
    var s1 := f[0].suit;
    assert GetTranslationDict(flop) == Isomorph.SuitTranslation(s1, s1, s1, C, C, C) by {
      Isomorph.CanonicalSuits(f);
      Sort3OfSorted(f);
    }
    OneSuitTranslation(s1);
  }

  /** The dict for three cards of suit s1: s1 and c change places. */
  lemma OneSuitTranslation(s1: Suit)
    ensures var d := Isomorph.SuitTranslation(s1, s1, s1, C, C, C);
      Isomorph.IsPermutation(d) && d[s1] == C && d[C] == s1 && forall s :: s != C && s != s1 ==> d[s] == s
  {
    var d := Isomorph.SuitTranslation(s1, s1, s1, C, C, C);
    if s1 == C {
      Isomorph.IdentityPermutation();
    } else {
      var xs, ys := Isomorph.PairsAAA(s1, s1, s1, C, C, C);
      Isomorph.PairsUpPermutation(d, xs, ys);
      forall s | s != C && s != s1 ensures d[s] == s {
        var i := Isomorph.PositionIn(xs, s);
      }
    }
  }


  /**
   * Three suits: the dict is a renaming that sends the suits of the sorted
   * flop to clubs, diamonds and hearts in turn, and the one suit the flop
   * does not use to spades, the one its canonical form does not use.
   */
  lemma TranslationDictThreeSuits(flop: seq<Card>)
    requires |flop| == 3 && Isomorph.FlopPattern(Sort3(flop)) == Isomorph.ABC
    ensures var f, d := Sort3(flop), GetTranslationDict(flop);
      Isomorph.IsPermutation(d) && d[f[0].suit] == C && d[f[1].suit] == D && d[f[2].suit] == H &&
      forall s :: s != f[0].suit && s != f[1].suit && s != f[2].suit ==> d[s] == S
  {
    var f := Sort3(flop);
    assert GetTranslationDict(flop) == Isomorph.SuitTranslation(f[0].suit, f[1].suit, f[2].suit, C, D, H) by {
      Isomorph.CanonicalSuits(f);
      Sort3OfSorted(f);
    }
    ThreeSuitTranslation(f[0].suit, f[1].suit, f[2].suit);
  }

  /** The dict for three different suits a, b, c: they go to c, d, h and the fourth suit to s. */
  lemma ThreeSuitTranslation(a: Suit, b: Suit, c: Suit)
    requires a != b && b != c && a != c
    ensures var d := Isomorph.SuitTranslation(a, b, c, C, D, H);
      Isomorph.IsPermutation(d) && d[a] == C && d[b] == D && d[c] == H &&
      forall s :: s != a && s != b && s != c ==> d[s] == S
  {
    var d := Isomorph.SuitTranslation(a, b, c, C, D, H);
    if (a, b, c) == (C, D, H) {
      Isomorph.IdentityPermutation();
    } else {
      var xs, ys := Isomorph.PairsABC(a, b, c, C, D, H);
      Isomorph.PairsUpPermutation(d, xs, ys);
      forall s | s != a && s != b && s != c ensures d[s] == S {
        var i := Isomorph.PositionIn(xs, s);
        var j := Isomorph.PositionIn(ys, S);
      }
    }
  }


  /** The doctest: 6h 2d Qd has the canonical form 2c 6d Qc and the dict {c: h, d: c, h: d, s: s}. */
  lemma TranslationDictExample(flop: seq<Card>)
    requires flop == [Card(6, H), Card(2, D), Card(12, D)]
    ensures GetCanonical(flop) == [Card(2, C), Card(6, D), Card(12, C)]
    ensures var d := GetTranslationDict(flop); Isomorph.Total(d) && d[C] == H && d[D] == C && d[H] == D && d[S] == S
  {
    assert GetCanonical(flop) == [Card(2, C), Card(6, D), Card(12, C)] by {
      CanonicalAgrees(flop);
      Isomorph.TranslationDictExample(flop);
    }
    assert GetTranslationDict(flop) == Isomorph.GetTranslationDict(flop) by {
      TranslationDictAgrees(flop);
    }
    Isomorph.TranslationDictExample(flop);
  }

  /** The module doctest: 6s 8d 7c has the canonical form 6c 7d 8h and the dict {c: d, d: h, h: s, s: c}. */
  lemma ThreeSuitsExample(flop: seq<Card>)
    requires flop == [Card(6, S), Card(8, D), Card(7, C)]
    ensures GetCanonical(flop) == [Card(6, C), Card(7, D), Card(8, H)]
    ensures var d := GetTranslationDict(flop); Isomorph.Total(d) && d[C] == D && d[D] == H && d[H] == S && d[S] == C
  {
    ThreeSuitsSorted(flop);
    ThreeSuitsCanonical(flop);
    TranslationDictThreeSuits(flop);
  }

  lemma ThreeSuitsSorted(flop: seq<Card>)
    requires flop == [Card(6, S), Card(8, D), Card(7, C)]
    ensures Sort3(flop) == [Card(6, S), Card(7, C), Card(8, D)]
  {
  }

  lemma ThreeSuitsCanonical(flop: seq<Card>)
    requires flop == [Card(6, S), Card(8, D), Card(7, C)]
    ensures GetCanonical(flop) == [Card(6, C), Card(7, D), Card(8, H)]
  {
    ThreeSuitsSorted(flop);
    Sort3OfSorted([Card(6, S), Card(7, C), Card(8, D)]);
    CanonicalAgrees(flop);
  }

  /** The module doctest: Qs Qd 4d has the canonical form 4c Qc Qd and the dict {c: h, d: c, h: s, s: d}. */
  lemma PairedBottomSuitExample(flop: seq<Card>)
    requires flop == [Card(12, S), Card(12, D), Card(4, D)]
    ensures GetCanonical(flop) == [Card(4, C), Card(12, C), Card(12, D)]
    ensures var d := GetTranslationDict(flop); Isomorph.Total(d) && d[C] == H && d[D] == C && d[H] == S && d[S] == D
  {
    PairedBottomSuitCanonical(flop);
    PairedBottomSuitSuits(flop);
    PairedBottomSuitDict();
  }

  /** Qs Qd 4d sorts to 4d Qd Qs, whose canonical form is 4c Qc Qd. */
  lemma PairedBottomSuitCanonical(flop: seq<Card>)
    requires flop == [Card(12, S), Card(12, D), Card(4, D)]
    ensures Sort3(flop) == [Card(4, D), Card(12, D), Card(12, S)]
    ensures GetCanonical(flop) == [Card(4, C), Card(12, C), Card(12, D)]
  {
    PairedBottomSorted(flop);
    Sort3OfSorted([Card(4, D), Card(12, D), Card(12, S)]);
    CanonicalAgrees(flop);
  }

  lemma PairedBottomSorted(flop: seq<Card>)
    requires flop == [Card(12, S), Card(12, D), Card(4, D)]
    ensures Sort3(flop) == [Card(4, D), Card(12, D), Card(12, S)]
  {
  }

  /** The dict of Qs Qd 4d is the one for sorted suits d, d, s and canonical suits c, c, d. */
  lemma PairedBottomSuitSuits(flop: seq<Card>)
    requires flop == [Card(12, S), Card(12, D), Card(4, D)]
    ensures GetTranslationDict(flop) == Isomorph.SuitTranslation(D, D, S, C, C, D)
  {
    PairedBottomSuitCanonical(flop);
    TranslationDictAgrees(flop);
    Isomorph.DictOfSuits(flop, D, D, S, C, C, D);
  }

  /** The dict of a sorted flop with suits d, d, s and canonical suits c, c, d. */
  lemma PairedBottomSuitDict()
    ensures var d := Isomorph.SuitTranslation(D, D, S, C, C, D);
      Isomorph.Total(d) && d[C] == H && d[D] == C && d[H] == S && d[S] == D
  {
    var xs, ys := Isomorph.PairsAAB(D, D, S, C, C, D);
    assert Isomorph.Unused({D, D, S}) == [C, H];
    assert Isomorph.Unused({C, C, D}) == [H, S];
    Isomorph.PairsUpTotal(Isomorph.SuitTranslation(D, D, S, C, C, D), xs, ys);
  }
}
