/**
 * Canonical forms of the flop (the packaged examples/isomorph module).
 *
 * Suits carry no value in hold'em, and neither does the order of the three
 * flop cards. get_canonical picks one representative per class of flops that
 * differ only by those two symmetries: it sorts the flop, reads the
 * suit-equality pattern of the sorted cards (AAA, AAB, ABA, ABB, ABC) and
 * renames the suits to c, d, h in order, with two tie-break rules for paired
 * ranks. get_suit_isomorphs lists every renaming of the suits of a flop, and
 * get_translation_dict builds the suit-to-suit map from a flop to its
 * canonical form.
 */
module Isomorph {
  import opened Cards
  import opened PokerTools
  import opened Sorting

  // ---------------------------------------------------------------------------
  // Suit patterns

  /** The five ways three suits can coincide, named by a letter per distinct suit. */
  datatype Pattern = AAA | AAB | ABA | ABB | ABC

  /** The pattern of three suits, tested as the elif chains of get_canonical and get_suit_isomorphs do. */
  function PatternOf(s1: Suit, s2: Suit, s3: Suit): (p: Pattern)
    ensures p == AAA <==> s1 == s2 && s2 == s3
    ensures p == AAB <==> s1 == s2 && s2 != s3
    ensures p == ABA <==> s1 == s3 && s1 != s2
    ensures p == ABB <==> s1 != s2 && s2 == s3
    ensures p == ABC <==> s1 != s2 && s2 != s3 && s1 != s3
  {
    if s1 == s2 && s2 == s3 then AAA
    else if s1 == s2 && s2 != s3 then AAB
    else if s1 == s3 && s3 != s2 then ABA
    else if s1 != s2 && s2 == s3 then ABB
    else ABC
  }

  function FlopPattern(f: seq<Card>): Pattern
    requires |f| == 3
  {
    PatternOf(f[0].suit, f[1].suit, f[2].suit)
  }

  // ---------------------------------------------------------------------------
  // Finding the canonical version

  /** get_canonical: sort, then rename the suits of the pattern to c, d, h. */
  function GetCanonical(flop: seq<Card>): (r: seq<Card>)
    requires |flop| == 3
    ensures |r| == 3
  {
    RenameSorted(Sort3(flop))
  }

  /** The renaming step of get_canonical, on the sorted flop. */
  function RenameSorted(s: seq<Card>): (r: seq<Card>)
    requires |s| == 3
    ensures |r| == 3
  {
    var c1, c2, c3 := s[0], s[1], s[2];
    match PatternOf(c1.suit, c2.suit, c3.suit)
    case AAA => [c1.WithSuit(C), c2.WithSuit(C), c3.WithSuit(C)]
    case AAB => [c1.WithSuit(C), c2.WithSuit(C), c3.WithSuit(D)]
    case ABA =>
      // The renaming can leave the paired top cards out of order (Jc Qd Qc), so sort again.
      Sort3([c1.WithSuit(C), c2.WithSuit(D), c3.WithSuit(C)])
    case ABB =>
      // A paired bottom (2c 2d 8d) is the same flop as 2d 2c 8d, pattern ABA: give the third card a club.
      if c1.rank == c2.rank then [c1.WithSuit(C), c2.WithSuit(D), c3.WithSuit(C)]
      else [c1.WithSuit(C), c2.WithSuit(D), c3.WithSuit(D)]
    case ABC => [c1.WithSuit(C), c2.WithSuit(D), c3.WithSuit(H)]
  }

  /**
   * The canonical form keeps the ranks of the sorted flop, uses clubs first
   * and never spades, and of three different cards it makes three different
   * cards in sorted order.
   */
  lemma CanonicalForm(flop: seq<Card>)
    requires |flop| == 3
    ensures var r := GetCanonical(flop);
      multiset([r[0].rank, r[1].rank, r[2].rank]) ==
      multiset([Sort3(flop)[0].rank, Sort3(flop)[1].rank, Sort3(flop)[2].rank])
    ensures var r := GetCanonical(flop); r[0].suit == C && r[1].suit != S && r[2].suit != S
    ensures Distinct3(flop) ==> Sorted3(GetCanonical(flop)) && Distinct3(GetCanonical(flop))
  {
    RenamedForm(Sort3(flop));
  }

  lemma RenamedForm(s: seq<Card>)
    requires |s| == 3 && Sorted3(s)
    ensures var r := RenameSorted(s);
      multiset([r[0].rank, r[1].rank, r[2].rank]) == multiset([s[0].rank, s[1].rank, s[2].rank])
    ensures var r := RenameSorted(s); r[0].suit == C && r[1].suit != S && r[2].suit != S
    ensures Distinct3(s) ==> Sorted3(RenameSorted(s)) && Distinct3(RenameSorted(s))
  {
    if FlopPattern(s) == ABA {
      RenamedPairedTop(s);
    } else {
      RenamedDirectly(s);
    }
  }

  /** Outside the paired-top branch the renaming keeps the order of the cards. */
  lemma RenamedDirectly(s: seq<Card>)
    requires |s| == 3 && Sorted3(s) && FlopPattern(s) != ABA
    ensures var r := RenameSorted(s);
      [r[0].rank, r[1].rank, r[2].rank] == [s[0].rank, s[1].rank, s[2].rank]
    ensures var r := RenameSorted(s); r[0].suit == C && r[1].suit != S && r[2].suit != S
    ensures Distinct3(s) ==> Sorted3(RenameSorted(s)) && Distinct3(RenameSorted(s))
  {
  }

  /** The paired-top branch sorts again: same cards as the renamed flop. */
  lemma RenamedPairedTop(s: seq<Card>)
    requires |s| == 3 && Sorted3(s) && FlopPattern(s) == ABA
    ensures var r := RenameSorted(s);
      multiset([r[0].rank, r[1].rank, r[2].rank]) == multiset([s[0].rank, s[1].rank, s[2].rank])
    ensures var r := RenameSorted(s); r[0].suit == C && r[1].suit != S && r[2].suit != S
    ensures Distinct3(s) ==> Sorted3(RenameSorted(s)) && Distinct3(RenameSorted(s))
  {
    var t := [s[0].WithSuit(C), s[1].WithSuit(D), s[2].WithSuit(C)];
    assert RenameSorted(s) == Sort3(t);
    assert multiset(Sort3(t)) == multiset(t);
    assert Distinct3(s) ==> Distinct3(t);
  }

  /** A flop that is its own canonical form. */
  predicate IsCanonical(f: seq<Card>) {
    Distinct3(f) && GetCanonical(f) == f
  }

  // ---------------------------------------------------------------------------
  // Suit relabellings

  /** A suit map defined on every suit, such as the dicts of get_translation_dict. */
  predicate Total(p: map<Suit, Suit>) {
    forall s: Suit :: s in p
  }

  /** A renaming of the suits: total and one-to-one. */
  predicate IsPermutation(p: map<Suit, Suit>) {
    Total(p) && forall a: Suit, b: Suit :: p[a] == p[b] ==> a == b
  }

  /** Every card of f with its suit renamed by p. */
  function Relabel(f: seq<Card>, p: map<Suit, Suit>): (r: seq<Card>)
    requires Total(p)
    ensures |r| == |f|
    ensures forall i :: 0 <= i < |f| ==> r[i] == f[i].WithSuit(p[f[i].suit])
  {
    seq(|f|, i requires 0 <= i < |f| => f[i].WithSuit(p[f[i].suit]))
  }

  /** Two flops that agree position by position on ranks and on which suits coincide. */
  predicate SameShape(x: seq<Card>, y: seq<Card>) {
    |x| == 3 && |y| == 3 &&
    x[0].rank == y[0].rank && x[1].rank == y[1].rank && x[2].rank == y[2].rank &&
    (x[0].suit == x[1].suit <==> y[0].suit == y[1].suit) &&
    (x[0].suit == x[2].suit <==> y[0].suit == y[2].suit) &&
    (x[1].suit == x[2].suit <==> y[1].suit == y[2].suit)
  }

  /** Two flops of the same class: some renaming of the suits turns one into the other, up to order. */
  ghost predicate Isomorphic(f: seq<Card>, g: seq<Card>) {
    exists p :: IsPermutation(p) && multiset(Relabel(f, p)) == multiset(g)
  }

  /** Renaming the suits keeps the shape of a flop and its distinctness. */
  lemma RelabelKeepsShape(f: seq<Card>, p: map<Suit, Suit>)
    requires |f| == 3 && IsPermutation(p)
    ensures SameShape(f, Relabel(f, p))
    ensures Distinct3(f) ==> Distinct3(Relabel(f, p))
  {
  }

  /** A flop with the shape of a flop of three different cards has three different cards. */
  lemma SameShapeDistinct(x: seq<Card>, y: seq<Card>)
    requires Distinct3(x) && SameShape(x, y)
    ensures Distinct3(y)
  {
  }

  /** Taking the cards of two flops of the same shape in the same order gives two flops of the same shape. */
  lemma PickKeepsShape(x: seq<Card>, y: seq<Card>, o: seq<nat>)
    requires SameShape(x, y) && IsOrder3(o)
    ensures SameShape(Pick(x, o), Pick(y, o))
  {
    PickedShape(x, y, o[0], o[1], o[2]);
  }

  lemma PickedShape(x: seq<Card>, y: seq<Card>, i: nat, j: nat, k: nat)
    requires SameShape(x, y) && i < 3 && j < 3 && k < 3
    ensures SameShape([x[i], x[j], x[k]], [y[i], y[j], y[k]])
  {
    SameSuitsAt(x, y, i, j);
    SameSuitsAt(x, y, i, k);
    SameSuitsAt(x, y, j, k);
  }

  lemma SameSuitsAt(x: seq<Card>, y: seq<Card>, i: nat, j: nat)
    requires SameShape(x, y) && i < 3 && j < 3
    ensures x[i].rank == y[i].rank
    ensures x[i].suit == x[j].suit <==> y[i].suit == y[j].suit
  {
  }

  /** get_canonical depends only on which three cards the flop holds (it sorts first). */
  lemma CanonicalOrderFree(f: seq<Card>, g: seq<Card>)
    requires |f| == 3 && |g| == 3 && multiset(f) == multiset(g)
    ensures GetCanonical(f) == GetCanonical(g)
  {
    Sort3OrderFree(f, g);
  }

  /** A sorted distinct flop and a flop of its shape that is sorted too have the same canonical form. */
  lemma SortedPairCanonical(x: seq<Card>, y: seq<Card>)
    requires Sorted3(x) && Distinct3(x) && SameShape(x, y) && Sorted3(y)
    ensures GetCanonical(y) == GetCanonical(x)
  {
    Sort3OfSorted(x);
    Sort3OfSorted(y);
  }

  /**
   * The core of the invariance under renaming: a sorted distinct flop and
   * any flop of its shape have the same canonical form. Sorting the other
   * flop can only swap cards of equal rank, and each swap turns one of the
   * patterns ABA, ABB, AAB into another that the tie-break rules send to
   * the same canonical form.
   */
  lemma SortedShapeInvariant(x: seq<Card>, y: seq<Card>)
    requires Sorted3(x) && Distinct3(x) && SameShape(x, y)
    ensures GetCanonical(y) == GetCanonical(x)
  {
    SameShapeDistinct(x, y);
    var z := Sort3(y);
    CanonicalOrderFree(y, z);
    if x[0].rank < x[1].rank < x[2].rank {
      assert z == y by { Sort3OfSorted(y); }
      SortedPairCanonical(x, y);
    } else if x[0].rank == x[1].rank < x[2].rank {
      if Sorted3(y) {
        SortedPairCanonical(x, y);
      } else {
        CanonicalOrderFree(y, [y[1], y[0], y[2]]);
        LowPairSwapped(x, [y[1], y[0], y[2]]);
      }
    } else if x[0].rank < x[1].rank == x[2].rank {
      if Sorted3(y) {
        SortedPairCanonical(x, y);
      } else {
        CanonicalOrderFree(y, [y[0], y[2], y[1]]);
        HighPairSwapped(x, [y[0], y[2], y[1]]);
      }
    } else {
      Trips(x, y);
    }
  }

  /** Sorted flops x1 x2 y and x2' x1' y' with a paired bottom and the same suit pattern otherwise. */
  lemma LowPairSwapped(x: seq<Card>, z: seq<Card>)
    requires Sorted3(x) && Distinct3(x) && x[0].rank == x[1].rank < x[2].rank
    requires Sorted3(z) && SameShape(x, [z[1], z[0], z[2]])
    ensures GetCanonical(z) == GetCanonical(x)
  {
    Sort3OfSorted(x);
    Sort3OfSorted(z);
  }

  /** Sorted flops x y1 y2 and x' y2' y1' with a paired top and the same suit pattern otherwise. */
  lemma HighPairSwapped(x: seq<Card>, z: seq<Card>)
    requires Sorted3(x) && Distinct3(x) && x[0].rank < x[1].rank == x[2].rank
    requires Sorted3(z) && SameShape(x, [z[0], z[2], z[1]])
    ensures GetCanonical(z) == GetCanonical(x)
  {
    Sort3OfSorted(x);
    Sort3OfSorted(z);
    HighPairRenamed(x, z);
  }

  /** The renaming step of HighPairSwapped: the flops are already sorted. */
  lemma HighPairRenamed(x: seq<Card>, z: seq<Card>)
    requires Sorted3(x) && Distinct3(x) && x[0].rank < x[1].rank == x[2].rank
    requires Sorted3(z) && SameShape(x, [z[0], z[2], z[1]])
    ensures RenameSorted(z) == RenameSorted(x)
  {
    var p := FlopPattern(x);
    if p == AAB {
      HighPairRenamedAAB(x, z);
    } else if p == ABA {
      HighPairRenamedAAB(z, x);
    }
  }

  /** The case where the low card shares its suit with the first top card of x. */
  lemma HighPairRenamedAAB(x: seq<Card>, z: seq<Card>)
    requires |x| == 3 && x[0].rank < x[1].rank == x[2].rank
    requires |z| == 3 && SameShape(x, [z[0], z[2], z[1]]) && FlopPattern(x) == AAB
    ensures RenameSorted(z) == RenameSorted(x)
  {
    PairedTopResorted(z[0], z[1], z[2]);
  }

  /** Renaming a paired top a b c to clubs, diamonds, clubs and sorting again puts the club top card first. */
  lemma PairedTopResorted(a: Card, b: Card, c: Card)
    requires a.rank < b.rank == c.rank
    ensures Sort3([a.WithSuit(C), b.WithSuit(D), c.WithSuit(C)]) == [a.WithSuit(C), b.WithSuit(C), c.WithSuit(D)]
  {
    var t, u := [a.WithSuit(C), b.WithSuit(D), c.WithSuit(C)], [a.WithSuit(C), b.WithSuit(C), c.WithSuit(D)];
    assert t == [u[0], u[2], u[1]];
    Swap12(u[0], u[1], u[2]);
    Sort3OrderFree(t, u);
    assert Sorted3(u);
    Sort3OfSorted(u);
  }

  /** Three cards of one rank have three suits, and any two such flops of that rank agree. */
  lemma Trips(x: seq<Card>, y: seq<Card>)
    requires Sorted3(x) && Distinct3(x) && SameShape(x, y) && x[0].rank == x[1].rank == x[2].rank
    ensures GetCanonical(y) == GetCanonical(x)
  {
    SameShapeDistinct(x, y);
    Sort3OfSorted(x);
    var z := Sort3(y);
    assert z[0].rank == z[1].rank == z[2].rank == x[0].rank;
    Sort3OfSorted(z);
    CanonicalOrderFree(y, z);
  }

  /** A distinct flop and any flop of its shape, in any order, have the same canonical form. */
  lemma ShapeInvariant(x: seq<Card>, y: seq<Card>)
    requires Distinct3(x) && SameShape(x, y)
    ensures GetCanonical(y) == GetCanonical(x)
  {
    var o := SortOrder(x);
    PickKeepsShape(x, y, o);
    var sx, sy := Pick(x, o), Pick(y, o);
    assert sx == Sort3(x);
    SortedShapeInvariant(sx, sy);
    CanonicalOrderFree(x, sx);
    CanonicalOrderFree(y, sy);
  }

  /** get_canonical is invariant under every renaming of the suits. */
  lemma RelabelInvariant(f: seq<Card>, p: map<Suit, Suit>)
    requires Distinct3(f) && IsPermutation(p)
    ensures GetCanonical(Relabel(f, p)) == GetCanonical(f)
  {
    RelabelKeepsShape(f, p);
    ShapeInvariant(f, Relabel(f, p));
  }

  // ---------------------------------------------------------------------------
  // Suit-isomorphs

  /** The ordered triples of three different suits, as `for A in SUITS for B in SUITS for C in SUITS` filters them. */
  const SuitTriples: seq<(Suit, Suit, Suit)> :=
    [(C, D, H), (C, D, S), (C, H, D), (C, H, S), (C, S, D), (C, S, H),
     (D, C, H), (D, C, S), (D, H, C), (D, H, S), (D, S, C), (D, S, H),
     (H, C, D), (H, C, S), (H, D, C), (H, D, S), (H, S, C), (H, S, D),
     (S, C, D), (S, C, H), (S, D, C), (S, D, H), (S, H, C), (S, H, D)]

  /** Triples of suits compared by position in SUITS, first component first. */
  predicate TripleBefore(p: (Suit, Suit, Suit), q: (Suit, Suit, Suit)) {
    SuitIndex(p.0) < SuitIndex(q.0) ||
    (p.0 == q.0 && (SuitIndex(p.1) < SuitIndex(q.1) || (p.1 == q.1 && SuitIndex(p.2) < SuitIndex(q.2))))
  }

  /** SuitTriples holds exactly the triples of three different suits. */
  lemma SuitTriplesEnumerate(a: Suit, b: Suit, c: Suit)
    ensures |SuitTriples| == 24
    ensures (a, b, c) in SuitTriples <==> a != b && b != c && a != c
  {
    SuitTriplesDifferent();
    if a != b && b != c && a != c {
      SuitTriplesComplete(a, b, c);
    }
  }

  lemma SuitTriplesDifferent()
    ensures |SuitTriples| == 24
    ensures forall i :: 0 <= i < 24 ==>
      SuitTriples[i].0 != SuitTriples[i].1 && SuitTriples[i].1 != SuitTriples[i].2 && SuitTriples[i].0 != SuitTriples[i].2
  {
  }

  lemma SuitTriplesComplete(a: Suit, b: Suit, c: Suit)
    requires a != b && b != c && a != c
    ensures (a, b, c) in SuitTriples
  {
    match a
    case C =>
    case D =>
    case H =>
    case S =>
  }

  /** SuitTriples is in strictly increasing lexicographic order. */
  lemma SuitTriplesOrdered()
    ensures forall i :: 0 <= i < 23 ==> TripleBefore(SuitTriples[i], SuitTriples[i + 1])
  {
  }

  /** The flop with its three cards given the suits a, b, c. */
  function Resuit(flop: seq<Card>, a: Suit, b: Suit, c: Suit): (r: seq<Card>)
    requires |flop| == 3
    ensures |r| == 3
  {
    [flop[0].WithSuit(a), flop[1].WithSuit(b), flop[2].WithSuit(c)]
  }

  /** get_suit_isomorphs: the flop under every assignment of suits that keeps its suit pattern. */
  function GetSuitIsomorphs(flop: seq<Card>): (r: seq<seq<Card>>)
    requires |flop| == 3
    ensures |r| == match FlopPattern(flop) case AAA => 4 case ABC => 24 case _ => 12
    ensures forall i :: 0 <= i < |r| ==> |r[i]| == 3
  {
    match FlopPattern(flop)
    case AAA =>
      seq(4, i requires 0 <= i < 4 => Resuit(flop, Suits[i], Suits[i], Suits[i]))
    case AAB =>
      seq(12, i requires 0 <= i < 12 =>
        Resuit(flop, SuitPermutations[i].0, SuitPermutations[i].0, SuitPermutations[i].1))
    case ABB =>
      seq(12, i requires 0 <= i < 12 =>
        Resuit(flop, SuitPermutations[i].0, SuitPermutations[i].1, SuitPermutations[i].1))
    case ABA =>
      seq(12, i requires 0 <= i < 12 =>
        Resuit(flop, SuitPermutations[i].0, SuitPermutations[i].1, SuitPermutations[i].0))
    case ABC =>
      seq(24, i requires 0 <= i < 24 =>
        Resuit(flop, SuitTriples[i].0, SuitTriples[i].1, SuitTriples[i].2))
  }

  /** A flop of three cards is the flop with the suits of its own cards. */
  lemma ResuitSelf(flop: seq<Card>, g: seq<Card>)
    requires |flop| == 3 && |g| == 3
    requires flop[0].rank == g[0].rank && flop[1].rank == g[1].rank && flop[2].rank == g[2].rank
    ensures Resuit(flop, g[0].suit, g[1].suit, g[2].suit) == g
  {
  }

  /** The isomorphs built from one pair of suits, in one of the three two-suit patterns. */
  lemma PairIsomorphs(flop: seq<Card>, g: seq<Card>)
    requires |flop| == 3 && FlopPattern(flop) in {AAB, ABB, ABA}
    ensures g in GetSuitIsomorphs(flop) <==> SameShape(flop, g)
  {
    var r := GetSuitIsomorphs(flop);
    if g in r {
      var i :| 0 <= i < 12 && r[i] == g;
      SuitPermutationsEnumerate(SuitPermutations[i].0, SuitPermutations[i].1);
    }
    if SameShape(flop, g) {
      var a, b := g[0].suit, if FlopPattern(flop) == AAB then g[2].suit else g[1].suit;
      SuitPermutationsEnumerate(a, b);
      var i :| 0 <= i < 12 && SuitPermutations[i] == (a, b);
      ResuitSelf(flop, g);
      assert r[i] == g;
    }
  }

  /** The isomorphs built from one triple of suits, pattern ABC. */
  lemma TripleIsomorphs(flop: seq<Card>, g: seq<Card>)
    requires |flop| == 3 && FlopPattern(flop) == ABC
    ensures g in GetSuitIsomorphs(flop) <==> SameShape(flop, g)
  {
    var r := GetSuitIsomorphs(flop);
    if g in r {
      var i :| 0 <= i < 24 && r[i] == g;
      SuitTriplesEnumerate(SuitTriples[i].0, SuitTriples[i].1, SuitTriples[i].2);
    }
    if SameShape(flop, g) {
      SuitTriplesEnumerate(g[0].suit, g[1].suit, g[2].suit);
      var i :| 0 <= i < 24 && SuitTriples[i] == (g[0].suit, g[1].suit, g[2].suit);
      ResuitSelf(flop, g);
      assert r[i] == g;
    }
  }

  /**
   * get_suit_isomorphs lists exactly the flops with the same ranks in the
   * same positions and the same suit pattern; the flop itself is one of them.
   */
  lemma SuitIsomorphsExact(flop: seq<Card>, g: seq<Card>)
    requires |flop| == 3
    ensures g in GetSuitIsomorphs(flop) <==> SameShape(flop, g)
    ensures flop in GetSuitIsomorphs(flop)
  {
    match FlopPattern(flop)
    case AAA =>
      var r := GetSuitIsomorphs(flop);
      if SameShape(flop, g) {
        ResuitSelf(flop, g);
        assert r[SuitIndex(g[0].suit)] == g;
      }
      ResuitSelf(flop, flop);
      assert r[SuitIndex(flop[0].suit)] == flop;
    case AAB => PairIsomorphs(flop, g); PairIsomorphs(flop, flop);
    case ABB => PairIsomorphs(flop, g); PairIsomorphs(flop, flop);
    case ABA => PairIsomorphs(flop, g); PairIsomorphs(flop, flop);
    case ABC => TripleIsomorphs(flop, g); TripleIsomorphs(flop, flop);
  }

  /** The lexicographic order on suit triples is transitive. */
  lemma TripleBeforeTransitive(p: (Suit, Suit, Suit), q: (Suit, Suit, Suit), t: (Suit, Suit, Suit))
    requires TripleBefore(p, q) && TripleBefore(q, t)
    ensures TripleBefore(p, t)
  {
  }

  /** Any two positions of SuitTriples are in lexicographic order, so no triple occurs twice. */
  lemma {:induction false} SuitTriplesStrictlyOrdered(i: int, j: int)
    requires 0 <= i < j < 24
    ensures TripleBefore(SuitTriples[i], SuitTriples[j])
    ensures SuitTriples[i] != SuitTriples[j]
  {
    SuitTriplesOrdered();
    if i + 1 < j {
      SuitTriplesStrictlyOrdered(i, j - 1);
      TripleBeforeTransitive(SuitTriples[i], SuitTriples[j - 1], SuitTriples[j]);
    }
  }

  /** get_suit_isomorphs lists no flop twice. */
  lemma SuitIsomorphsDistinct(flop: seq<Card>)
    requires |flop| == 3
    ensures NoDuplicates(GetSuitIsomorphs(flop))
  {
    var r: seq<seq<Card>> := GetSuitIsomorphs(flop);
    forall i: int, j: int | 0 <= i < j < |r|
      ensures r[i] != r[j]
    {
      match FlopPattern(flop)
      case AAA =>
        assert r[i][0].suit == Suits[i] && r[j][0].suit == Suits[j];
      case AAB =>
        SuitPermutationsEnumerate(C, C);
        assert r[i][0].suit == SuitPermutations[i].0 && r[i][2].suit == SuitPermutations[i].1;
        assert r[j][0].suit == SuitPermutations[j].0 && r[j][2].suit == SuitPermutations[j].1;
      case ABB =>
        SuitPermutationsEnumerate(C, C);
        assert r[i][0].suit == SuitPermutations[i].0 && r[i][1].suit == SuitPermutations[i].1;
        assert r[j][0].suit == SuitPermutations[j].0 && r[j][1].suit == SuitPermutations[j].1;
      case ABA =>
        SuitPermutationsEnumerate(C, C);
        assert r[i][0].suit == SuitPermutations[i].0 && r[i][1].suit == SuitPermutations[i].1;
        assert r[j][0].suit == SuitPermutations[j].0 && r[j][1].suit == SuitPermutations[j].1;
      case ABC =>
        SuitTriplesStrictlyOrdered(i, j);
        assert r[i][0].suit == SuitTriples[i].0 && r[i][1].suit == SuitTriples[i].1 && r[i][2].suit == SuitTriples[i].2;
        assert r[j][0].suit == SuitTriples[j].0 && r[j][1].suit == SuitTriples[j].1 && r[j][2].suit == SuitTriples[j].2;
    }
  }

  /** Every suit-isomorph of a flop of three different cards has the flop's canonical form. */
  lemma SuitIsomorphsShareCanonical(flop: seq<Card>, g: seq<Card>)
    requires Distinct3(flop) && g in GetSuitIsomorphs(flop)
    ensures Distinct3(g) && GetCanonical(g) == GetCanonical(flop)
  {
    SuitIsomorphsExact(flop, g);
    SameShapeDistinct(flop, g);
    ShapeInvariant(flop, g);
  }

  // ---------------------------------------------------------------------------
  // Translation dict

  /** sorted(list({"h", "d", "c", "s"} - used)): the suits not in `used`, in letter order. */
  function Unused(used: set<Suit>): seq<Suit> {
    (if C in used then [] else [C]) + ((if D in used then [] else [D]) +
    ((if H in used then [] else [H]) + (if S in used then [] else [S])))
  }

  /** Unused lists exactly the suits outside `used`, each once, in letter order. */
  lemma UnusedFacts(used: set<Suit>)
    ensures forall s :: s in Unused(used) <==> s !in used
    ensures InSuitOrder(Unused(used))
    ensures |Unused(used)| == (if C in used then 0 else 1) + (if D in used then 0 else 1) +
                              (if H in used then 0 else 1) + (if S in used then 0 else 1)
  {
    forall s: Suit
      ensures s in Unused(used) <==> s !in used
    {
      UnusedMember(used, s);
    }
    UnusedInOrder(used);
  }

  lemma UnusedMember(used: set<Suit>, s: Suit)
    ensures s in Unused(used) <==> s !in used
  {
    var ss := if S in used then [] else [S];
    var hs := (if H in used then [] else [H]) + ss;
    var dhs := (if D in used then [] else [D]) + hs;
    assert Unused(used) == (if C in used then [] else [C]) + dhs;
    match s
    case C =>
    case D => assert s in Unused(used) <==> s in dhs;
    case H => assert s in Unused(used) <==> s in hs;
    case S => assert s in Unused(used) <==> s in ss;
  }

  lemma UnusedInOrder(used: set<Suit>)
    ensures InSuitOrder(Unused(used))
  {
    var ss := if S in used then [] else [S];
    var hs := (if H in used then [] else [H]) + ss;
    var dhs := (if D in used then [] else [D]) + hs;
    PrefixIncreasing(if H in used then [] else [H], ss, 2);
    PrefixIncreasing(if D in used then [] else [D], hs, 1);
    PrefixIncreasing(if C in used then [] else [C], dhs, 0);
  }

  /** A suit of index `lo` before suits of higher index keeps a list increasing in SUITS order. */
  lemma PrefixIncreasing(p: seq<Suit>, t: seq<Suit>, lo: nat)
    requires |p| <= 1 && (forall i :: 0 <= i < |p| ==> SuitIndex(p[i]) == lo)
    requires forall i :: 0 <= i < |t| ==> SuitIndex(t[i]) > lo
    requires InSuitOrder(t)
    ensures forall i :: 0 <= i < |p + t| ==> SuitIndex((p + t)[i]) >= lo
    ensures InSuitOrder(p + t)
  {
  }

  /** Strictly increasing in SUITS order. */
  predicate InSuitOrder(u: seq<Suit>) {
    forall i, j :: 0 <= i < j < |u| ==> SuitIndex(u[i]) < SuitIndex(u[j])
  }

  /** The dict {"c": "c", "d": "d", "h": "h", "s": "s"}. */
  const Identity: map<Suit, Suit> := map[C := C, D := D, H := H, S := S]

  /** The suits get_canonical gives a sorted flop, pattern by pattern, with the two tie-breaks. */
  lemma CanonicalSuits(f: seq<Card>)
    requires Sorted3(f)
    ensures var k := GetCanonical(f);
      k[0].rank == f[0].rank && k[1].rank == f[1].rank && k[2].rank == f[2].rank
    ensures var k := GetCanonical(f); var t := (k[0].suit, k[1].suit, k[2].suit);
      match FlopPattern(f)
      case AAA => t == (C, C, C)
      case AAB => t == (C, C, D)
      case ABA => t == if f[1].rank == f[2].rank then (C, C, D) else (C, D, C)
      case ABB => t == if f[0].rank == f[1].rank then (C, D, C) else (C, D, D)
      case ABC => t == (C, D, H)
  {
    Sort3OfSorted(f);
    if FlopPattern(f) == ABA {
      CanonicalSuitsABA(f);
    }
  }

  /** ABA: clubs, diamonds, clubs, re-sorted, which swaps the top two cards when they are paired. */
  lemma CanonicalSuitsABA(f: seq<Card>)
    requires Sorted3(f) && FlopPattern(f) == ABA
    ensures var k := GetCanonical(f);
      k == if f[1].rank == f[2].rank then [f[0].WithSuit(C), f[2].WithSuit(C), f[1].WithSuit(D)]
           else [f[0].WithSuit(C), f[1].WithSuit(D), f[2].WithSuit(C)]
  {
    Sort3OfSorted(f);
    var t := [f[0].WithSuit(C), f[1].WithSuit(D), f[2].WithSuit(C)];
    assert GetCanonical(f) == Sort3(t);
    if f[1].rank == f[2].rank {
      Sort3OfSorted([t[0], t[2], t[1]]);
      Sort3OrderFree(t, [t[0], t[2], t[1]]);
    } else {
      Sort3OfSorted(t);
    }
  }

  /**
   * get_translation_dict as written: the map from the suits of the sorted
   * flop to the suits of its canonical form.
   */
  function GetTranslationDict(flop: seq<Card>): (d: map<Suit, Suit>)
    requires |flop| == 3
  {
    var f := Sort3(flop);
    var k := GetCanonical(f);
    CanonicalSuits(f);
    SuitTranslation(f[0].suit, f[1].suit, f[2].suit, k[0].suit, k[1].suit, k[2].suit)
  }

  /**
   * The body of get_translation_dict once the suits s1 s2 s3 of the sorted
   * flop and k1 k2 k3 of its canonical form are known: the identity when they
   * agree, otherwise the pattern's own suits sent to the canonical suits and
   * the suits the flop does not use sent, in letter order, to the suits the
   * canonical form does not use (for AAA: swap the flop's suit with clubs).
   * The index bounds hold because the canonical suits repeat whenever the
   * flop's suits do.
   */
  function SuitTranslation(s1: Suit, s2: Suit, s3: Suit, k1: Suit, k2: Suit, k3: Suit): (d: map<Suit, Suit>)
    requires s1 == s2 == s3 ==> k1 == k2 == k3
    requires s1 == s2 || s2 == s3 || s1 == s3 ==> k1 == k2 || k2 == k3 || k1 == k3
  {
    if (s1, s2, s3) == (k1, k2, k3) then Identity
    else
      var unused := Unused({s1, s2, s3});
      var canonicalUnused := Unused({k1, k2, k3});
      var bothUnused := Unused({s1, s2, s3} + {k1, k2, k3});
      UnusedOfThree(s1, s2, s3);
      UnusedOfThree(k1, k2, k3);
      match PatternOf(s1, s2, s3)
      case AAA =>
        UnusedOfTwoTriples(s1, s2, s3, k1, k2, k3);
        Chain(s1, k1, bothUnused[0], bothUnused[1], k1, s1, bothUnused[0], bothUnused[1])
      case AAB =>
        TwoOfThree(s1, s2, s3);
        TwoOfThree(k1, k2, k3);
        Chain(s1, s3, unused[0], unused[1], k1, k3, canonicalUnused[0], canonicalUnused[1])
      case ABB =>
        TwoOfThree(s1, s2, s3);
        TwoOfThree(k1, k2, k3);
        Chain(s1, s2, unused[0], unused[1], k1, k2, canonicalUnused[0], canonicalUnused[1])
      case ABA =>
        TwoOfThree(s1, s2, s3);
        TwoOfThree(k1, k2, k3);
        Chain(s1, s2, unused[0], unused[1], k1, k2, canonicalUnused[0], canonicalUnused[1])
      case ABC =>
        Chain(s1, s2, s3, unused[0], k1, k2, k3, canonicalUnused[0])
  }

  /** The dict literal {a: x, b: y, c: z, e: w}, a later key overriding an earlier equal one. */
  function Chain(a: Suit, b: Suit, c: Suit, e: Suit, x: Suit, y: Suit, z: Suit, w: Suit): map<Suit, Suit> {
    map[a := x][b := y][c := z][e := w]
  }

  /** At most three suits are used, so at least one is not. */
  lemma UnusedOfThree(a: Suit, b: Suit, c: Suit)
    ensures |Unused({a, b, c})| >= 1
  {
  }

  /** Three suits of which two coincide leave at least two suits unused. */
  lemma TwoOfThree(a: Suit, b: Suit, c: Suit)
    requires a == b || b == c || a == c
    ensures |Unused({a, b, c})| >= 2
  {
  }

  /** Two triples of one suit each leave at least two suits unused. */
  lemma UnusedOfTwoTriples(a1: Suit, a2: Suit, a3: Suit, b1: Suit, b2: Suit, b3: Suit)
    requires a1 == a2 == a3 && b1 == b2 == b3
    ensures |Unused({a1, a2, a3} + {b1, b2, b3})| >= 2
  {
  }

  /** A list of all four suits, each once. */
  predicate Arrangement(xs: seq<Suit>) {
    |xs| == 4 && xs[0] != xs[1] && xs[0] != xs[2] && xs[0] != xs[3] &&
    xs[1] != xs[2] && xs[1] != xs[3] && xs[2] != xs[3] &&
    C in xs && D in xs && H in xs && S in xs
  }

  /** d sends xs[i] to ys[i] for each of the four positions. */
  predicate PairsUp(d: map<Suit, Suit>, xs: seq<Suit>, ys: seq<Suit>)
    requires |xs| == 4 && |ys| >= 4
  {
    xs[0] in d && d[xs[0]] == ys[0] && xs[1] in d && d[xs[1]] == ys[1] &&
    xs[2] in d && d[xs[2]] == ys[2] && xs[3] in d && d[xs[3]] == ys[3]
  }

  /** A dict defined on an arrangement of the suits is defined on every suit. */
  lemma PairsUpTotal(d: map<Suit, Suit>, xs: seq<Suit>, ys: seq<Suit>)
    requires Arrangement(xs) && |ys| >= 4 && PairsUp(d, xs, ys)
    ensures Total(d)
  {
    forall s: Suit ensures s in d {
      var i := PositionIn(xs, s);
    }
  }

  /** A dict pairing two arrangements of the suits position by position is a renaming. */
  lemma PairsUpPermutation(d: map<Suit, Suit>, xs: seq<Suit>, ys: seq<Suit>)
    requires Arrangement(xs) && Arrangement(ys) && PairsUp(d, xs, ys)
    ensures IsPermutation(d)
  {
    PairsUpTotal(d, xs, ys);
    forall a: Suit, b: Suit | d[a] == d[b]
      ensures a == b
    {
      var i := PositionIn(xs, a);
      var j := PositionIn(xs, b);
      assert d[xs[i]] == ys[i] && d[xs[j]] == ys[j];
      if i != j {
        PositionsDiffer(ys, i, j);
      }
    }
  }

  /** Where a suit stands in an arrangement. */
  lemma PositionIn(xs: seq<Suit>, s: Suit) returns (i: nat)
    requires Arrangement(xs)
    ensures i < 4 && xs[i] == s
  {
    i :| 0 <= i < 4 && xs[i] == s;
  }

  /** Different positions of an arrangement hold different suits. */
  lemma PositionsDiffer(xs: seq<Suit>, i: nat, j: nat)
    requires Arrangement(xs) && i < 4 && j < 4 && i != j
    ensures xs[i] != xs[j]
  {
  }

  /** Two different suits followed by the two that a, b, c (which are just those two) leave unused. */
  lemma ArrangementOfTwo(x: Suit, y: Suit, a: Suit, b: Suit, c: Suit)
    requires x != y && (a == x || a == y) && (b == x || b == y) && (c == x || c == y)
    requires x == a || x == b || x == c
    requires y == a || y == b || y == c
    ensures Arrangement([x, y] + Unused({a, b, c}))
  {
  }

  /** Two suits, each three times, followed by the two they leave unused. */
  lemma ArrangementOfTwoTriples(a1: Suit, a2: Suit, a3: Suit, b1: Suit, b2: Suit, b3: Suit)
    requires a1 == a2 == a3 && b1 == b2 == b3 && a1 != b1
    ensures Arrangement([a1, b1] + Unused({a1, a2, a3} + {b1, b2, b3}))
  {
  }

  /** Three different suits followed by the one they leave unused list every suit once. */
  lemma ArrangementOfThree(x: Suit, y: Suit, z: Suit)
    requires x != y && y != z && x != z
    ensures Arrangement([x, y, z] + Unused({x, y, z}))
  {
  }

  /** The identity dict renames nothing. */
  lemma IdentityPermutation()
    ensures IsPermutation(Identity) && forall s :: Identity[s] == s
  {
    PairsUpPermutation(Identity, Suits, Suits);
  }

  /**
   * Outside the identity case, the dict pairs an arrangement of the suits
   * (the flop's own suits, then the unused ones in letter order) with the
   * suits they are sent to.
   */
  lemma SuitTranslationPairs(s1: Suit, s2: Suit, s3: Suit, k1: Suit, k2: Suit, k3: Suit)
    returns (xs: seq<Suit>, ys: seq<Suit>)
    requires s1 == s2 == s3 ==> k1 == k2 == k3
    requires s1 == s2 || s2 == s3 || s1 == s3 ==> k1 == k2 || k2 == k3 || k1 == k3
    requires (s1, s2, s3) != (k1, k2, k3)
    ensures Arrangement(xs) && |ys| == 4
    ensures PairsUp(SuitTranslation(s1, s2, s3, k1, k2, k3), xs, ys)
  {
    match PatternOf(s1, s2, s3)
    case AAA => xs, ys := PairsAAA(s1, s2, s3, k1, k2, k3);
    case AAB => xs, ys := PairsAAB(s1, s2, s3, k1, k2, k3);
    case ABB => xs, ys := PairsTwoSuits(s1, s2, s3, k1, k2, k3);
    case ABA => xs, ys := PairsTwoSuits(s1, s2, s3, k1, k2, k3);
    case ABC => xs, ys := PairsABC(s1, s2, s3, k1, k2, k3);
  }

  /** Four updates at four different keys: each key keeps the value given to it. */
  lemma ChainedUpdates(a: Suit, b: Suit, c: Suit, e: Suit, x: Suit, y: Suit, z: Suit, w: Suit)
    requires a != b && a != c && a != e && b != c && b != e && c != e
    ensures PairsUp(Chain(a, b, c, e, x, y, z, w), [a, b, c, e], [x, y, z, w])
  {
  }

  /** One suit sent to another: the two are swapped and the rest stay. */
  lemma PairsAAA(s1: Suit, s2: Suit, s3: Suit, k1: Suit, k2: Suit, k3: Suit)
    returns (xs: seq<Suit>, ys: seq<Suit>)
    requires s1 == s2 == s3 && k1 == k2 == k3 && s1 != k1
    ensures Arrangement(xs) && |ys| == 4
    ensures PairsUp(SuitTranslation(s1, s2, s3, k1, k2, k3), xs, ys)
    ensures xs[0] == s1 && xs[1] == k1 && ys[0] == k1 && ys[1] == s1 && ys[2..] == xs[2..]
    ensures Arrangement(ys)
  {
    ArrangementOfTwoTriples(s1, s2, s3, k1, k2, k3);
    var u := Unused({s1, s2, s3} + {k1, k2, k3});
    var d := SuitTranslation(s1, s2, s3, k1, k2, k3);
    assert d == Chain(s1, k1, u[0], u[1], k1, s1, u[0], u[1]);
    xs, ys := [s1, k1, u[0], u[1]], [k1, s1, u[0], u[1]];
    assert xs == [s1, k1] + u;
    ChainedUpdates(s1, k1, u[0], u[1], k1, s1, u[0], u[1]);
    SwapArrangement(xs);
  }

  /** Swapping the first two suits of an arrangement gives an arrangement. */
  lemma SwapArrangement(xs: seq<Suit>)
    requires Arrangement(xs)
    ensures Arrangement([xs[1], xs[0]] + xs[2..])
  {
    var ys := [xs[1], xs[0]] + xs[2..];
    forall s: Suit ensures s in ys {
      var i := PositionIn(xs, s);
      assert ys[if i == 0 then 1 else if i == 1 then 0 else i] == s;
    }
  }

  /** Two suits, the first two cards sharing one. */
  lemma PairsAAB(s1: Suit, s2: Suit, s3: Suit, k1: Suit, k2: Suit, k3: Suit)
    returns (xs: seq<Suit>, ys: seq<Suit>)
    requires s1 == s2 != s3 && (k1 == k2 || k2 == k3 || k1 == k3) && (s1, s2, s3) != (k1, k2, k3)
    ensures Arrangement(xs) && |ys| == 4
    ensures PairsUp(SuitTranslation(s1, s2, s3, k1, k2, k3), xs, ys)
    ensures xs[0] == s1 && xs[1] == s3 && ys[0] == k1 && ys[1] == k3
    ensures PatternOf(k1, k2, k3) == AAB ==> Arrangement(ys)
  {
    AABDict(s1, s2, s3, k1, k2, k3);
    xs, ys := ChainArrangement(s1, s3, s1, s2, s3, k1, k3, k1, k2, k3);
  }

  /** For two suits with the first two cards sharing one, the dict chains the two pairs of suits. */
  lemma AABDict(s1: Suit, s2: Suit, s3: Suit, k1: Suit, k2: Suit, k3: Suit)
    requires s1 == s2 != s3 && (k1 == k2 || k2 == k3 || k1 == k3) && (s1, s2, s3) != (k1, k2, k3)
    ensures |Unused({s1, s2, s3})| >= 2 && |Unused({k1, k2, k3})| >= 2
    ensures SuitTranslation(s1, s2, s3, k1, k2, k3) ==
      Chain(s1, s3, Unused({s1, s2, s3})[0], Unused({s1, s2, s3})[1], k1, k3, Unused({k1, k2, k3})[0], Unused({k1, k2, k3})[1])
  {
    TwoOfThree(s1, s2, s3);
    TwoOfThree(k1, k2, k3);
  }

  /** The suits a, b, c are exactly the two different suits x and y. */
  predicate SplitInto(x: Suit, y: Suit, a: Suit, b: Suit, c: Suit) {
    x != y && (a == x || a == y) && (b == x || b == y) && (c == x || c == y) &&
    (x == a || x == b || x == c) && (y == a || y == b || y == c)
  }

  /** Two suits followed by the two they leave unused, written out element by element. */
  lemma ArrangedTargets(x: Suit, y: Suit, a: Suit, b: Suit, c: Suit)
    requires SplitInto(x, y, a, b, c)
    ensures |Unused({a, b, c})| >= 2
    ensures Arrangement([x, y, Unused({a, b, c})[0], Unused({a, b, c})[1]])
  {
    ArrangementOfTwo(x, y, a, b, c);
    var cu := Unused({a, b, c});
    assert [x, y, cu[0], cu[1]] == [x, y] + cu;
  }

  /** Two suits, the middle card apart from the others or the last two sharing one. */
  lemma PairsTwoSuits(s1: Suit, s2: Suit, s3: Suit, k1: Suit, k2: Suit, k3: Suit)
    returns (xs: seq<Suit>, ys: seq<Suit>)
    requires PatternOf(s1, s2, s3) in {ABB, ABA}
    requires (k1 == k2 || k2 == k3 || k1 == k3) && (s1, s2, s3) != (k1, k2, k3)
    ensures Arrangement(xs) && |ys| == 4
    ensures PairsUp(SuitTranslation(s1, s2, s3, k1, k2, k3), xs, ys)
    ensures xs[0] == s1 && xs[1] == s2 && ys[0] == k1 && ys[1] == k2
    ensures PatternOf(k1, k2, k3) == PatternOf(s1, s2, s3) ==> Arrangement(ys)
  {
    TwoSuitsDict(s1, s2, s3, k1, k2, k3);
    xs, ys := ChainArrangement(s1, s2, s1, s2, s3, k1, k2, k1, k2, k3);
  }

  /** For two suits split as ABB or ABA, the dict chains the first two suits and the unused ones. */
  lemma TwoSuitsDict(s1: Suit, s2: Suit, s3: Suit, k1: Suit, k2: Suit, k3: Suit)
    requires PatternOf(s1, s2, s3) in {ABB, ABA}
    requires (k1 == k2 || k2 == k3 || k1 == k3) && (s1, s2, s3) != (k1, k2, k3)
    ensures |Unused({s1, s2, s3})| >= 2 && |Unused({k1, k2, k3})| >= 2
    ensures SuitTranslation(s1, s2, s3, k1, k2, k3) ==
      Chain(s1, s2, Unused({s1, s2, s3})[0], Unused({s1, s2, s3})[1], k1, k2, Unused({k1, k2, k3})[0], Unused({k1, k2, k3})[1])
  {
    TwoOfThree(s1, s2, s3);
    TwoOfThree(k1, k2, k3);
  }

  /**
   * Two suits x, y of the flop a, b, c and the two suits left unused, paired with two suits
   * x', y' of the canonical flop a', b', c' and the two it leaves unused.
   */
  lemma ChainArrangement(x: Suit, y: Suit, a: Suit, b: Suit, c: Suit,
                         x': Suit, y': Suit, a': Suit, b': Suit, c': Suit)
    returns (xs: seq<Suit>, ys: seq<Suit>)
    requires SplitInto(x, y, a, b, c) && (a' == b' || b' == c' || a' == c')
    ensures |Unused({a, b, c})| >= 2 && |Unused({a', b', c'})| >= 2
    ensures Arrangement(xs) && |ys| == 4
    ensures PairsUp(Chain(x, y, Unused({a, b, c})[0], Unused({a, b, c})[1],
                          x', y', Unused({a', b', c'})[0], Unused({a', b', c'})[1]), xs, ys)
    ensures xs[0] == x && xs[1] == y && ys[0] == x' && ys[1] == y'
    ensures SplitInto(x', y', a', b', c') ==> Arrangement(ys)
  {
    ArrangementOfTwo(x, y, a, b, c);
    TwoOfThree(a', b', c');
    var u, cu := Unused({a, b, c}), Unused({a', b', c'});
    xs, ys := [x, y] + u, [x', y', cu[0], cu[1]];
    ChainedPairs(x, y, u, x', y', cu);
    if SplitInto(x', y', a', b', c') {
      ArrangedTargets(x', y', a', b', c');
    }
  }

  /** Two suits and the two they leave unused, sent to two suits and the two those leave unused. */
  lemma ChainedPairs(a: Suit, b: Suit, u: seq<Suit>, x: Suit, y: Suit, cu: seq<Suit>)
    requires Arrangement([a, b] + u) && |cu| >= 2
    ensures PairsUp(Chain(a, b, u[0], u[1], x, y, cu[0], cu[1]), [a, b] + u, [x, y, cu[0], cu[1]])
  {
    var xs := [a, b] + u;
    assert xs[2] == u[0] && xs[3] == u[1];
    ChainedUpdates(a, b, u[0], u[1], x, y, cu[0], cu[1]);
  }

  /** Three different suits. */
  lemma PairsABC(s1: Suit, s2: Suit, s3: Suit, k1: Suit, k2: Suit, k3: Suit)
    returns (xs: seq<Suit>, ys: seq<Suit>)
    requires s1 != s2 && s2 != s3 && s1 != s3 && (s1, s2, s3) != (k1, k2, k3)
    ensures Arrangement(xs) && |ys| == 4
    ensures PairsUp(SuitTranslation(s1, s2, s3, k1, k2, k3), xs, ys)
    ensures xs[0] == s1 && xs[1] == s2 && xs[2] == s3 && ys[0] == k1 && ys[1] == k2 && ys[2] == k3
    ensures PatternOf(k1, k2, k3) == ABC ==> Arrangement(ys)
  {
    ArrangementOfThree(s1, s2, s3);
    UnusedOfThree(k1, k2, k3);
    var u, cu := Unused({s1, s2, s3}), Unused({k1, k2, k3});
    var d := SuitTranslation(s1, s2, s3, k1, k2, k3);
    assert d == Chain(s1, s2, s3, u[0], k1, k2, k3, cu[0]);
    xs, ys := [s1, s2, s3, u[0]], [k1, k2, k3, cu[0]];
    assert xs == [s1, s2, s3] + u;
    ChainedUpdates(s1, s2, s3, u[0], k1, k2, k3, cu[0]);
    if PatternOf(k1, k2, k3) == ABC {
      ArrangementOfThree(k1, k2, k3);
      assert ys == [k1, k2, k3] + cu;
    }
  }

  /**
   * When the canonical suits repeat exactly where the flop's suits do, the
   * dict is a renaming of the suits that sends each suit of the sorted flop
   * to the canonical suit at the same position.
   */
  lemma SuitTranslationRenames(s1: Suit, s2: Suit, s3: Suit, k1: Suit, k2: Suit, k3: Suit)
    requires PatternOf(s1, s2, s3) == PatternOf(k1, k2, k3)
    ensures var d := SuitTranslation(s1, s2, s3, k1, k2, k3);
      IsPermutation(d) && d[s1] == k1 && d[s2] == k2 && d[s3] == k3
  {
    if (s1, s2, s3) == (k1, k2, k3) {
      IdentityPermutation();
    } else if s1 == s2 == s3 {
      RenamesOneSuit(s1, s2, s3, k1, k2, k3);
    } else if s1 == s2 {
      RenamesPairedBottomSuit(s1, s2, s3, k1, k2, k3);
    } else if s2 == s3 || s1 == s3 {
      RenamesTwoSuits(s1, s2, s3, k1, k2, k3);
    } else {
      RenamesThreeSuits(s1, s2, s3, k1, k2, k3);
    }
  }

  lemma RenamesOneSuit(s1: Suit, s2: Suit, s3: Suit, k1: Suit, k2: Suit, k3: Suit)
    requires s1 == s2 == s3 && k1 == k2 == k3 && s1 != k1
    ensures var d := SuitTranslation(s1, s2, s3, k1, k2, k3); IsPermutation(d) && d[s1] == k1
  {
    var xs, ys := PairsAAA(s1, s2, s3, k1, k2, k3);
    PairsUpPermutation(SuitTranslation(s1, s2, s3, k1, k2, k3), xs, ys);
  }

  lemma RenamesPairedBottomSuit(s1: Suit, s2: Suit, s3: Suit, k1: Suit, k2: Suit, k3: Suit)
    requires s1 == s2 != s3 && k1 == k2 != k3 && (s1, s2, s3) != (k1, k2, k3)
    ensures var d := SuitTranslation(s1, s2, s3, k1, k2, k3); IsPermutation(d) && d[s1] == k1 && d[s3] == k3
  {
    var xs, ys := PairsAAB(s1, s2, s3, k1, k2, k3);
    PairsUpPermutation(SuitTranslation(s1, s2, s3, k1, k2, k3), xs, ys);
  }

  lemma RenamesTwoSuits(s1: Suit, s2: Suit, s3: Suit, k1: Suit, k2: Suit, k3: Suit)
    requires PatternOf(s1, s2, s3) in {ABB, ABA} && PatternOf(k1, k2, k3) == PatternOf(s1, s2, s3)
    requires (s1, s2, s3) != (k1, k2, k3)
    ensures var d := SuitTranslation(s1, s2, s3, k1, k2, k3); IsPermutation(d) && d[s1] == k1 && d[s2] == k2
  {
    var xs, ys := PairsTwoSuits(s1, s2, s3, k1, k2, k3);
    PairsUpPermutation(SuitTranslation(s1, s2, s3, k1, k2, k3), xs, ys);
  }

  lemma RenamesThreeSuits(s1: Suit, s2: Suit, s3: Suit, k1: Suit, k2: Suit, k3: Suit)
    requires s1 != s2 && s2 != s3 && s1 != s3 && k1 != k2 && k2 != k3 && k1 != k3
    requires (s1, s2, s3) != (k1, k2, k3)
    ensures var d := SuitTranslation(s1, s2, s3, k1, k2, k3);
      IsPermutation(d) && d[s1] == k1 && d[s2] == k2 && d[s3] == k3
  {
    var xs, ys := PairsABC(s1, s2, s3, k1, k2, k3);
    PairsUpPermutation(SuitTranslation(s1, s2, s3, k1, k2, k3), xs, ys);
  }

  /** The suits of a three-card flop, in order. */
  function SuitsOf(f: seq<Card>): (Suit, Suit, Suit)
    requires |f| == 3
  {
    (f[0].suit, f[1].suit, f[2].suit)
  }

  /**
   * The dict of get_translation_dict always has all four suits as keys, and
   * it is the identity when the sorted flop already has the canonical suits.
   */
  lemma TranslationDictTotal(flop: seq<Card>)
    requires |flop| == 3
    ensures Total(GetTranslationDict(flop))
    ensures SuitsOf(Sort3(flop)) == SuitsOf(GetCanonical(flop)) ==>
      forall s :: GetTranslationDict(flop)[s] == s
  {
    var f := Sort3(flop);
    var k := GetCanonical(f);
    CanonicalSuits(f);
    CanonicalOrderFree(flop, f);
    if SuitsOf(f) == SuitsOf(k) {
      IdentityPermutation();
    } else {
      var xs, ys := SuitTranslationPairs(f[0].suit, f[1].suit, f[2].suit, k[0].suit, k[1].suit, k[2].suit);
      PairsUpTotal(GetTranslationDict(flop), xs, ys);
    }
  }

  /** The two tie-breaks of get_canonical: ABA with a paired top, ABB with a paired bottom. */
  predicate PairedTieBreak(f: seq<Card>)
    requires |f| == 3
  {
    (FlopPattern(f) == ABA && f[1].rank == f[2].rank) || (FlopPattern(f) == ABB && f[0].rank == f[1].rank)
  }

  /**
   * Outside the two tie-breaks the dict is a renaming of the suits, and
   * renaming the sorted flop with it gives the canonical form card by card.
   */
  lemma TranslationDictRenames(flop: seq<Card>)
    requires |flop| == 3 && !PairedTieBreak(Sort3(flop))
    ensures IsPermutation(GetTranslationDict(flop))
    ensures Relabel(Sort3(flop), GetTranslationDict(flop)) == GetCanonical(flop)
  {
    TranslationDictPositions(flop);
    var f, k, d := Sort3(flop), GetCanonical(Sort3(flop)), GetTranslationDict(flop);
    RelabelByPositions(f, d, k);
    CanonicalOrderFree(flop, f);
  }

  /** Outside the tie-breaks the dict sends the suit at each position of the sorted flop to the canonical suit there. */
  lemma TranslationDictPositions(flop: seq<Card>)
    requires |flop| == 3 && !PairedTieBreak(Sort3(flop))
    ensures var f, k, d := Sort3(flop), GetCanonical(Sort3(flop)), GetTranslationDict(flop);
      IsPermutation(d) && d[f[0].suit] == k[0].suit && d[f[1].suit] == k[1].suit && d[f[2].suit] == k[2].suit &&
      f[0].rank == k[0].rank && f[1].rank == k[1].rank && f[2].rank == k[2].rank
  {
    var f := Sort3(flop);
    var k := GetCanonical(f);
    CanonicalKeepsPattern(f);
    SuitTranslationRenames(f[0].suit, f[1].suit, f[2].suit, k[0].suit, k[1].suit, k[2].suit);
  }

  /** Outside the two tie-breaks the canonical suits of a sorted flop repeat exactly where its own suits do. */
  lemma CanonicalKeepsPattern(f: seq<Card>)
    requires Sorted3(f) && !PairedTieBreak(f)
    ensures var k := GetCanonical(f);
      PatternOf(k[0].suit, k[1].suit, k[2].suit) == FlopPattern(f) &&
      k[0].rank == f[0].rank && k[1].rank == f[1].rank && k[2].rank == f[2].rank
  {
    CanonicalSuits(f);
  }

  /** A renaming that sends each card's suit to the suit at the same position of k, ranks agreeing, turns f into k. */
  lemma RelabelByPositions(f: seq<Card>, d: map<Suit, Suit>, k: seq<Card>)
    requires |f| == 3 && |k| == 3 && Total(d)
    requires f[0].rank == k[0].rank && f[1].rank == k[1].rank && f[2].rank == k[2].rank
    requires d[f[0].suit] == k[0].suit && d[f[1].suit] == k[1].suit && d[f[2].suit] == k[2].suit
    ensures Relabel(f, d) == k
  {
  }

  /**
   * As written, an ABA flop with a paired top (Jh Qd Qh) sends both of its
   * suits to clubs, so the dict is not a renaming of the suits.
   */
  lemma PairedTopNotRenaming(flop: seq<Card>)
    requires |flop| == 3 && FlopPattern(Sort3(flop)) == ABA && Sort3(flop)[1].rank == Sort3(flop)[2].rank
    ensures var f, d := Sort3(flop), GetTranslationDict(flop);
      Total(d) && f[0].suit != f[1].suit && d[f[0].suit] == C && d[f[1].suit] == C
    ensures !IsPermutation(GetTranslationDict(flop))
  {
    var f := Sort3(flop);
    var k := GetCanonical(f);
    CanonicalSuits(f);
    TranslationDictTotal(flop);
    var xs, ys := PairsTwoSuits(f[0].suit, f[1].suit, f[2].suit, k[0].suit, k[1].suit, k[2].suit);
  }

  /**
   * As written, an ABB flop with a paired bottom (2c 2d 8d) keeps the third
   * card's suit apart from the first's, while the canonical form gives the
   * third card the first card's club: renaming with the dict does not give
   * the canonical form, in any order.
   */
  lemma PairedBottomMismatch(flop: seq<Card>)
    requires |flop| == 3 && FlopPattern(Sort3(flop)) == ABB && Sort3(flop)[0].rank == Sort3(flop)[1].rank
    ensures Total(GetTranslationDict(flop))
    ensures multiset(Relabel(Sort3(flop), GetTranslationDict(flop))) != multiset(GetCanonical(flop))
  {
    var f := Sort3(flop);
    var k := GetCanonical(f);
    CanonicalSuits(f);
    CanonicalOrderFree(flop, f);
    TranslationDictTotal(flop);
    var xs, ys := PairsTwoSuits(f[0].suit, f[1].suit, f[2].suit, k[0].suit, k[1].suit, k[2].suit);
    var r := [f[0].WithSuit(C), f[1].WithSuit(D), f[2].WithSuit(D)];
    RelabelByPositions(f, GetTranslationDict(flop), r);
    assert k == [f[0].WithSuit(C), f[1].WithSuit(D), f[2].WithSuit(C)];
    var x := f[2].WithSuit(D);
    if f[2].rank == f[1].rank {
      assert multiset(r)[x] == 2 && multiset(k)[x] == 1;
    } else {
      assert multiset(r)[x] == 1 && multiset(k)[x] == 0;
    }
  }

  /**
   * get_translation_dict with its two tie-breaks repaired. With a paired top
   * (ABA) the suits go where get_canonical sends them before it re-sorts:
   * c, d, c. With a paired bottom (ABB) the suit of the lone second card
   * goes to c and the first card's suit to d, which is the renaming that
   * get_canonical's rewrite to c, d, c amounts to once the two paired cards
   * swap places. Every other flop keeps the dict as written.
   */
  function CorrectedTranslationDict(flop: seq<Card>): (d: map<Suit, Suit>)
    requires |flop| == 3
  {
    var f := Sort3(flop);
    if FlopPattern(f) == ABA && f[1].rank == f[2].rank then
      SuitTranslation(f[0].suit, f[1].suit, f[2].suit, C, D, C)
    else if FlopPattern(f) == ABB && f[0].rank == f[1].rank then
      SuitTranslation(f[0].suit, f[1].suit, f[2].suit, D, C, C)
    else
      GetTranslationDict(flop)
  }

  /** Renaming commutes with taking the cards in another order. */
  lemma RelabelPick(x: seq<Card>, p: map<Suit, Suit>, o: seq<nat>)
    requires |x| == 3 && IsOrder3(o) && Total(p)
    ensures Relabel(Pick(x, o), p) == Pick(Relabel(x, p), o)
  {
    var i, j, k := o[0], o[1], o[2];
    var rx := Relabel(x, p);
    RelabelThree(x[i], x[j], x[k], p);
    assert Pick(rx, o) == [rx[i], rx[j], rx[k]];
  }

  /** The renaming of a flop written out card by card. */
  lemma RelabelThree(a: Card, b: Card, c: Card, p: map<Suit, Suit>)
    requires Total(p)
    ensures Relabel([a, b, c], p) == [a.WithSuit(p[a.suit]), b.WithSuit(p[b.suit]), c.WithSuit(p[c.suit])]
  {
  }

  /** Renaming a flop and renaming it sorted give the same cards. */
  lemma RelabelSorted(x: seq<Card>, p: map<Suit, Suit>)
    requires |x| == 3 && Total(p)
    ensures multiset(Relabel(Sort3(x), p)) == multiset(Relabel(x, p))
  {
    RelabelPick(x, p, SortOrder(x));
  }

  /** Renaming two flops with the same cards gives two flops with the same cards. */
  lemma RelabelMultiset(x: seq<Card>, y: seq<Card>, p: map<Suit, Suit>)
    requires |x| == 3 && |y| == 3 && multiset(x) == multiset(y) && Total(p)
    ensures multiset(Relabel(x, p)) == multiset(Relabel(y, p))
  {
    Sort3OrderFree(x, y);
    RelabelSorted(x, p);
    RelabelSorted(y, p);
  }

  /**
   * The repaired dict is a renaming of the suits for every flop, and the
   * flop renamed with it is, once sorted, the canonical form.
   */
  lemma CorrectedTranslationDictRenames(flop: seq<Card>)
    requires Distinct3(flop)
    ensures IsPermutation(CorrectedTranslationDict(flop))
    ensures Sort3(Relabel(flop, CorrectedTranslationDict(flop))) == GetCanonical(flop)
  {
    var f := Sort3(flop);
    var k := GetCanonical(flop);
    var d := CorrectedTranslationDict(flop);
    CanonicalForm(flop);
    CanonicalOrderFree(flop, f);
    if FlopPattern(f) == ABA && f[1].rank == f[2].rank {
      PairedTopRepaired(f);
    } else if FlopPattern(f) == ABB && f[0].rank == f[1].rank {
      PairedBottomRepaired(f);
    } else {
      TranslationDictRenames(flop);
    }
    assert multiset(Relabel(f, d)) == multiset(k);
    RelabelSorted(flop, d);
    Sort3OrderFree(Relabel(flop, d), k);
    Sort3OfSorted(k);
  }

  /** With a paired top, the repaired dict renames the sorted flop to the canonical cards before re-sorting. */
  lemma PairedTopRepaired(f: seq<Card>)
    requires Sorted3(f) && FlopPattern(f) == ABA && f[1].rank == f[2].rank
    ensures var d := SuitTranslation(f[0].suit, f[1].suit, f[2].suit, C, D, C);
      IsPermutation(d) && multiset(Relabel(f, d)) == multiset(GetCanonical(f))
  {
    SuitTranslationRenames(f[0].suit, f[1].suit, f[2].suit, C, D, C);
    RelabelToClubsDiamonds(f, SuitTranslation(f[0].suit, f[1].suit, f[2].suit, C, D, C));
    Sort3OfSorted(f);
    var t := [f[0].WithSuit(C), f[1].WithSuit(D), f[2].WithSuit(C)];
    assert GetCanonical(f) == Sort3(t);
  }

  /** A total map sending the three suits of f to clubs, diamonds, clubs renames f card by card. */
  lemma RelabelToClubsDiamonds(f: seq<Card>, d: map<Suit, Suit>)
    requires |f| == 3 && Total(d) && d[f[0].suit] == C && d[f[1].suit] == D && d[f[2].suit] == C
    ensures Relabel(f, d) == [f[0].WithSuit(C), f[1].WithSuit(D), f[2].WithSuit(C)]
  {
  }

  /** With a paired bottom, the repaired dict renames the sorted flop to the canonical cards with the pair swapped. */
  lemma PairedBottomRepaired(f: seq<Card>)
    requires Sorted3(f) && FlopPattern(f) == ABB && f[0].rank == f[1].rank
    ensures var d := SuitTranslation(f[0].suit, f[1].suit, f[2].suit, D, C, C);
      IsPermutation(d) && multiset(Relabel(f, d)) == multiset(GetCanonical(f))
  {
    var d := SuitTranslation(f[0].suit, f[1].suit, f[2].suit, D, C, C);
    SuitTranslationRenames(f[0].suit, f[1].suit, f[2].suit, D, C, C);
    var k := GetCanonical(f);
    CanonicalSuits(f);
    assert k == [k[0], k[1], k[2]];
    RelabelByPositions(f, d, [k[1], k[0], k[2]]);
    Swap01(k[0], k[1], k[2]);
  }

  // ---------------------------------------------------------------------------
  // Flop classes

  /** A renaming takes its four values once each. */
  lemma PermutationOnto(p: map<Suit, Suit>)
    requires IsPermutation(p)
    ensures Arrangement([p[C], p[D], p[H], p[S]])
  {
  }

  /** The renaming that undoes p: the value of p at each suit sent back to that suit. */
  function Inverse(p: map<Suit, Suit>): (q: map<Suit, Suit>)
    requires IsPermutation(p)
    ensures IsPermutation(q)
    ensures forall a :: q[p[a]] == a
  {
    var ps := [p[C], p[D], p[H], p[S]];
    PermutationOnto(p);
    var q := Chain(p[C], p[D], p[H], p[S], C, D, H, S);
    ChainedUpdates(p[C], p[D], p[H], p[S], C, D, H, S);
    IdentityPermutation();
    PairsUpPermutation(q, ps, Suits);
    forall a: Suit ensures q[p[a]] == a {
      var i := SuitIndex(a);
      assert ps[i] == p[a] && Suits[i] == a;
    }
    q
  }

  /** p followed by q. */
  function Compose(p: map<Suit, Suit>, q: map<Suit, Suit>): (r: map<Suit, Suit>)
    requires Total(p) && Total(q)
    ensures Total(r) && forall a :: r[a] == q[p[a]]
  {
    ComposeFacts(p, q);
    Chain(C, D, H, S, q[p[C]], q[p[D]], q[p[H]], q[p[S]])
  }

  lemma ComposeFacts(p: map<Suit, Suit>, q: map<Suit, Suit>)
    requires Total(p) && Total(q)
    ensures var r := Chain(C, D, H, S, q[p[C]], q[p[D]], q[p[H]], q[p[S]]);
      Total(r) && forall a :: r[a] == q[p[a]]
  {
    var ys := [q[p[C]], q[p[D]], q[p[H]], q[p[S]]];
    var r := Chain(C, D, H, S, ys[0], ys[1], ys[2], ys[3]);
    ChainedUpdates(C, D, H, S, ys[0], ys[1], ys[2], ys[3]);
    IdentityPermutation();
    PairsUpTotal(r, Suits, ys);
    forall a: Suit ensures r[a] == q[p[a]] {
      var i := SuitIndex(a);
      assert Suits[i] == a && ys[i] == q[p[a]];
    }
  }

  /** Renaming with two renamings in turn is renaming with their composition, itself a renaming. */
  lemma RelabelCompose(f: seq<Card>, p: map<Suit, Suit>, q: map<Suit, Suit>)
    requires IsPermutation(p) && IsPermutation(q)
    ensures IsPermutation(Compose(p, q))
    ensures Relabel(f, Compose(p, q)) == Relabel(Relabel(f, p), q)
  {
    ComposeIsPermutation(p, q);
    RelabelComposed(f, p, q);
  }

  lemma ComposeIsPermutation(p: map<Suit, Suit>, q: map<Suit, Suit>)
    requires IsPermutation(p) && IsPermutation(q)
    ensures IsPermutation(Compose(p, q))
  {
    InjectiveThenInjective(p, q, Compose(p, q));
  }

  /** Renaming by p and then by q, both one-to-one, is one-to-one. */
  lemma InjectiveThenInjective(p: map<Suit, Suit>, q: map<Suit, Suit>, r: map<Suit, Suit>)
    requires IsPermutation(p) && IsPermutation(q) && Total(r)
    requires forall a :: r[a] == q[p[a]]
    ensures IsPermutation(r)
  {
    forall a: Suit, b: Suit | r[a] == r[b]
      ensures a == b
    {
      assert q[p[a]] == q[p[b]];
      assert p[a] == p[b];
    }
  }

  lemma RelabelComposed(f: seq<Card>, p: map<Suit, Suit>, q: map<Suit, Suit>)
    requires Total(p) && Total(q)
    ensures Relabel(f, Compose(p, q)) == Relabel(Relabel(f, p), q)
  {
    var x, y := Relabel(f, Compose(p, q)), Relabel(Relabel(f, p), q);
    forall i | 0 <= i < |f|
      ensures x[i] == y[i]
    {
    }
  }

  /** Renaming with p and then with its inverse gives the flop back. */
  lemma RelabelInverse(f: seq<Card>, p: map<Suit, Suit>)
    requires IsPermutation(p)
    ensures Relabel(Relabel(f, p), Inverse(p)) == f
  {
  }

  /**
   * Two flops have the same canonical form exactly when they are the same
   * flop up to the order of the cards and a renaming of the suits: the
   * canonical form decides the class.
   */
  lemma CanonicalDecidesClass(f: seq<Card>, g: seq<Card>)
    requires Distinct3(f) && Distinct3(g)
    ensures GetCanonical(f) == GetCanonical(g) <==> Isomorphic(f, g)
  {
    if GetCanonical(f) == GetCanonical(g) {
      var df, dg := CorrectedTranslationDict(f), CorrectedTranslationDict(g);
      CorrectedTranslationDictRenames(f);
      CorrectedTranslationDictRenames(g);
      var p := Compose(df, Inverse(dg));
      var x, y := Relabel(f, df), Relabel(g, dg);
      assert multiset(x) == multiset(y) by {
        assert multiset(Sort3(x)) == multiset(Sort3(y));
      }
      RelabelMultiset(x, y, Inverse(dg));
      RelabelInverse(g, dg);
      RelabelCompose(f, df, Inverse(dg));
      assert multiset(Relabel(f, p)) == multiset(g);
    }
    if Isomorphic(f, g) {
      var p :| IsPermutation(p) && multiset(Relabel(f, p)) == multiset(g);
      CanonicalOrderFree(Relabel(f, p), g);
      RelabelInvariant(f, p);
    }
  }

  /** The canonical form of a flop is in its class and is its own canonical form. */
  lemma CanonicalIdempotent(f: seq<Card>)
    requires Distinct3(f)
    ensures GetCanonical(GetCanonical(f)) == GetCanonical(f)
    ensures IsCanonical(GetCanonical(f)) && Isomorphic(f, GetCanonical(f))
  {
    var d := CorrectedTranslationDict(f);
    CorrectedTranslationDictRenames(f);
    CanonicalForm(f);
    var x := Relabel(f, d);
    CanonicalOrderFree(GetCanonical(f), x);
    RelabelInvariant(f, d);
  }

  // ---------------------------------------------------------------------------
  // All canonical flops

  /** The flop of the cards at positions i, j, k of the deck. */
  function DeckFlop(i: nat, j: nat, k: nat): (f: seq<Card>)
    requires i < j < k < 52
    ensures Distinct3(f)
  {
    DeckEnumeratesCards(i, j);
    DeckEnumeratesCards(j, k);
    DeckEnumeratesCards(i, k);
    [Deck()[i], Deck()[j], Deck()[k]]
  }

  /** get_all_canonicals: the canonical forms of combinations(CARDS.values(), r=3). */
  function GetAllCanonicals(): set<seq<Card>> {
    set i: nat, j: nat, k: nat | i < j < k < 52 :: GetCanonical(DeckFlop(i, j, k))
  }

  /** The positions in the deck of three different cards, in increasing order. */
  lemma DeckPositions(f: seq<Card>) returns (i: nat, j: nat, k: nat)
    requires Distinct3(f)
    ensures i < j < k < 52 && multiset(DeckFlop(i, j, k)) == multiset(f)
  {
    var v := FlopIndices(f);
    assert forall n :: 0 <= n < 3 ==> 0 <= v[n] < 52 && Deck()[v[n]] == f[n];
    var o := IncreasingOrder(v);
    i, j, k := v[o[0]], v[o[1]], v[o[2]];
    PickedFromDeck(f, v, o);
  }

  /** The deck cards at the positions of a flop's cards, taken in order o, are the flop's cards in order o. */
  lemma PickedFromDeck(f: seq<Card>, v: seq<int>, o: seq<nat>)
    requires |f| == 3 && |v| == 3 && IsOrder3(o)
    requires forall n :: 0 <= n < 3 ==> 0 <= v[n] < 52 && Deck()[v[n]] == f[n]
    requires v[o[0]] < v[o[1]] < v[o[2]]
    ensures DeckFlop(v[o[0]], v[o[1]], v[o[2]]) == Pick(f, o)
  {
  }

  /** The deck positions of the three cards of a flop. */
  lemma FlopIndices(f: seq<Card>) returns (v: seq<int>)
    requires Distinct3(f)
    ensures |v| == 3 && v[0] != v[1] && v[1] != v[2] && v[0] != v[2]
    ensures 0 <= v[0] < 52 && 0 <= v[1] < 52 && 0 <= v[2] < 52
    ensures Deck()[v[0]] == f[0] && Deck()[v[1]] == f[1] && Deck()[v[2]] == f[2]
  {
    v := [DeckIndex(f[0]), DeckIndex(f[1]), DeckIndex(f[2])];
  }

  /** get_all_canonicals holds exactly the flops that are their own canonical form. */
  lemma AllCanonicalsExact(f: seq<Card>)
    ensures f in GetAllCanonicals() <==> IsCanonical(f)
  {
    if f in GetAllCanonicals() {
      AllCanonicalsAreCanonical(f);
    }
    if IsCanonical(f) {
      CanonicalsAreListed(f);
    }
  }

  lemma AllCanonicalsAreCanonical(f: seq<Card>)
    requires f in GetAllCanonicals()
    ensures IsCanonical(f)
  {
    var i: nat, j: nat, k: nat :| i < j < k < 52 && f == GetCanonical(DeckFlop(i, j, k));
    CanonicalIdempotent(DeckFlop(i, j, k));
  }

  lemma CanonicalsAreListed(f: seq<Card>)
    requires IsCanonical(f)
    ensures f in GetAllCanonicals()
  {
    var i, j, k := DeckPositions(f);
    CanonicalOrderFree(DeckFlop(i, j, k), f);
    assert f == GetCanonical(DeckFlop(i, j, k));
  }

  // ---------------------------------------------------------------------------
  // The documented examples

  /** Ks 2c 3s has the canonical form 2c 3d Kd. */
  lemma CanonicalExample()
    ensures GetCanonical([Card(13, S), Card(2, C), Card(3, S)]) == [Card(2, C), Card(3, D), Card(13, D)]
  {
    var f := [Card(13, S), Card(2, C), Card(3, S)];
    assert Sort3(f) == [Card(2, C), Card(3, S), Card(13, S)];
  }

  /** 6h 2d Qd has the canonical form 2c 6d Qc, and its dict is {c: h, d: c, h: d, s: s}. */
  lemma TranslationDictExample(flop: seq<Card>)
    requires flop == [Card(6, H), Card(2, D), Card(12, D)]
    ensures GetCanonical(flop) == [Card(2, C), Card(6, D), Card(12, C)]
    ensures var d := GetTranslationDict(flop); Total(d) && d[C] == H && d[D] == C && d[H] == D && d[S] == S
  {
    DictExampleCanonical(flop);
    DictOfSuits(flop, D, H, D, C, D, C);
    SuitTranslationExample();
  }

  lemma DictExampleCanonical(flop: seq<Card>)
    requires flop == [Card(6, H), Card(2, D), Card(12, D)]
    ensures Sort3(flop) == [Card(2, D), Card(6, H), Card(12, D)]
    ensures GetCanonical(flop) == [Card(2, C), Card(6, D), Card(12, C)]
  {
    DictExampleSorted(flop);
    DictExampleRenamed([Card(2, D), Card(6, H), Card(12, D)]);
  }

  lemma DictExampleSorted(flop: seq<Card>)
    requires flop == [Card(6, H), Card(2, D), Card(12, D)]
    ensures Sort3(flop) == [Card(2, D), Card(6, H), Card(12, D)]
  {
  }

  lemma DictExampleRenamed(f: seq<Card>)
    requires f == [Card(2, D), Card(6, H), Card(12, D)]
    ensures RenameSorted(f) == [Card(2, C), Card(6, D), Card(12, C)]
  {
    var t := [Card(2, C), Card(6, D), Card(12, C)];
    assert RenameSorted(f) == Sort3(t);
    Sort3OfSorted(t);
  }

  /** The dict of a flop, once the suits of its sorted and canonical forms are known. */
  lemma DictOfSuits(flop: seq<Card>, s1: Suit, s2: Suit, s3: Suit, k1: Suit, k2: Suit, k3: Suit)
    requires |flop| == 3 && SuitsOf(Sort3(flop)) == (s1, s2, s3) && SuitsOf(GetCanonical(Sort3(flop))) == (k1, k2, k3)
    requires s1 == s2 == s3 ==> k1 == k2 == k3
    requires s1 == s2 || s2 == s3 || s1 == s3 ==> k1 == k2 || k2 == k3 || k1 == k3
    ensures GetTranslationDict(flop) == SuitTranslation(s1, s2, s3, k1, k2, k3)
  {
  }

  /** The dict of a sorted flop with suits d, h, d and canonical suits c, d, c. */
  lemma SuitTranslationExample()
    ensures var d := SuitTranslation(D, H, D, C, D, C);
      Total(d) && d[C] == H && d[D] == C && d[H] == D && d[S] == S
  {
    var xs, ys := PairsTwoSuits(D, H, D, C, D, C);
    assert Unused({D, H, D}) == [C, S];
    assert Unused({C, D, C}) == [H, S];
    PairsUpTotal(SuitTranslation(D, H, D, C, D, C), xs, ys);
  }

  /** As 4s Ts has the four monotone isomorphs in clubs, diamonds, hearts and spades; Kd Qh 8c has 24. */
  lemma SuitIsomorphsExample()
    ensures GetSuitIsomorphs([Card(14, S), Card(4, S), Card(10, S)]) ==
      [[Card(14, C), Card(4, C), Card(10, C)], [Card(14, D), Card(4, D), Card(10, D)],
       [Card(14, H), Card(4, H), Card(10, H)], [Card(14, S), Card(4, S), Card(10, S)]]
    ensures |GetSuitIsomorphs([Card(13, D), Card(12, H), Card(8, C)])| == 24
  {
  }

  /** Jh Qd Qh: the canonical form is Jc Qc Qd, and the dict as written sends both h and d to c. */
  lemma PairedTopExample(flop: seq<Card>)
    requires flop == [Card(11, H), Card(12, D), Card(12, H)]
    ensures GetCanonical(flop) == [Card(11, C), Card(12, C), Card(12, D)]
    ensures var d := GetTranslationDict(flop); Total(d) && d[H] == C && d[D] == C
  {
    Sort3OfSorted(flop);
    var t := [Card(11, C), Card(12, D), Card(12, C)];
    assert Sort3(t) == [Card(11, C), Card(12, C), Card(12, D)];
    PairedTopNotRenaming(flop);
  }

  /**
   * 2c 2d 8d: the canonical form is 2c 2d 8c, but the dict as written is the
   * identity, which leaves the flop as it is.
   */
  lemma PairedBottomExample(flop: seq<Card>)
    requires flop == [Card(2, C), Card(2, D), Card(8, D)]
    ensures GetCanonical(flop) == [Card(2, C), Card(2, D), Card(8, C)]
    ensures var d := GetTranslationDict(flop); Total(d) && forall s :: d[s] == s
    ensures Relabel(flop, GetTranslationDict(flop)) == flop != GetCanonical(flop)
  {
    Sort3OfSorted(flop);
    var xs, ys := PairsTwoSuits(C, D, D, C, D, C);
    assert Unused({C, D, D}) == [H, S] && Unused({C, D, C}) == [H, S];
    DictOfSuits(flop, C, D, D, C, D, C);
    TranslationDictTotal(flop);
    var d := GetTranslationDict(flop);
    forall s: Suit ensures d[s] == s {
      var i := PositionIn(xs, s);
    }
  }
}
