/**
 * The card model shared by every module: suits, numerical ranks 2..14, cards,
 * their names ("Kh", "2s") and the poker ordering of cards (rank first, then
 * the suit letter alphabetically).
 */
module Cards {
  import opened Outcomes

  /** The four suits; their letters are 'c' < 'd' < 'h' < 's'. */
  datatype Suit = C | D | H | S

  /** SUITS = "cdhs" as a sequence of suits. */
  const Suits: seq<Suit> := [C, D, H, S]

  const AllSuits: set<Suit> := {C, D, H, S}

  function SuitChar(s: Suit): char {
    match s
    case C => 'c'
    case D => 'd'
    case H => 'h'
    case S => 's'
  }

  function SuitOfChar(ch: char): (r: Option<Suit>)
    ensures r.Some? <==> ch in "cdhs"
    ensures r.Some? ==> SuitChar(r.value) == ch
  {
    if ch == 'c' then Some(C)
    else if ch == 'd' then Some(D)
    else if ch == 'h' then Some(H)
    else if ch == 's' then Some(S)
    else None
  }

  /** The position of a suit in SUITS. */
  function SuitIndex(s: Suit): (i: nat)
    ensures i < 4 && Suits[i] == s
  {
    match s
    case C => 0
    case D => 1
    case H => 2
    case S => 3
  }

  /** A numerical rank: 2..9, then T=10, J=11, Q=12, K=13, A=14. */
  type Rank = r: int | 2 <= r <= 14 witness 2

  /** RANKS = "23456789TJQKA": RANKS[r - 2] is the letter of rank r. */
  const RankChars: string := "23456789TJQKA"

  function RankChar(r: Rank): char {
    RankChars[r - 2]
  }

  /** RANK_STR_TO_NUM on one letter: the rank whose letter is ch, if any. */
  function RankOfChar(ch: char): (r: Option<Rank>)
    ensures r.Some? <==> ch in RankChars
    ensures r.Some? ==> RankChar(r.value) == ch
  {
    RankCharsListed(ch);
    if ch == '2' then Some(2) else if ch == '3' then Some(3)
    else if ch == '4' then Some(4) else if ch == '5' then Some(5)
    else if ch == '6' then Some(6) else if ch == '7' then Some(7)
    else if ch == '8' then Some(8) else if ch == '9' then Some(9)
    else if ch == 'T' then Some(10) else if ch == 'J' then Some(11)
    else if ch == 'Q' then Some(12) else if ch == 'K' then Some(13)
    else if ch == 'A' then Some(14) else None
  }

  /** The rank letters, one by one. */
  lemma RankCharsListed(ch: char)
    ensures ch in RankChars <==>
      ch == '2' || ch == '3' || ch == '4' || ch == '5' || ch == '6' || ch == '7' || ch == '8' ||
      ch == '9' || ch == 'T' || ch == 'J' || ch == 'Q' || ch == 'K' || ch == 'A'
  {
    if ch in RankChars {
      var i :| 0 <= i < |RankChars| && RankChars[i] == ch;
    }
  }

  datatype Card = Card(rank: Rank, suit: Suit) {
    /** The same rank with another suit: CARDS[card.rank + suit]. */
    function WithSuit(s: Suit): Card {
      Card(rank, s)
    }
  }

  /** The two-letter name of a card, rank letter then suit letter. */
  function Name(c: Card): (n: string)
    ensures |n| == 2 && n[0] in RankChars && n[1] in "cdhs"
  {
    [RankChar(c.rank), SuitChar(c.suit)]
  }

  /** CARDS[name]: the card with that name, if the name is one. */
  function CardOfName(name: string): (r: Option<Card>)
    ensures r.Some? ==> Name(r.value) == name
  {
    if |name| != 2 then None
    else
      match (RankOfChar(name[0]), SuitOfChar(name[1]))
      case (Some(r), Some(s)) => Some(Card(r, s))
      case _ => None
  }

  // The four comparison operators of Card: compare the numerical rank, and on
  // equal ranks compare the suit letters.

  predicate Lt(a: Card, b: Card) {
    if a.rank == b.rank then SuitChar(a.suit) < SuitChar(b.suit) else a.rank < b.rank
  }

  predicate Le(a: Card, b: Card) {
    if a.rank == b.rank then SuitChar(a.suit) <= SuitChar(b.suit) else a.rank <= b.rank
  }

  predicate Gt(a: Card, b: Card) {
    if a.rank == b.rank then SuitChar(a.suit) > SuitChar(b.suit) else a.rank > b.rank
  }

  predicate Ge(a: Card, b: Card) {
    if a.rank == b.rank then SuitChar(a.suit) >= SuitChar(b.suit) else a.rank >= b.rank
  }

  /** No card occurs twice. */
  predicate Distinct(s: seq<Card>) {
    forall i, j :: 0 <= i < j < |s| ==> s[i] != s[j]
  }

  /** Non-decreasing in the card order. */
  predicate Sorted(s: seq<Card>) {
    forall i, j :: 0 <= i < j < |s| ==> Le(s[i], s[j])
  }

  /** Three cards in non-decreasing card order. */
  predicate Sorted3(f: seq<Card>) {
    |f| == 3 && Le(f[0], f[1]) && Le(f[1], f[2])
  }

  /** Three different cards. */
  predicate Distinct3(f: seq<Card>) {
    |f| == 3 && f[0] != f[1] && f[1] != f[2] && f[0] != f[2]
  }

  /** For three cards the explicit forms agree with the general ones. */
  lemma ThreeCardForms(f: seq<Card>)
    requires |f| == 3
    ensures Sorted3(f) <==> Sorted(f)
    ensures Distinct3(f) <==> Distinct(f)
  {
    if Sorted3(f) {
      assert Le(f[0], f[2]);
    }
    if Distinct(f) {
      assert f[0] != f[1] && f[1] != f[2] && f[0] != f[2];
    }
  }

  /** One of the six orders of three positions. */
  predicate IsOrder3(o: seq<nat>) {
    |o| == 3 && o[0] < 3 && o[1] < 3 && o[2] < 3 && o[0] != o[1] && o[1] != o[2] && o[0] != o[2]
  }

  /** The order that lists three different numbers v increasingly. */
  lemma IncreasingOrder(v: seq<int>) returns (o: seq<nat>)
    requires |v| == 3 && v[0] != v[1] && v[1] != v[2] && v[0] != v[2]
    ensures IsOrder3(o) && v[o[0]] < v[o[1]] < v[o[2]]
  {
    var a, b, c := v[0], v[1], v[2];
    o := if a < b < c then [0, 1, 2] else if a < c < b then [0, 2, 1]
      else if b < a < c then [1, 0, 2] else if b < c < a then [1, 2, 0]
      else if c < a < b then [2, 0, 1] else [2, 1, 0];
  }

  /** The three cards of `f` taken in the order `o`. */
  function Pick(f: seq<Card>, o: seq<nat>): (r: seq<Card>)
    requires |f| == 3 && IsOrder3(o)
    ensures |r| == 3 && multiset(r) == multiset(f)
  {
    PickMultiset(f, o);
    [f[o[0]], f[o[1]], f[o[2]]]
  }

  lemma Swap01(a: Card, b: Card, c: Card)
    ensures multiset([a, b, c]) == multiset([b, a, c])
  {
  }

  lemma Swap12(a: Card, b: Card, c: Card)
    ensures multiset([a, b, c]) == multiset([a, c, b])
  {
  }

  /** Each of the six orders is reached from [a, b, c] by swaps of neighbours. */
  lemma PickMultiset(f: seq<Card>, o: seq<nat>)
    requires |f| == 3 && IsOrder3(o)
    ensures multiset([f[o[0]], f[o[1]], f[o[2]]]) == multiset(f)
  {
    var a, b, c := f[0], f[1], f[2];
    assert f == [a, b, c];
    var r := [f[o[0]], f[o[1]], f[o[2]]];
    if o == [0, 1, 2] {
    } else if o == [0, 2, 1] {
      assert r == [a, c, b];
      Swap12(a, b, c);
    } else if o == [1, 0, 2] {
      assert r == [b, a, c];
      Swap01(a, b, c);
    } else if o == [1, 2, 0] {
      assert r == [b, c, a];
      Swap01(a, b, c);
      Swap12(b, a, c);
    } else if o == [2, 0, 1] {
      assert r == [c, a, b];
      Swap12(a, b, c);
      Swap01(a, c, b);
    } else {
      assert o == [2, 1, 0];
      assert r == [c, b, a];
      Swap01(a, b, c);
      Swap12(b, a, c);
      Swap01(b, c, a);
    }
  }

  /** The positions that sorted() takes the three cards from, found by the card comparisons. */
  function SortOrder(f: seq<Card>): (o: seq<nat>)
    requires |f| == 3
    ensures IsOrder3(o)
  {
    var a, b, c := f[0], f[1], f[2];
    if Le(a, b) then
      if Le(b, c) then [0, 1, 2] else if Le(a, c) then [0, 2, 1] else [2, 0, 1]
    else
      if Le(a, c) then [1, 0, 2] else if Le(b, c) then [1, 2, 0] else [2, 1, 0]
  }

  /** sorted(flop) for three cards: the three cards in non-decreasing order. */
  function Sort3(f: seq<Card>): (r: seq<Card>)
    requires |f| == 3
    ensures |r| == 3 && multiset(r) == multiset(f) && Sorted3(r)
    ensures Distinct3(f) ==> Distinct3(r)
  {
    Pick(f, SortOrder(f))
  }

  /** The suit letters order the suits as SUITS does: c < d < h < s. */
  lemma SuitLettersFollowSuits(a: Suit, b: Suit)
    ensures SuitChar(a) < SuitChar(b) <==> SuitIndex(a) < SuitIndex(b)
    ensures SuitChar(a) == SuitChar(b) <==> a == b
  {
  }

  /** RANK_STR_TO_NUM and RANK_NUM_TO_STR are inverse bijections between the letters and 2..14. */
  lemma RankLettersRoundTrip(r: Rank, ch: char)
    ensures RankOfChar(RankChar(r)) == Some(r)
    ensures RankOfChar(ch).Some? ==> RankChar(RankOfChar(ch).value) == ch
  {
  }

  /** Every card is found again under its own name. */
  lemma NameRoundTrip(c: Card)
    ensures CardOfName(Name(c)) == Some(c)
  {
    RankLettersRoundTrip(c.rank, RankChar(c.rank));
  }

  /**
   * The comparison operators agree with each other and form a total order:
   * `<=` is `<` or equality, `>` and `>=` are the converses, and `<` is
   * irreflexive, transitive and total on distinct cards.
   */
  lemma CardOrder(a: Card, b: Card, c: Card)
    ensures Le(a, b) <==> Lt(a, b) || a == b
    ensures Gt(a, b) <==> Lt(b, a)
    ensures Ge(a, b) <==> Le(b, a)
    ensures !Lt(a, a)
    ensures Lt(a, b) && Lt(b, c) ==> Lt(a, c)
    ensures a != b ==> Lt(a, b) != Lt(b, a)
  {
  }

  /** Two sorted sequences with the same cards are the same sequence. */
  lemma {:induction false} SortedUnique(x: seq<Card>, y: seq<Card>)
    requires Sorted(x) && Sorted(y) && multiset(x) == multiset(y)
    ensures x == y
  {
    assert |x| == |multiset(x)| == |multiset(y)| == |y|;
    if |x| > 0 {
      HeadIsLeast(x, y[0]);
      HeadIsLeast(y, x[0]);
      assert x[0] == y[0];
      TailMultiset(x);
      TailMultiset(y);
      SortedUnique(x[1..], y[1..]);
    }
  }

  /** The first card of a sorted sequence is at most every card in it. */
  lemma HeadIsLeast(x: seq<Card>, c: Card)
    requires Sorted(x) && c in multiset(x)
    ensures Le(x[0], c)
  {
    var k :| 0 <= k < |x| && x[k] == c;
  }

  lemma TailMultiset<T>(x: seq<T>)
    requires |x| > 0
    ensures multiset(x[1..]) == multiset(x) - multiset{x[0]}
  {
    assert x == [x[0]] + x[1..];
  }

  /** sorted() of a flop depends only on which cards it holds, not on their order. */
  lemma Sort3OrderFree(f: seq<Card>, g: seq<Card>)
    requires |f| == 3 && |g| == 3 && multiset(f) == multiset(g)
    ensures Sort3(f) == Sort3(g)
  {
    ThreeCardForms(Sort3(f));
    ThreeCardForms(Sort3(g));
    SortedUnique(Sort3(f), Sort3(g));
  }

  /** A flop that is already sorted is left as it is. */
  lemma Sort3OfSorted(f: seq<Card>)
    requires Sorted3(f)
    ensures Sort3(f) == f
  {
    ThreeCardForms(f);
    ThreeCardForms(Sort3(f));
    SortedUnique(Sort3(f), f);
  }
}
