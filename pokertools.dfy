/**
 * The card containers and utilities of the packaged pokertools module:
 * the name tables, the rank maps, the suit pairs, turning names into cards,
 * the five-card guard, conflict filtering, dealing from a deck, and the
 * rank statistics that the property modules are built on.
 */
module PokerTools {
  import opened Outcomes
  import opened Cards
  import opened Sorting

  // ---------------------------------------------------------------------------
  // Name tables

  /** CARDS in the order of CARD_NAMES: highest rank first, suits c, d, h, s within a rank. */
  function Deck(): (d: seq<Card>)
    ensures |d| == 52
  {
    seq(52, i requires 0 <= i < 52 => DeckCard(i))
  }

  /** The card at position i of CARD_NAMES: rank 14 - i / 4, suit SUITS[i % 4]. */
  function DeckCard(i: nat): Card
    requires i < 52
  {
    Card(14 - i / 4, Suits[i % 4])
  }

  /** CARD_NAMES: "Ac", "Ad", "Ah", "As", "Kc", ..., "2s". */
  function CardNames(): (n: seq<string>)
    ensures |n| == 52
  {
    seq(52, i requires 0 <= i < 52 => Name(DeckCard(i)))
  }

  /** The position of a card in CARD_NAMES. */
  function DeckIndex(c: Card): (i: nat)
    ensures i < 52 && DeckCard(i) == c && Deck()[i] == c && CardNames()[i] == Name(c)
  {
    var i := 4 * (14 - c.rank) + SuitIndex(c.suit);
    assert i / 4 == 14 - c.rank && i % 4 == SuitIndex(c.suit);
    assert DeckCard(i) == c;
    assert Deck()[i] == DeckCard(i) && CardNames()[i] == Name(DeckCard(i));
    i
  }

  /** CARD_NAMES lists each of the 52 cards exactly once, ranks from A down to 2, suits c, d, h, s within a rank. */
  lemma DeckEnumeratesCards(i: int, j: int)
    requires 0 <= i < 52 && 0 <= j < 52
    ensures DeckIndex(Deck()[i]) == i
    ensures i != j ==> Deck()[i] != Deck()[j] && CardNames()[i] != CardNames()[j]
    ensures i < j ==> Deck()[i].rank > Deck()[j].rank ||
                      (Deck()[i].rank == Deck()[j].rank && SuitIndex(Deck()[i].suit) < SuitIndex(Deck()[j].suit))
  {
    assert Deck()[i] == DeckCard(i) && Deck()[j] == DeckCard(j);
    assert i == 4 * (i / 4) + i % 4 && j == 4 * (j / 4) + j % 4;
    assert SuitIndex(Suits[i % 4]) == i % 4 && SuitIndex(Suits[j % 4]) == j % 4;
    NameRoundTrip(Deck()[i]);
    NameRoundTrip(Deck()[j]);
  }

  /** SUIT_PERMUTATIONS = permutations(SUITS, 2): the ordered pairs of different suits. */
  const SuitPermutations: seq<(Suit, Suit)> :=
    [(C, D), (C, H), (C, S), (D, C), (D, H), (D, S),
     (H, C), (H, D), (H, S), (S, C), (S, D), (S, H)]

  /** SUIT_COMBINATIONS = combinations(SUITS, 2): the unordered pairs of different suits. */
  const SuitCombinations: seq<(Suit, Suit)> :=
    [(C, D), (C, H), (C, S), (D, H), (D, S), (H, S)]

  /** Pairs of suits compared by position in SUITS, first component first. */
  predicate PairBefore(p: (Suit, Suit), q: (Suit, Suit)) {
    SuitIndex(p.0) < SuitIndex(q.0) || (p.0 == q.0 && SuitIndex(p.1) < SuitIndex(q.1))
  }

  /**
   * SUIT_PERMUTATIONS holds exactly the pairs of two different suits, in the
   * lexicographic order that itertools.permutations produces them.
   */
  lemma SuitPermutationsEnumerate(a: Suit, b: Suit)
    ensures |SuitPermutations| == 12
    ensures (a, b) in SuitPermutations <==> a != b
    ensures forall i, j :: 0 <= i < j < 12 ==> PairBefore(SuitPermutations[i], SuitPermutations[j])
  {
  }

  /**
   * SUIT_COMBINATIONS holds exactly the pairs of two suits in SUITS order,
   * lexicographically ordered as itertools.combinations produces them.
   */
  lemma SuitCombinationsEnumerate(a: Suit, b: Suit)
    ensures |SuitCombinations| == 6
    ensures (a, b) in SuitCombinations <==> SuitIndex(a) < SuitIndex(b)
    ensures forall i, j :: 0 <= i < j < 6 ==> PairBefore(SuitCombinations[i], SuitCombinations[j])
  {
  }

  // ---------------------------------------------------------------------------
  // Holecard names

  /** The name of an ordered pair of cards: "Ac Kc". */
  function HolecardName(a: Card, b: Card): string {
    Name(a) + " " + Name(b)
  }

  /** Different cards have different names. */
  lemma NameInjective(a: Card, b: Card)
    ensures Name(a) == Name(b) ==> a == b
  {
    NameRoundTrip(a);
    NameRoundTrip(b);
  }

  /** A holecard name is the two card names around one space, so it determines both of its cards. */
  lemma HolecardNameInjective(a: Card, b: Card, c: Card, d: Card)
    ensures var n := HolecardName(a, b); |n| == 5 && n[..2] == Name(a) && n[2] == ' ' && n[3..] == Name(b)
    ensures HolecardName(a, b) == HolecardName(c, d) ==> a == c && b == d
  {
    var n, m := HolecardName(a, b), HolecardName(c, d);
    assert n[..2] == Name(a) && n[3..] == Name(b);
    assert m[..2] == Name(c) && m[3..] == Name(d);
    NameInjective(a, c);
    NameInjective(b, d);
  }

  /** The position in CARD_NAMES of the k-th card other than card i. */
  function SkipIndex(i: nat, k: nat): (j: nat)
    requires i < 52 && k < 51
    ensures j < 52 && j != i
  {
    if k < i then k else k + 1
  }

  /**
   * HOLECARDS_NAMES: for each first card in CARD_NAMES order, the names with
   * every other card of CARD_NAMES second; entry 51 * i + k pairs card i with
   * the k-th card other than i.
   */
  function HolecardsNames(): (n: seq<string>)
    ensures |n| == 2652
  {
    seq(2652, n requires 0 <= n < 2652 => HolecardsNameAt(n))
  }

  /** Entry n of HOLECARDS_NAMES. */
  function HolecardsNameAt(n: nat): string
    requires n < 2652
  {
    HolecardsEntry(n / 51, n % 51)
  }

  /** The name pairing card i of CARD_NAMES with the k-th card other than i. */
  function HolecardsEntry(i: nat, k: nat): string
    requires i < 52 && k < 51
  {
    HolecardName(DeckCard(i), DeckCard(SkipIndex(i, k)))
  }

  lemma DivMod51(i: nat, k: nat)
    requires k < 51
    ensures (51 * i + k) / 51 == i && (51 * i + k) % 51 == k
  {
    var n := 51 * i + k;
    var q, r := n / 51, n % 51;
    assert n == 51 * q + r && 0 <= r < 51;
    assert 51 * (q - i) == k - r;
  }

  lemma HolecardsAt(i: nat, k: nat)
    requires i < 52 && k < 51
    ensures (51 * i + k) / 51 == i && (51 * i + k) % 51 == k
    ensures 51 * i + k < 2652 && HolecardsNames()[51 * i + k] == HolecardsEntry(i, k)
  {
    var n := 51 * i + k;
    DivMod51(i, k);
    assert HolecardsNames()[n] == HolecardsNameAt(n);
  }

  /** The k for which card j is the k-th card other than card i. */
  function Unskip(i: nat, j: nat): (k: nat)
    requires i < 52 && j < 52 && i != j
    ensures k < 51 && SkipIndex(i, k) == j
  {
    if j < i then j else j - 1
  }

  lemma HolecardsIndexFacts(a: Card, b: Card)
    requires a != b
    ensures 51 * DeckIndex(a) + Unskip(DeckIndex(a), DeckIndex(b)) < 2652
    ensures HolecardsNames()[51 * DeckIndex(a) + Unskip(DeckIndex(a), DeckIndex(b))] == HolecardName(a, b)
    ensures (51 * DeckIndex(a) + Unskip(DeckIndex(a), DeckIndex(b))) / 51 == DeckIndex(a)
  {
    HolecardsAt(DeckIndex(a), Unskip(DeckIndex(a), DeckIndex(b)));
  }

  /** The position of the ordered pair (a, b) in HOLECARDS_NAMES. */
  function HolecardsIndex(a: Card, b: Card): (n: nat)
    requires a != b
    ensures n < 2652 && HolecardsNames()[n] == HolecardName(a, b)
    ensures n / 51 == DeckIndex(a)
  {
    HolecardsIndexFacts(a, b);
    51 * DeckIndex(a) + Unskip(DeckIndex(a), DeckIndex(b))
  }

  /** Position i of CARD_NAMES holds the card whose position is i. */
  lemma DeckCardIndex(i: nat)
    requires i < 52
    ensures DeckIndex(DeckCard(i)) == i
  {
    DeckEnumeratesCards(i, i);
    assert Deck()[i] == DeckCard(i);
  }

  lemma HolecardsNameAtCards(n: nat)
    requires n < 2652
    ensures HolecardsNames()[n] == HolecardName(DeckCard(n / 51), DeckCard(SkipIndex(n / 51, n % 51)))
  {
  }

  /** HOLECARDS_NAMES holds the name of an ordered pair of cards exactly when the two cards differ. */
  lemma HolecardsNamesMembership(a: Card, b: Card)
    ensures HolecardName(a, b) in HolecardsNames() <==> a != b
  {
    if HolecardName(a, b) in HolecardsNames() {
      var p :| 0 <= p < 2652 && HolecardsNames()[p] == HolecardName(a, b);
      HolecardsNameAtCards(p);
      var i := p / 51;
      var j := SkipIndex(i, p % 51);
      HolecardNameInjective(a, b, DeckCard(i), DeckCard(j));
      DeckCardIndex(i);
      DeckCardIndex(j);
    }
    if a != b {
      var p := HolecardsIndex(a, b);
    }
  }

  /**
   * HOLECARDS_NAMES lists each name once, grouped by the first card in
   * CARD_NAMES order.
   */
  lemma HolecardsNamesDistinct(n: nat, m: nat)
    requires n < m < 2652
    ensures HolecardsNames()[n] != HolecardsNames()[m]
    ensures n / 51 <= m / 51
  {
    var i, k := n / 51, n % 51;
    var i', k' := m / 51, m % 51;
    assert n == 51 * i + k && m == 51 * i' + k';
    assert i <= i';
    HolecardsNameAtCards(n);
    HolecardsNameAtCards(m);
    var j, j' := SkipIndex(i, k), SkipIndex(i', k');
    if HolecardsNames()[n] == HolecardsNames()[m] {
      HolecardNameInjective(DeckCard(i), DeckCard(j), DeckCard(i'), DeckCard(j'));
      DeckCardIndex(i);
      DeckCardIndex(j);
      DeckCardIndex(i');
      DeckCardIndex(j');
    }
  }

  /** HOLECARDS[name]: the two cards of a holecard name, if it is one. */
  function HolecardsOfName(s: string): (r: Option<(Card, Card)>)
    ensures r.Some? ==> r.value.0 != r.value.1 && HolecardName(r.value.0, r.value.1) == s
    ensures r.Some? <==> s in HolecardsNames()
  {
    if |s| != 5 || s[2] != ' ' then
      assert s !in HolecardsNames();
      None
    else
      match (CardOfName(s[..2]), CardOfName(s[3..]))
      case (Some(a), Some(b)) =>
        assert s == Name(a) + " " + Name(b);
        HolecardsNamesMembership(a, b);
        if a != b then Some((a, b)) else None
      case _ =>
        assert s !in HolecardsNames();
        None
  }

  /** CANONICAL_HOLECARDS_NAMES: the names of the pairs whose first card comes earlier in CARD_NAMES. */
  function CanonicalHolecardsNames(): set<string> {
    set i, j | 0 <= i < j < 52 :: HolecardName(DeckCard(i), DeckCard(j))
  }

  /**
   * A holecard name is canonical exactly when its first card comes earlier in
   * CARD_NAMES: it has the higher rank, or the same rank and the earlier suit.
   * Every canonical name is a holecard name.
   */
  lemma CanonicalHolecardsMembership(a: Card, b: Card, s: string)
    ensures HolecardName(a, b) in CanonicalHolecardsNames() <==> DeckIndex(a) < DeckIndex(b)
    ensures DeckIndex(a) < DeckIndex(b) <==>
              a.rank > b.rank || (a.rank == b.rank && SuitIndex(a.suit) < SuitIndex(b.suit))
    ensures s in CanonicalHolecardsNames() ==> s in HolecardsNames()
  {
    var i, j := DeckIndex(a), DeckIndex(b);
    if HolecardName(a, b) in CanonicalHolecardsNames() {
      var i', j' :| 0 <= i' < j' < 52 && HolecardName(DeckCard(i'), DeckCard(j')) == HolecardName(a, b);
      HolecardNameInjective(a, b, DeckCard(i'), DeckCard(j'));
      assert Deck()[i'] == DeckCard(i') && Deck()[j'] == DeckCard(j');
      DeckEnumeratesCards(i', j');
    }
    if i < j {
      assert Deck()[i] == DeckCard(i) && Deck()[j] == DeckCard(j);
      assert HolecardName(DeckCard(i), DeckCard(j)) in CanonicalHolecardsNames();
    }
    if i != j {
      DeckEnumeratesCards(i, j);
      DeckEnumeratesCards(j, i);
    } else {
      DeckEnumeratesCards(i, i);
    }
    if s in CanonicalHolecardsNames() {
      var i', j' :| 0 <= i' < j' < 52 && HolecardName(DeckCard(i'), DeckCard(j')) == s;
      assert Deck()[i'] == DeckCard(i') && Deck()[j'] == DeckCard(j');
      DeckEnumeratesCards(i', j');
      HolecardsNamesMembership(DeckCard(i'), DeckCard(j'));
    }
  }

  // ---------------------------------------------------------------------------
  // Rank maps

  /** get_numerical_rank = RANK_STR_TO_NUM.__getitem__: KeyError unless the key is one rank letter. */
  function GetNumericalRank(s: string): (r: Result<Rank>)
    ensures r.Ok? <==> |s| == 1 && s[0] in RankChars
    ensures r.Ok? ==> RankChar(r.value) == s[0]
    ensures r.Err? ==> r.error == KeyError
  {
    if |s| != 1 then Err(KeyError)
    else
      match RankOfChar(s[0])
      case Some(n) => Ok(n)
      case None => Err(KeyError)
  }

  /** get_string_rank = RANK_NUM_TO_STR.__getitem__: KeyError unless 2 <= n <= 14. */
  function GetStringRank(n: int): (r: Result<string>)
    ensures r.Ok? <==> 2 <= n <= 14
    ensures r.Ok? ==> |r.value| == 1 && r.value[0] in RankChars
    ensures r.Err? ==> r.error == KeyError
  {
    if 2 <= n <= 14 then Ok([RankChar(n)]) else Err(KeyError)
  }

  /** The two rank maps are inverse bijections between the rank letters and 2..14. */
  lemma RankMapsRoundTrip(n: int, s: string)
    ensures 2 <= n <= 14 ==> GetNumericalRank(GetStringRank(n).value) == Ok(n)
    ensures GetNumericalRank(s).Ok? ==> GetStringRank(GetNumericalRank(s).value) == Ok(s)
  {
    if 2 <= n <= 14 {
      RankLettersRoundTrip(n, RankChar(n));
    }
    if GetNumericalRank(s).Ok? {
      assert s == [s[0]];
    }
  }

  // ---------------------------------------------------------------------------
  // cards_from_str

  /**
   * The characters str.split() separates on in Python 3: the ASCII whitespace
   * and separator controls (U+0009 to U+000D, U+001C to U+0020) and the
   * Unicode whitespace U+0085, U+00A0, U+1680, U+2000 to U+200A, U+2028,
   * U+2029, U+202F, U+205F and U+3000.
   */
  predicate IsSpace(ch: char) {
    var c := ch as int;
    9 <= c <= 13 || 28 <= c <= 32 || c == 0x85 || c == 0xA0 || c == 0x1680 ||
    0x2000 <= c <= 0x200A || c == 0x2028 || c == 0x2029 || c == 0x202F || c == 0x205F || c == 0x3000
  }

  predicate NoSpace(w: string) {
    forall i :: 0 <= i < |w| ==> !IsSpace(w[i])
  }

  /** A proper word: non-empty and free of whitespace. */
  predicate IsWord(w: string) {
    w != [] && NoSpace(w)
  }

  predicate AllWords(ws: seq<string>) {
    forall i :: 0 <= i < |ws| ==> IsWord(ws[i])
  }

  /** The words of `s`, continuing a word `word` already begun. */
  function SplitFrom(s: string, word: string): (ws: seq<string>)
    requires NoSpace(word)
    ensures AllWords(ws)
    decreases |s|
  {
    if s == [] then (if word == [] then [] else [word])
    else if IsSpace(s[0]) then
      (if word == [] then [] else [word]) + SplitFrom(s[1..], [])
    else
      SplitFrom(s[1..], word + [s[0]])
  }

  /** names.split(): the maximal runs of non-whitespace characters, in order. */
  function Split(s: string): (ws: seq<string>)
    ensures AllWords(ws)
  {
    SplitFrom(s, [])
  }

  /** " ".join(ws). */
  function Join(ws: seq<string>): string {
    if ws == [] then []
    else if |ws| == 1 then ws[0]
    else ws[0] + " " + Join(ws[1..])
  }

  /** Reading a space-free word continues the current word. */
  lemma {:induction false} SplitFromWord(w: string, rest: string, word: string)
    requires NoSpace(word) && NoSpace(w)
    ensures SplitFrom(w + rest, word) == SplitFrom(rest, word + w)
    decreases |w|
  {
    if w != [] {
      assert (w + rest)[0] == w[0] && (w + rest)[1..] == w[1..] + rest;
      assert word + w == (word + [w[0]]) + w[1..];
      SplitFromWord(w[1..], rest, word + [w[0]]);
    } else {
      assert w + rest == rest && word + w == word;
    }
  }

  /** str.split() undoes " ".join() on proper words. */
  lemma {:induction false} SplitJoin(ws: seq<string>)
    requires AllWords(ws)
    ensures Split(Join(ws)) == ws
  {
    if |ws| == 1 {
      SplitFromWord(ws[0], [], []);
      assert ws[0] + [] == ws[0] && [] + ws[0] == ws[0];
    } else if |ws| > 1 {
      var rest := Join(ws[1..]);
      assert ws[0] + " " + rest == ws[0] + (" " + rest);
      SplitFromWord(ws[0], " " + rest, []);
      assert [] + ws[0] == ws[0];
      assert (" " + rest)[0] == ' ' && (" " + rest)[1..] == rest;
      SplitJoin(ws[1..]);
      assert ws == [ws[0]] + ws[1..];
    }
  }

  /** CARDS[name] for each name in turn; KeyError at the first name that is not a card's. */
  function CardsOfNames(ws: seq<string>): (r: Result<seq<Card>>)
    ensures r.Ok? <==> forall i :: 0 <= i < |ws| ==> CardOfName(ws[i]).Some?
    ensures r.Ok? ==> |r.value| == |ws| && forall i :: 0 <= i < |ws| ==> Name(r.value[i]) == ws[i]
    ensures r.Err? ==> r.error == KeyError
  {
    if ws == [] then Ok([])
    else
      match CardOfName(ws[0])
      case None => Err(KeyError)
      case Some(c) =>
        var rest := CardsOfNames(ws[1..]);
        if rest.Err? then
          assert exists i :: 1 <= i < |ws| && CardOfName(ws[i]).None? by {
            var i :| 0 <= i < |ws[1..]| && CardOfName(ws[1..][i]).None?;
            assert ws[1..][i] == ws[i + 1];
          }
          Err(KeyError)
        else
          assert forall i :: 1 <= i < |ws| ==> ws[i] == ws[1..][i - 1];
          Ok([c] + rest.value)
  }

  /** cards_from_str(names): the cards named by the whitespace-separated words of `names`. */
  function CardsFromStr(names: string): (r: Result<seq<Card>>)
    ensures r.Ok? <==> forall w :: w in Split(names) ==> CardOfName(w).Some?
    ensures r.Ok? ==> |r.value| == |Split(names)| &&
                      forall i :: 0 <= i < |r.value| ==> Name(r.value[i]) == Split(names)[i]
    ensures r.Err? ==> r.error == KeyError
  {
    CardsOfNames(Split(names))
  }

  /** A no-break space separates names as a space does: "As\u00a0Kd" reads as As, then Kd. */
  lemma CardsFromStrNoBreakSpace()
    ensures CardsFromStr("As\U{00A0}Kd") == Ok([Card(14, S), Card(13, D)])
  {
    var cards := [Card(14, S), Card(13, D)];
    var ns := Names(cards);
    assert ns == ["As", "Kd"];
    assert "As\U{00A0}Kd" == "As" + ("\U{00A0}" + "Kd");
    SplitFromWord("As", "\U{00A0}" + "Kd", []);
    assert [] + "As" == "As";
    var rest := "\U{00A0}" + "Kd";
    assert rest[0] == '\U{00A0}' && IsSpace(rest[0]) && rest[1..] == "Kd";
    assert SplitFrom(rest, "As") == ["As"] + SplitFrom("Kd", []);
    SplitFromWord("Kd", [], []);
    assert "Kd" + [] == "Kd" && [] + "Kd" == "Kd";
    assert SplitFrom("Kd", []) == ["Kd"];
    assert Split("As\U{00A0}Kd") == ns;
    CardsFromStrRoundTrip(cards);
    assert AllWords(ns) by {
      NameIsWord(cards[0]);
      NameIsWord(cards[1]);
    }
    SplitJoin(ns);
  }

  /** The names of some cards, in order. */
  function Names(cards: seq<Card>): (ns: seq<string>)
    ensures |ns| == |cards| && forall i :: 0 <= i < |cards| ==> ns[i] == Name(cards[i])
  {
    seq(|cards|, i requires 0 <= i < |cards| => Name(cards[i]))
  }

  lemma NameIsWord(c: Card)
    ensures IsWord(Name(c))
  {
  }

  /** Writing cards out by name and reading them back gives the same cards, in order. */
  lemma CardsFromStrRoundTrip(cards: seq<Card>)
    ensures CardsFromStr(Join(Names(cards))) == Ok(cards)
  {
    var ns := Names(cards);
    assert AllWords(ns) by {
      forall i | 0 <= i < |ns|
        ensures IsWord(ns[i])
      {
        NameIsWord(cards[i]);
      }
    }
    SplitJoin(ns);
    forall i | 0 <= i < |ns|
      ensures CardOfName(ns[i]).Some?
    {
      NameRoundTrip(cards[i]);
    }
    assert forall w :: w in Split(Join(ns)) ==> CardOfName(w).Some?;
    var r := CardsFromStr(Join(ns));
    assert r.Ok? && |r.value| == |cards|;
    forall i | 0 <= i < |cards|
      ensures r.value[i] == cards[i]
    {
      assert Name(r.value[i]) == ns[i] == Name(cards[i]);
      NameInjective(r.value[i], cards[i]);
    }
    assert r.value == cards;
  }

  // ---------------------------------------------------------------------------
  // Conflicts and the five-card guard

  /** set(cards). */
  function SetOf(cards: seq<Card>): set<Card> {
    set c | c in cards
  }

  lemma DistinctSnoc(p: seq<Card>, x: Card)
    ensures Distinct(p + [x]) <==> Distinct(p) && x !in p
  {
    var q := p + [x];
    if Distinct(q) {
      assert forall i, j :: 0 <= i < j < |p| ==> p[i] == q[i] && p[j] == q[j];
      assert forall k :: 0 <= k < |p| ==> p[k] == q[k] && q[|p|] == x;
    }
    if Distinct(p) && x !in p {
      forall i, j | 0 <= i < j < |q|
        ensures q[i] != q[j]
      {
        if j == |p| {
          assert q[i] == p[i];
        } else {
          assert q[i] == p[i] && q[j] == p[j];
        }
      }
    }
  }

  /** len(set(cards)) is at most len(cards), with equality exactly when no card occurs twice. */
  lemma {:induction false} SetOfSize(cards: seq<Card>)
    ensures |SetOf(cards)| <= |cards|
    ensures |SetOf(cards)| == |cards| <==> Distinct(cards)
  {
    if cards != [] {
      var p, x := cards[..|cards| - 1], cards[|cards| - 1];
      assert cards == p + [x];
      assert SetOf(cards) == SetOf(p) + {x};
      SetOfSize(p);
      DistinctSnoc(p, x);
      if x in p {
        assert SetOf(cards) == SetOf(p);
      }
    }
  }

  /** tuple(chain(*args)): the cards of all the positional arguments, in order. */
  function Flatten(args: seq<seq<Card>>): seq<Card> {
    if args == [] then [] else args[0] + Flatten(args[1..])
  }

  lemma FlattenTwo(h: seq<Card>, f: seq<Card>)
    ensures Flatten([h, f]) == h + f
  {
    assert [h, f][1..] == [f];
    assert [f][1..] == [];
    assert Flatten([f]) == f + Flatten([]) == f;
  }

  /**
   * The check that five_cards makes before calling the function it decorates:
   * ValueError unless exactly five cards are passed, ConflictingCards if one
   * of them occurs twice, and otherwise the cards themselves.
   */
  function FiveCards(args: seq<seq<Card>>): (r: Result<seq<Card>>)
    ensures r.Ok? <==> |Flatten(args)| == 5 && Distinct(Flatten(args))
    ensures r.Ok? ==> r.value == Flatten(args)
    ensures r == Err(ValueError) <==> |Flatten(args)| != 5
    ensures r == Err(ConflictingCards) <==> |Flatten(args)| == 5 && !Distinct(Flatten(args))
  {
    SetOfSize(Flatten(args));
    if |Flatten(args)| != 5 then Err(ValueError)
    else if |Flatten(args)| != |SetOf(Flatten(args))| then Err(ConflictingCards)
    else Ok(Flatten(args))
  }

  /** no_conflicts: no card occurs twice among the holecards and the board. */
  function NoConflicts(holecards: seq<Card>, board: seq<Card>): (r: bool)
    ensures r <==> Distinct(holecards + board)
  {
    SetOfSize(holecards + board);
    |SetOf(holecards + board)| == |holecards + board|
  }

  /** The test remove_conflicts keeps a (holecards, flop) pair by: exactly five different cards. */
  predicate FiveDifferent(p: (seq<Card>, seq<Card>)) {
    |SetOf(p.0 + p.1)| == 5
  }

  /** The pairs that remove_conflicts yields, in their original order. */
  function KeepFiveDifferent(ps: seq<(seq<Card>, seq<Card>)>): seq<(seq<Card>, seq<Card>)> {
    if ps == [] then []
    else
      KeepFiveDifferent(ps[..|ps| - 1]) + (if FiveDifferent(ps[|ps| - 1]) then [ps[|ps| - 1]] else [])
  }

  /** remove_conflicts: the pairs with exactly five different cards, in order. */
  method RemoveConflicts(ps: seq<(seq<Card>, seq<Card>)>) returns (kept: seq<(seq<Card>, seq<Card>)>)
    ensures kept == KeepFiveDifferent(ps)
  {
    kept := [];
    var i := 0;
    while i < |ps|
      invariant 0 <= i <= |ps|
      invariant kept == KeepFiveDifferent(ps[..i])
    {
      assert ps[..i + 1][..i] == ps[..i];
      if |SetOf(ps[i].0 + ps[i].1)| == 5 {
        kept := kept + [ps[i]];
      }
      i := i + 1;
    }
    assert ps[..|ps|] == ps;
  }

  /**
   * Filtering distributes over concatenation, keeps a pair exactly when it has
   * five different cards, and for two holecards and a three-card flop that is
   * exactly when there is no conflict.
   */
  lemma {:induction false} KeepFiveDifferentFacts(ps: seq<(seq<Card>, seq<Card>)>, qs: seq<(seq<Card>, seq<Card>)>,
                                                  x: (seq<Card>, seq<Card>))
    ensures KeepFiveDifferent(ps + qs) == KeepFiveDifferent(ps) + KeepFiveDifferent(qs)
    ensures x in KeepFiveDifferent(ps) <==> x in ps && FiveDifferent(x)
    ensures |x.0| + |x.1| == 5 ==> (FiveDifferent(x) <==> NoConflicts(x.0, x.1))
    decreases |qs|
  {
    if qs != [] {
      var q', y := qs[..|qs| - 1], qs[|qs| - 1];
      assert ps + qs == (ps + q') + [y];
      assert (ps + qs)[..|ps + qs| - 1] == ps + q';
      KeepFiveDifferentFacts(ps, q', x);
    } else {
      assert ps + qs == ps;
    }
    KeepMembership(ps, x);
    SetOfSize(x.0 + x.1);
  }

  lemma {:induction false} KeepMembership(ps: seq<(seq<Card>, seq<Card>)>, x: (seq<Card>, seq<Card>))
    ensures x in KeepFiveDifferent(ps) <==> x in ps && FiveDifferent(x)
  {
    if ps != [] {
      var p, y := ps[..|ps| - 1], ps[|ps| - 1];
      assert ps == p + [y];
      KeepMembership(p, x);
    }
  }

  // ---------------------------------------------------------------------------
  // Dealing

  /** What deal returns: the card itself when one card is asked for, a tuple of cards otherwise. */
  datatype Dealt = OneCard(card: Card) | Several(cards: seq<Card>)

  /** The last n cards of a deck, last card first: the order repeated pop() takes them in. */
  function TopCards(deck: seq<Card>, n: nat): (top: seq<Card>)
    requires n <= |deck|
    ensures |top| == n
  {
    seq(n, k requires 0 <= k < n => deck[|deck| - 1 - k])
  }

  /** The cards dealt and the cards left over are together the cards of the deck. */
  lemma {:induction false} DealConserves(deck: seq<Card>, n: nat)
    requires n <= |deck|
    ensures multiset(TopCards(deck, n)) + multiset(deck[..|deck| - n]) == multiset(deck)
    ensures forall c :: c in TopCards(deck, n) ==> c in deck
  {
    if n == 0 {
      assert deck[..|deck|] == deck;
    } else {
      DealConserves(deck, n - 1);
      var c := deck[|deck| - n];
      assert TopCards(deck, n) == TopCards(deck, n - 1) + [c];
      assert deck[..|deck| - (n - 1)] == deck[..|deck| - n] + [c];
    }
  }

  /** A deck of cards as a mutable list, the way deal and make_deck treat it. */
  class DeckOfCards {
    var cards: seq<Card>

    constructor(initial: seq<Card>)
      ensures cards == initial
    {
      cards := initial;
    }

    /** list.pop(): removes and returns the last card; IndexError on an empty list. */
    method Pop() returns (r: Result<Card>)
      modifies this
      ensures old(cards) == [] ==> r == Err(IndexError) && cards == old(cards)
      ensures old(cards) != [] ==> r == Ok(old(cards)[|old(cards)| - 1]) && cards == old(cards)[..|old(cards)| - 1]
    {
      if cards == [] {
        return Err(IndexError);
      }
      r := Ok(cards[|cards| - 1]);
      cards := cards[..|cards| - 1];
    }

    /**
     * deal(deck, n): one pop() when n is 1; otherwise n pops (none when n is
     * not positive) collected into a tuple. Asking for more cards than the
     * deck holds pops all of them and then raises IndexError.
     */
    method Deal(n: int) returns (r: Result<Dealt>)
      modifies this
      ensures n == 1 && old(cards) == [] ==> r == Err(IndexError) && cards == old(cards)
      ensures n == 1 && old(cards) != [] ==>
                r == Ok(OneCard(old(cards)[|old(cards)| - 1])) && cards == old(cards)[..|old(cards)| - 1]
      ensures n != 1 && n <= 0 ==> r == Ok(Several([])) && cards == old(cards)
      ensures n != 1 && 0 < n <= |old(cards)| ==>
                r == Ok(Several(TopCards(old(cards), n))) && cards == old(cards)[..|old(cards)| - n]
      ensures n > |old(cards)| && n != 1 ==> r == Err(IndexError) && cards == []
    {
      if n == 1 {
        var c := Pop();
        if c.Err? {
          return Err(IndexError);
        }
        return Ok(OneCard(c.value));
      }
      var taken: seq<Card> := [];
      var i := 0;
      while i < n
        invariant 0 <= i <= |old(cards)| && (n > 0 ==> i <= n) && (n <= 0 ==> i == 0)
        invariant cards == old(cards)[..|old(cards)| - i]
        invariant taken == TopCards(old(cards), i)
        decreases n - i
      {
        var c := Pop();
        if c.Err? {
          assert cards == [];
          return Err(IndexError);
        }
        assert TopCards(old(cards), i + 1) == taken + [c.value];
        taken := taken + [c.value];
        i := i + 1;
        assert old(cards)[..|old(cards)| - (i - 1)][..|old(cards)| - i] == old(cards)[..|old(cards)| - i];
      }
      assert n <= 0 ==> taken == [];
      return Ok(Several(taken));
    }
  }

  /** A full deck dealt two and then three cards goes from 52 to 50 to 47 cards. */
  method DealExample() returns (sizes: seq<int>)
    ensures sizes == [52, 50, 47]
  {
    var deck := new DeckOfCards(Deck());
    sizes := [|deck.cards|];
    var hole := deck.Deal(2);
    sizes := sizes + [|deck.cards|];
    var flop := deck.Deal(3);
    sizes := sizes + [|deck.cards|];
  }

  // ---------------------------------------------------------------------------
  // Rank statistics

  /** [card.numerical_rank for card in cards]. */
  function NumericalRanks(cards: seq<Card>): (ranks: seq<int>)
    ensures |ranks| == |cards| && forall i :: 0 <= i < |cards| ==> ranks[i] == cards[i].rank
  {
    seq(|cards|, i requires 0 <= i < |cards| => cards[i].rank)
  }

  /** sorted_count_of_values: how often each rank occurs, largest count first. */
  function SortedCountOfValues(cards: seq<Card>): seq<int> {
    SortedCounts(NumericalRanks(cards))
  }

  /**
   * sorted_count_of_values is non-increasing, has one positive count per
   * distinct rank, and its counts add up to the number of cards.
   */
  lemma SortedCountOfValuesFacts(cards: seq<Card>)
    ensures Descending(SortedCountOfValues(cards))
    ensures Sum(SortedCountOfValues(cards)) == |cards|
    ensures forall c :: c in SortedCountOfValues(cards) ==> 1 <= c <= |cards|
    ensures |SortedCountOfValues(cards)| == |Dedup(NumericalRanks(cards))|
  {
    SortedCountsFacts(NumericalRanks(cards));
  }

  /** sorted_numerical_ranks: the ranks in ascending order. */
  function SortedNumericalRanks(cards: seq<Card>): (ranks: seq<int>)
    ensures Ascending(ranks) && multiset(ranks) == multiset(NumericalRanks(cards))
    ensures |ranks| == |cards|
  {
    var r := SortAsc(NumericalRanks(cards));
    assert |r| == |multiset(r)| == |multiset(NumericalRanks(cards))| == |cards|;
    r
  }

  /** The set of suits among some cards. */
  function SuitsIn(cards: seq<Card>): set<Suit> {
    set i | 0 <= i < |cards| :: cards[i].suit
  }

  /** num_suits: the number of different suits among the cards. */
  function NumSuits(cards: seq<Card>): nat {
    |SuitsIn(cards)|
  }

  /**
   * num_suits is between 1 and 4 for a non-empty list (0 for an empty one),
   * and it is 1 exactly when every card has the suit of the first.
   */
  lemma NumSuitsFacts(cards: seq<Card>)
    ensures NumSuits(cards) <= 4
    ensures NumSuits(cards) == 0 <==> cards == []
    ensures cards != [] ==> (NumSuits(cards) == 1 <==> forall i :: 0 <= i < |cards| ==> cards[i].suit == cards[0].suit)
  {
    var ss := SuitsIn(cards);
    forall x | x in ss
      ensures x in AllSuits
    {
      match x
      case C =>
      case D =>
      case H =>
      case S =>
    }
    SubsetSize(ss, AllSuits);
    if cards != [] {
      assert cards[0].suit in ss;
      if NumSuits(cards) == 1 {
        forall i | 0 <= i < |cards|
          ensures cards[i].suit == cards[0].suit
        {
          assert cards[i].suit in ss;
          if cards[i].suit != cards[0].suit {
            assert {cards[0].suit, cards[i].suit} <= ss;
            SubsetSize({cards[0].suit, cards[i].suit}, ss);
          }
        }
      }
      if forall i :: 0 <= i < |cards| ==> cards[i].suit == cards[0].suit {
        assert ss == {cards[0].suit};
      }
    }
  }

  lemma SubsetSize<T>(a: set<T>, b: set<T>)
    requires a <= b
    ensures |a| <= |b|
  {
    assert b == a + (b - a);
  }

  // ---------------------------------------------------------------------------
  // rank_subsequences

  /** ranks[i:i + 3], with Python's clamping of slice bounds to the list. */
  function Window(ranks: seq<int>, i: nat): seq<int> {
    var lo := if i < |ranks| then i else |ranks|;
    var hi := if i + 3 < |ranks| then i + 3 else |ranks|;
    ranks[lo..hi]
  }

  /** The three windows ranks[0:3], ranks[1:4], ranks[2:5]. */
  function Windows(ranks: seq<int>): seq<seq<int>> {
    [Window(ranks, 0), Window(ranks, 1), Window(ranks, 2)]
  }

  /**
   * The windows that rank_subsequences yields: the three windows of the sorted
   * ranks and, for five cards whose top rank is an ace, the three windows of
   * [1, a, b, c, d] with the ace playing low.
   */
  function RankWindows(hand: seq<Card>): seq<seq<int>> {
    WindowsOfRanks(SortedNumericalRanks(hand))
  }

  /** The windows of sorted ranks, and of the ace-low ranks when five ranks end in an ace. */
  function WindowsOfRanks(ranks: seq<int>): seq<seq<int>> {
    Windows(ranks) + (if |ranks| == 5 && ranks[4] == 14 then Windows([1] + ranks[..4]) else [])
  }

  /**
   * rank_subsequences as a generator: the windows it yields, and the
   * ValueError that the unpacking into five ranks raises after the first
   * three windows when the hand is not five cards.
   */
  method RankSubsequences(hand: seq<Card>) returns (windows: seq<seq<int>>, error: Option<PyError>)
    ensures windows == RankWindows(hand)
    ensures error == (if |hand| == 5 then None else Some(ValueError))
  {
    var ranks := SortedNumericalRanks(hand);
    windows := [];
    for i := 0 to 3
      invariant windows == Windows(ranks)[..i]
    {
      windows := windows + [Window(ranks, i)];
    }
    if |ranks| != 5 {
      return windows, Some(ValueError);
    }
    var a, b, c, d, e := ranks[0], ranks[1], ranks[2], ranks[3], ranks[4];
    if e == 14 {
      var low := [1, a, b, c, d];
      assert low == [1] + ranks[..4];
      for i := 0 to 3
        invariant windows == Windows(ranks) + Windows(low)[..i]
      {
        windows := windows + [Window(low, i)];
      }
    }
    return windows, None;
  }

  /** The three windows of five ranks are the three runs of three neighbours. */
  lemma WindowsOfFive(r: seq<int>)
    requires |r| == 5
    ensures Windows(r) == [r[0..3], r[1..4], r[2..5]]
  {
  }

  /**
   * For five cards every window holds three ranks in ascending order, and
   * there are six windows exactly when the top rank is an ace.
   */
  lemma RankWindowsShape(hand: seq<Card>)
    requires |hand| == 5
    ensures |RankWindows(hand)| == (if 14 in NumericalRanks(hand) then 6 else 3)
    ensures forall i :: 0 <= i < |RankWindows(hand)| ==>
              |RankWindows(hand)[i]| == 3 && RankWindows(hand)[i][0] <= RankWindows(hand)[i][1] <= RankWindows(hand)[i][2]
  {
    var ranks := SortedNumericalRanks(hand);
    TopRank(hand);
    WindowsOfFive(ranks);
    if ranks[4] == 14 {
      var low := [1] + ranks[..4];
      assert low == [1, ranks[0], ranks[1], ranks[2], ranks[3]];
      WindowsOfFive(low);
      assert RankWindows(hand) == [ranks[0..3], ranks[1..4], ranks[2..5], low[0..3], low[1..4], low[2..5]];
    }
  }

  /** Ranks that are already in ascending order are their own sorted ranks. */
  lemma SortedRanksOfAscending(hand: seq<Card>)
    requires Ascending(NumericalRanks(hand))
    ensures SortedNumericalRanks(hand) == NumericalRanks(hand)
  {
    AscendingUnique(SortedNumericalRanks(hand), NumericalRanks(hand));
  }

  /** The last of the sorted ranks is the largest rank, an ace exactly when the hand holds one. */
  lemma TopRank(hand: seq<Card>)
    requires |hand| > 0
    ensures var ranks := SortedNumericalRanks(hand);
              (14 in NumericalRanks(hand) <==> ranks[|ranks| - 1] == 14) &&
              forall i :: 0 <= i < |ranks| ==> 2 <= ranks[i] <= 14
  {
    var ranks := SortedNumericalRanks(hand);
    var nr := NumericalRanks(hand);
    assert forall x :: x in multiset(nr) ==> 2 <= x <= 14;
    forall i | 0 <= i < |ranks|
      ensures 2 <= ranks[i] <= 14
    {
      assert ranks[i] in multiset(ranks);
    }
    if 14 in nr {
      assert 14 in multiset(ranks);
      AscendingMax(ranks, 14);
    }
    if ranks[|ranks| - 1] == 14 {
      assert ranks[|ranks| - 1] in multiset(ranks);
    }
  }

  // ---------------------------------------------------------------------------
  // Examples

  /** Ks > Qh and 2d <= 3d. */
  lemma CardComparisonExamples()
    ensures Gt(Card(13, S), Card(12, H)) && Le(Card(2, D), Card(3, D))
  {
  }
}
