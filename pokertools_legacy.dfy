/**
 * The top-level pokertools module, the earlier form of the package: the card
 * names in suit-major order, the ordered holecard names, the two rank
 * dictionaries, the Card record with its comparison methods, the CARDS
 * dictionary and cards_from_str.
 */
module PokerToolsLegacy {
  import opened Outcomes
  import Cards
  import PokerTools

  // ---------------------------------------------------------------------------
  // CARD_NAMES and HOLECARDS_NAMES

  /** The card at position i of CARD_NAMES: suits c, d, h, s in turn, ranks 2 up to A within a suit. */
  function DeckCard(i: nat): Cards.Card
    requires i < 52
  {
    Cards.Card(2 + i % 13, Cards.Suits[i / 13])
  }

  /** CARD_NAMES: "2c", "3c", ..., "Ac", "2d", ..., "As". */
  function CardNames(): (n: seq<string>)
    ensures |n| == 52
  {
    seq(52, i requires 0 <= i < 52 => Cards.Name(DeckCard(i)))
  }

  /** The position of a card in CARD_NAMES. */
  function DeckIndex(c: Cards.Card): (i: nat)
    ensures i < 52 && DeckCard(i) == c && CardNames()[i] == Cards.Name(c)
  {
    var i := 13 * Cards.SuitIndex(c.suit) + (c.rank - 2);
    assert i / 13 == Cards.SuitIndex(c.suit) && i % 13 == c.rank - 2;
    assert CardNames()[i] == Cards.Name(DeckCard(i));
    i
  }

  /** Position i of CARD_NAMES holds the card whose position is i. */
  lemma DeckCardIndex(i: nat)
    requires i < 52
    ensures DeckIndex(DeckCard(i)) == i
  {
    var j := DeckIndex(DeckCard(i));
    assert i == 13 * (i / 13) + i % 13 && j == 13 * (j / 13) + j % 13;
    assert Cards.SuitIndex(Cards.Suits[i / 13]) == i / 13;
  }

  /**
   * CARD_NAMES names every card exactly once, suit by suit in SUITS order and
   * by ascending rank within a suit, from "2c" to "As".
   */
  lemma CardNamesEnumerate(i: int, j: int)
    requires 0 <= i < 52 && 0 <= j < 52
    ensures i != j ==> CardNames()[i] != CardNames()[j]
    ensures i < j ==> Cards.SuitIndex(DeckCard(i).suit) < Cards.SuitIndex(DeckCard(j).suit) ||
                      (DeckCard(i).suit == DeckCard(j).suit && DeckCard(i).rank < DeckCard(j).rank)
    ensures CardNames()[0] == "2c" && CardNames()[12] == "Ac" && CardNames()[51] == "As"
  {
    DeckCardIndex(i);
    DeckCardIndex(j);
    assert CardNames()[i] == Cards.Name(DeckCard(i)) && CardNames()[j] == Cards.Name(DeckCard(j));
    PokerTools.NameInjective(DeckCard(i), DeckCard(j));
    assert i == 13 * (i / 13) + i % 13 && j == 13 * (j / 13) + j % 13;
    assert Cards.SuitIndex(Cards.Suits[i / 13]) == i / 13 && Cards.SuitIndex(Cards.Suits[j / 13]) == j / 13;
    assert CardNames()[0] == Cards.Name(DeckCard(0));
    assert CardNames()[12] == Cards.Name(DeckCard(12));
    assert CardNames()[51] == Cards.Name(DeckCard(51));
  }

  /**
   * HOLECARDS_NAMES: for each first card in CARD_NAMES order, the names with
   * every other card second; entry 51 * i + k pairs card i with the k-th card
   * other than i.
   */
  function HolecardsNames(): (n: seq<string>)
    ensures |n| == 2652
  {
    seq(2652, n requires 0 <= n < 2652 => HolecardsEntry(n / 51, n % 51))
  }

  /** The name pairing card i of CARD_NAMES with the k-th card other than i. */
  function HolecardsEntry(i: nat, k: nat): string
    requires i < 52 && k < 51
  {
    PokerTools.HolecardName(DeckCard(i), DeckCard(PokerTools.SkipIndex(i, k)))
  }

  lemma HolecardsAt(i: nat, k: nat)
    requires i < 52 && k < 51
    ensures 51 * i + k < 2652 && HolecardsNames()[51 * i + k] == HolecardsEntry(i, k)
  {
    PokerTools.DivMod51(i, k);
  }

  /** HOLECARDS_NAMES holds the name of an ordered pair of cards exactly when the two cards differ. */
  lemma HolecardsNamesMembership(a: Cards.Card, b: Cards.Card)
    ensures PokerTools.HolecardName(a, b) in HolecardsNames() <==> a != b
  {
    if PokerTools.HolecardName(a, b) in HolecardsNames() {
      var p :| 0 <= p < 2652 && HolecardsNames()[p] == PokerTools.HolecardName(a, b);
      var i := p / 51;
      var j := PokerTools.SkipIndex(i, p % 51);
      assert HolecardsNames()[p] == PokerTools.HolecardName(DeckCard(i), DeckCard(j));
      PokerTools.HolecardNameInjective(a, b, DeckCard(i), DeckCard(j));
      DeckCardIndex(i);
      DeckCardIndex(j);
    }
    if a != b {
      var i, j := DeckIndex(a), DeckIndex(b);
      HolecardsAt(i, PokerTools.Unskip(i, j));
    }
  }

  /** HOLECARDS_NAMES lists each of its 2652 names once. */
  lemma HolecardsNamesDistinct(n: nat, m: nat)
    requires n < m < 2652
    ensures HolecardsNames()[n] != HolecardsNames()[m]
  {
    var i, k := n / 51, n % 51;
    var i', k' := m / 51, m % 51;
    assert n == 51 * i + k && m == 51 * i' + k';
    var j, j' := PokerTools.SkipIndex(i, k), PokerTools.SkipIndex(i', k');
    assert HolecardsNames()[n] == PokerTools.HolecardName(DeckCard(i), DeckCard(j));
    assert HolecardsNames()[m] == PokerTools.HolecardName(DeckCard(i'), DeckCard(j'));
    if HolecardsNames()[n] == HolecardsNames()[m] {
      PokerTools.HolecardNameInjective(DeckCard(i), DeckCard(j), DeckCard(i'), DeckCard(j'));
      DeckCardIndex(i);
      DeckCardIndex(j);
      DeckCardIndex(i');
      DeckCardIndex(j');
    }
  }

  // ---------------------------------------------------------------------------
  // STR_TO_NUM and NUM_TO_STR

  /** STR_TO_NUM = dict(zip(RANKS, range(2, 15))). */
  const StrToNum: map<string, int> :=
    map["2" := 2, "3" := 3, "4" := 4, "5" := 5, "6" := 6, "7" := 7, "8" := 8,
        "9" := 9, "T" := 10, "J" := 11, "Q" := 12, "K" := 13, "A" := 14]

  /** NUM_TO_STR = dict(zip(range(2, 15), RANKS)). */
  const NumToStr: map<int, string> :=
    map[2 := "2", 3 := "3", 4 := "4", 5 := "5", 6 := "6", 7 := "7", 8 := "8",
        9 := "9", 10 := "T", 11 := "J", 12 := "Q", 13 := "K", 14 := "A"]

  /** get_numerical_rank: STR_TO_NUM[str_rank], a KeyError for anything but a rank letter. */
  function GetNumericalRank(strRank: string): (r: Result<int>)
    ensures r.Err? ==> r.error == KeyError
  {
    if strRank in StrToNum then Ok(StrToNum[strRank]) else Err(KeyError)
  }

  /** get_string_rank: NUM_TO_STR[num_rank], a KeyError outside 2..14. */
  function GetStringRank(numRank: int): (r: Result<string>)
    ensures r.Err? ==> r.error == KeyError
  {
    if numRank in NumToStr then Ok(NumToStr[numRank]) else Err(KeyError)
  }

  /**
   * The two dictionaries are inverse bijections between the one-letter rank
   * strings and 2..14, and they agree with the rank maps of the package.
   */
  lemma RankDictsInverse(n: int, s: string)
    ensures GetStringRank(n).Ok? <==> 2 <= n <= 14
    ensures GetNumericalRank(s).Ok? ==> GetStringRank(GetNumericalRank(s).value) == Ok(s)
    ensures GetStringRank(n).Ok? ==> GetNumericalRank(GetStringRank(n).value) == Ok(n)
    ensures GetNumericalRank(s).Ok? <==> PokerTools.GetNumericalRank(s).Ok?
    ensures GetNumericalRank(s).Ok? ==> GetNumericalRank(s).value == PokerTools.GetNumericalRank(s).value
    ensures GetStringRank(n).Ok? ==> GetStringRank(n) == PokerTools.GetStringRank(n)
  {
    StringRankAgrees(n);
    NumericalRankAgrees(s);
    PokerTools.RankMapsRoundTrip(n, s);
    if GetNumericalRank(s).Ok? {
      StringRankAgrees(GetNumericalRank(s).value);
    }
    if GetStringRank(n).Ok? {
      NumericalRankAgrees(GetStringRank(n).value);
    }
  }

  /** get_numerical_rank of this module and of the package agree on every string. */
  lemma NumericalRankAgrees(s: string)
    ensures GetNumericalRank(s).Ok? <==> PokerTools.GetNumericalRank(s).Ok?
    ensures GetNumericalRank(s).Ok? ==> GetNumericalRank(s).value == PokerTools.GetNumericalRank(s).value
  {
    StrToNumEntries(s);
    if s in StrToNum {
      PokerTools.RankMapsRoundTrip(StrToNum[s], s);
    }
  }

  /** get_string_rank of this module and of the package agree on every number. */
  lemma StringRankAgrees(n: int)
    ensures GetStringRank(n).Ok? <==> 2 <= n <= 14
    ensures GetStringRank(n).Ok? ==> GetStringRank(n) == PokerTools.GetStringRank(n)
  {
    NumToStrEntries(n);
  }

  lemma StrToNumEntries(s: string)
    ensures s in StrToNum <==> |s| == 1 && s[0] in Cards.RankChars
    ensures s in StrToNum ==> 2 <= StrToNum[s] <= 14 && s == [Cards.RankChar(StrToNum[s])]
  {
    if |s| == 1 {
      assert s == [s[0]];
    }
  }

  lemma NumToStrEntries(n: int)
    ensures n in NumToStr <==> 2 <= n <= 14
    ensures n in NumToStr ==> NumToStr[n] == [Cards.RankChar(n)]
  {
  }

  // ---------------------------------------------------------------------------
  // The Card record

  /** Card(name, rank, suit, numerical_rank), a named tuple. */
  datatype Card = Card(name: string, rank: string, suit: string, numericalRank: int)

  /** Python's `<` on strings: lexicographic by character. */
  predicate StrLt(x: string, y: string) {
    if y == [] then false
    else if x == [] then true
    else if x[0] != y[0] then x[0] < y[0]
    else StrLt(x[1..], y[1..])
  }

  // The comparison methods: by numerical rank, ties broken by the suit strings.

  predicate Lt(a: Card, b: Card) {
    if a.numericalRank == b.numericalRank then StrLt(a.suit, b.suit) else a.numericalRank < b.numericalRank
  }

  predicate Le(a: Card, b: Card) {
    if a.numericalRank == b.numericalRank then StrLt(a.suit, b.suit) || a.suit == b.suit
    else a.numericalRank <= b.numericalRank
  }

  predicate Gt(a: Card, b: Card) {
    if a.numericalRank == b.numericalRank then StrLt(b.suit, a.suit) else a.numericalRank > b.numericalRank
  }

  predicate Ge(a: Card, b: Card) {
    if a.numericalRank == b.numericalRank then StrLt(b.suit, a.suit) || a.suit == b.suit
    else a.numericalRank >= b.numericalRank
  }

  /** The record _make_cards_dict builds for a name: its letters and the numerical rank of the first. */
  function MakeCard(name: string): (c: Card)
    requires |name| == 2 && GetNumericalRank([name[0]]).Ok?
    ensures c.name == name && c.rank == [name[0]] && c.suit == [name[1]]
    ensures GetNumericalRank(c.rank) == Ok(c.numericalRank) && 2 <= c.numericalRank <= 14
  {
    var numericalRank := GetNumericalRank([name[0]]).value;
    RankDictsInverse(0, [name[0]]);
    Card(name, [name[0]], [name[1]], numericalRank)
  }

  lemma CardNameParts(i: nat)
    requires i < 52
    ensures |CardNames()[i]| == 2 && GetNumericalRank([CardNames()[i][0]]).Ok?
  {
    var c := DeckCard(i);
    assert CardNames()[i] == Cards.Name(c);
    RankDictsInverse(0, [Cards.RankChar(c.rank)]);
    Cards.RankLettersRoundTrip(c.rank, Cards.RankChar(c.rank));
  }

  /** CARDS = _make_cards_dict(): each name of CARD_NAMES to its record. */
  function MakeCardsDict(): map<string, Card> {
    map i | 0 <= i < 52 :: CardNames()[i] := (CardNameParts(i); MakeCard(CardNames()[i]))
  }

  /** The record of a card of the shared model. */
  function Record(c: Cards.Card): Card {
    Card(Cards.Name(c), [Cards.RankChar(c.rank)], [Cards.SuitChar(c.suit)], c.rank)
  }

  /**
   * CARDS holds exactly the names of cards, and the record under a card's name
   * has that name's letters and the card's numerical rank in 2..14.
   */
  lemma CardsDictEntries(c: Cards.Card, w: string)
    ensures Cards.Name(c) in MakeCardsDict() && MakeCardsDict()[Cards.Name(c)] == Record(c)
    ensures w in MakeCardsDict() <==> Cards.CardOfName(w).Some?
  {
    var i := DeckIndex(c);
    assert CardNames()[i] in MakeCardsDict();
    Cards.RankLettersRoundTrip(c.rank, Cards.RankChar(c.rank));
    RankDictsInverse(0, [Cards.RankChar(c.rank)]);
    if w in MakeCardsDict() {
      var j :| 0 <= j < 52 && CardNames()[j] == w;
      assert w == Cards.Name(DeckCard(j));
      Cards.NameRoundTrip(DeckCard(j));
    }
    if Cards.CardOfName(w).Some? {
      var d := Cards.CardOfName(w).value;
      assert CardNames()[DeckIndex(d)] in MakeCardsDict();
    }
  }

  /**
   * On the records of CARDS the four comparison methods order cards as the
   * shared card model does: rank first, then the suit letter.
   */
  lemma RecordOrder(a: Cards.Card, b: Cards.Card)
    ensures Lt(Record(a), Record(b)) <==> Cards.Lt(a, b)
    ensures Le(Record(a), Record(b)) <==> Cards.Le(a, b)
    ensures Gt(Record(a), Record(b)) <==> Cards.Gt(a, b)
    ensures Ge(Record(a), Record(b)) <==> Cards.Ge(a, b)
  {
    var x, y := [Cards.SuitChar(a.suit)], [Cards.SuitChar(b.suit)];
    assert StrLt(x, y) <==> Cards.SuitChar(a.suit) < Cards.SuitChar(b.suit) by {
      assert x[1..] == [] && y[1..] == [];
    }
    assert StrLt(y, x) <==> Cards.SuitChar(b.suit) < Cards.SuitChar(a.suit) by {
      assert x[1..] == [] && y[1..] == [];
    }
  }

  // ---------------------------------------------------------------------------
  // cards_from_str

  /** [cards[name] for name in ws]: a KeyError at the first word that is not a key. */
  function RecordsOf(cards: map<string, Card>, ws: seq<string>): (r: Result<seq<Card>>)
    ensures r.Ok? <==> forall i :: 0 <= i < |ws| ==> ws[i] in cards
    ensures r.Ok? ==> |r.value| == |ws| && forall i :: 0 <= i < |ws| ==> r.value[i] == cards[ws[i]]
    ensures r.Err? ==> r.error == KeyError
  {
    if ws == [] then Ok([])
    else if ws[0] !in cards then Err(KeyError)
    else
      var rest := RecordsOf(cards, ws[1..]);
      assert forall i :: 1 <= i < |ws| ==> ws[i] == ws[1..][i - 1];
      if rest.Err? then Err(KeyError)
      else Ok([cards[ws[0]]] + rest.value)
  }

  /** cards_from_str: the records in CARDS named by the whitespace-separated words of `names`. */
  function CardsFromStr(names: string): (r: Result<seq<Card>>)
    ensures r.Ok? ==> |r.value| == |PokerTools.Split(names)|
    ensures r.Err? ==> r.error == KeyError
  {
    RecordsOf(MakeCardsDict(), PokerTools.Split(names))
  }

  lemma RecordsOfAgree(ws: seq<string>)
    ensures RecordsOf(MakeCardsDict(), ws).Ok? <==> PokerTools.CardsOfNames(ws).Ok?
    ensures RecordsOf(MakeCardsDict(), ws).Ok? ==>
              forall i :: 0 <= i < |ws| ==> RecordsOf(MakeCardsDict(), ws).value[i] == Record(PokerTools.CardsOfNames(ws).value[i])
  {
    forall i | 0 <= i < |ws|
      ensures ws[i] in MakeCardsDict() <==> Cards.CardOfName(ws[i]).Some?
    {
      CardsDictEntries(Cards.Card(2, Cards.C), ws[i]);
    }
    var p := PokerTools.CardsOfNames(ws);
    if p.Ok? {
      forall i | 0 <= i < |ws|
        ensures RecordsOf(MakeCardsDict(), ws).value[i] == Record(p.value[i])
      {
        CardsDictEntries(p.value[i], ws[i]);
      }
    }
  }

  /**
   * cards_from_str reads the same words as the package's cards_from_str and
   * fails on the same input; where it succeeds it gives, in order and one per
   * word, the records of the package's cards.
   */
  lemma CardsFromStrAgrees(names: string)
    ensures CardsFromStr(names).Ok? <==> PokerTools.CardsFromStr(names).Ok?
    ensures CardsFromStr(names).Ok? ==>
              |CardsFromStr(names).value| == |PokerTools.CardsFromStr(names).value| &&
              forall i :: 0 <= i < |CardsFromStr(names).value| ==>
                CardsFromStr(names).value[i] == Record(PokerTools.CardsFromStr(names).value[i])
  {
    RecordsOfAgree(PokerTools.Split(names));
  }

  /** The records of some cards, in order. */
  function Records(cards: seq<Cards.Card>): (rs: seq<Card>)
    ensures |rs| == |cards| && forall i :: 0 <= i < |cards| ==> rs[i] == Record(cards[i])
  {
    seq(|cards|, i requires 0 <= i < |cards| => Record(cards[i]))
  }

  /** Writing cards out by name and reading them back gives their records, in order. */
  lemma CardsFromStrRoundTrip(cards: seq<Cards.Card>)
    ensures CardsFromStr(PokerTools.Join(PokerTools.Names(cards))) == Ok(Records(cards))
  {
    var s := PokerTools.Join(PokerTools.Names(cards));
    PokerTools.CardsFromStrRoundTrip(cards);
    CardsFromStrAgrees(s);
    var r := CardsFromStr(s).value;
    assert |r| == |cards|;
    assert r == Records(cards);
  }
}
