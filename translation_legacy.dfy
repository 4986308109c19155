/**
 * The older PokerStove range-notation expander (translation.py at the top of
 * the repository). It expands tokens as the package's translate does, but a
 * holecard name with a bad suit mark gives None instead of an error, which
 * fails only when the names are flattened, and it canonises against the
 * suit-major CARD_NAMES of the older pokertools.py. The separator token is
 * called SEP there; Translation.Seperator stands for it.
 */
module TranslationLegacy {
  import opened Outcomes
  import opened Cards
  import opened PokerTools
  import PokerToolsLegacy
  import Translation

  type Token = Translation.Token

  // ---------------------------------------------------------------------------
  // CANONICAL_HOLECARDS_NAMES and canonise

  /** The names of CANONICAL_HOLECARDS_NAMES: the pairs whose first card comes earlier in the suit-major CARD_NAMES. */
  function CanonicalHolecardsNames(): set<string> {
    set i, j | 0 <= i < j < 52 :: PokerToolsLegacy.CardNames()[i] + " " + PokerToolsLegacy.CardNames()[j]
  }

  /** The position of a card in the suit-major CARD_NAMES. */
  function Position(c: Card): nat {
    PokerToolsLegacy.DeckIndex(c)
  }

  /**
   * A holecard name is canonical here exactly when its first card comes
   * earlier in CARD_NAMES: it has the earlier suit, or the same suit and the
   * lower rank.
   */
  lemma CanonicalHolecardsMembership(a: Card, b: Card)
    ensures HolecardName(a, b) in CanonicalHolecardsNames() <==> Position(a) < Position(b)
    ensures Position(a) < Position(b) <==>
              SuitIndex(a.suit) < SuitIndex(b.suit) || (a.suit == b.suit && a.rank < b.rank)
  {
    var names := PokerToolsLegacy.CardNames();
    if HolecardName(a, b) in CanonicalHolecardsNames() {
      var i, j :| 0 <= i < j < 52 && names[i] + " " + names[j] == HolecardName(a, b);
      var c, d := PokerToolsLegacy.DeckCard(i), PokerToolsLegacy.DeckCard(j);
      assert names[i] == Name(c) && names[j] == Name(d);
      HolecardNameInjective(a, b, c, d);
      PokerToolsLegacy.DeckCardIndex(i);
      PokerToolsLegacy.DeckCardIndex(j);
    }
    var i, j := Position(a), Position(b);
    if i < j {
      assert names[i] + " " + names[j] == HolecardName(a, b);
    }
    if a.suit != b.suit {
      assert SuitIndex(a.suit) != SuitIndex(b.suit);
    }
  }

  /** canonise: a name of CANONICAL_HOLECARDS_NAMES unchanged, any other with its two cards swapped. */
  function Canonise(holecards: string): string {
    if holecards in CanonicalHolecardsNames() then holecards
    else Translation.Slice(holecards, 3, 5) + " " + Translation.Slice(holecards, 0, 2)
  }

  /**
   * For two different cards canonise gives a canonical name: the card of the
   * earlier suit first, or of the lower rank within one suit, so "Ac Kc"
   * becomes "Kc Ac". Both orders of the same two cards give the same name.
   */
  lemma CanoniseCards(a: Card, b: Card)
    requires a != b
    ensures Canonise(HolecardName(a, b)) in CanonicalHolecardsNames()
    ensures SuitIndex(a.suit) < SuitIndex(b.suit) || (a.suit == b.suit && a.rank < b.rank) ==>
              Canonise(HolecardName(a, b)) == HolecardName(a, b)
    ensures SuitIndex(b.suit) < SuitIndex(a.suit) || (a.suit == b.suit && b.rank < a.rank) ==>
              Canonise(HolecardName(a, b)) == HolecardName(b, a)
    ensures Canonise(HolecardName(a, b)) == Canonise(HolecardName(b, a))
  {
    CanonicalHolecardsMembership(a, b);
    CanonicalHolecardsMembership(b, a);
    HolecardNameInjective(a, b, a, b);
    HolecardNameInjective(b, a, b, a);
    var n, m := HolecardName(a, b), HolecardName(b, a);
    assert Translation.Slice(n, 3, 5) == Name(b) && Translation.Slice(n, 0, 2) == Name(a);
    assert Translation.Slice(m, 3, 5) == Name(a) && Translation.Slice(m, 0, 2) == Name(b);
    assert a.suit != b.suit ==> SuitIndex(a.suit) != SuitIndex(b.suit);
  }

  /** The two canonical orders disagree on suited holecards: here "Ac Kc" becomes "Kc Ac". */
  lemma CanoniseAceKingSuited(n: string)
    requires n == HolecardName(Card(14, C), Card(13, C))
    ensures n == "Ac Kc"
    ensures Canonise(n) == "Kc Ac" && Translation.Canonise(n) == "Ac Kc"
  {
    CanoniseCards(Card(14, C), Card(13, C));
    Translation.CanoniseCards(Card(14, C), Card(13, C));
  }

  /**
   * [canonise(name) for name in names]. It reads like the package's, but
   * canonise here is the older one, against the suit-major CARD_NAMES, so the
   * two lists differ (CanoniseAceKingSuited); both are kept for that reason.
   */
  function CanoniseAll(names: seq<string>): (r: seq<string>)
    ensures |r| == |names| && forall i :: 0 <= i < |names| ==> r[i] == Canonise(names[i])
  {
    seq(|names|, i requires 0 <= i < |names| => Canonise(names[i]))
  }

  /**
   * Canonising the names of pairs of different cards gives, position by
   * position, a canonical name of the same two cards in one order or the other.
   */
  lemma CanoniseAllNames(pairs: seq<(Card, Card)>)
    requires forall i :: 0 <= i < |pairs| ==> pairs[i].0 != pairs[i].1
    ensures var r := CanoniseAll(seq(|pairs|, i requires 0 <= i < |pairs| => HolecardName(pairs[i].0, pairs[i].1)));
      |r| == |pairs| &&
      forall i :: 0 <= i < |pairs| ==>
        r[i] in CanonicalHolecardsNames() &&
        r[i] in {HolecardName(pairs[i].0, pairs[i].1), HolecardName(pairs[i].1, pairs[i].0)}
  {
    forall i | 0 <= i < |pairs|
      ensures Canonise(HolecardName(pairs[i].0, pairs[i].1)) in CanonicalHolecardsNames()
      ensures Canonise(HolecardName(pairs[i].0, pairs[i].1)) in
                {HolecardName(pairs[i].0, pairs[i].1), HolecardName(pairs[i].1, pairs[i].0)}
    {
      CanoniseCards(pairs[i].0, pairs[i].1);
    }
  }

  // ---------------------------------------------------------------------------
  // process_one_name

  /**
   * process_one_name: a three-letter name unpacks, and gives its 4 or 12
   * names for the marks 's' and 'o' and None for any other mark; any other
   * length falls back to two letters, which must be the same rank, and
   * anything else is a ValueError.
   */
  function ProcessOneName(stoveName: string): (r: Result<Option<seq<string>>>)
    ensures r.Ok? <==> |stoveName| == 3 || (|stoveName| == 2 && stoveName[0] == stoveName[1])
    ensures r.Err? ==> r.error == ValueError
    ensures r == Ok(None) <==> |stoveName| == 3 && stoveName[2] !in "so"
  {
    if |stoveName| == 3 then
      var rank1, rank2, suitMark := stoveName[0], stoveName[1], stoveName[2];
      if suitMark == 's' then Ok(Some(Translation.SuitedTexts(rank1, rank2)))
      else if suitMark == 'o' then Ok(Some(Translation.OffsuitTexts(rank1, rank2)))
      else Ok(None)
    else if |stoveName| != 2 then Err(ValueError)
    else
      var rank1, rank2 := stoveName[0], stoveName[1];
      if rank1 == rank2 then Ok(Some(Translation.PairedTexts(rank1, rank2))) else Err(ValueError)
  }

  /** process_one_name gives the same names as the package's wherever either gives names. */
  lemma NamesAgree(stoveName: string)
    ensures Translation.ProcessOneName(stoveName).Ok? <==>
              ProcessOneName(stoveName).Ok? && ProcessOneName(stoveName).value.Some?
    ensures Translation.ProcessOneName(stoveName).Ok? ==>
              ProcessOneName(stoveName) == Ok(Some(Translation.ProcessOneName(stoveName).value))
  {
  }

  // ---------------------------------------------------------------------------
  // Flattening

  /** chain.from_iterable over the results of process_one_name: a None among them is a TypeError. */
  function Flatten(parts: seq<Option<seq<string>>>): (r: Result<seq<string>>)
    ensures r.Ok? <==> forall i :: 0 <= i < |parts| ==> parts[i].Some?
    ensures r.Err? ==> r.error == TypeError
  {
    if parts == [] then Ok([])
    else
      match parts[0]
      case None => Err(TypeError)
      case Some(names) =>
        var rest := Flatten(parts[1..]);
        if rest.Err? then rest
        else
          assert forall i :: 1 <= i < |parts| ==> parts[i] == parts[1..][i - 1];
          Ok(names + rest.value)
  }

  /** Flattening one more list appends its names; one more None fails. */
  lemma {:induction false} FlattenSnoc(parts: seq<Option<seq<string>>>, last: Option<seq<string>>)
    ensures Flatten(parts + [last]).Ok? <==> Flatten(parts).Ok? && last.Some?
    ensures Flatten(parts + [last]).Ok? ==> Flatten(parts + [last]).value == Flatten(parts).value + last.value
  {
    if parts != [] {
      FlattenSnoc(parts[1..], last);
      assert (parts + [last])[1..] == parts[1..] + [last];
      assert (parts + [last])[0] == parts[0];
      if Flatten(parts + [last]).Ok? {
        var names := parts[0].value;
        assert names + (Flatten(parts[1..]).value + last.value) == names + Flatten(parts[1..]).value + last.value;
      }
    } else {
      assert [] + [last] == [last];
      assert [last][1..] == [];
    }
  }

  /** [process_one_name(name) for name in names]: the first ValueError, or all the results. */
  function NamesOf(names: seq<string>): (r: Result<seq<Option<seq<string>>>>)
    ensures r.Ok? ==> |r.value| == |names|
  {
    if names == [] then Ok([])
    else
      var first :- ProcessOneName(names[0]);
      var rest :- NamesOf(names[1..]);
      Ok([first] + rest)
  }

  // ---------------------------------------------------------------------------
  // process_one_token

  /** A rank found in RANK_STR_TO_NUM of the older pokertools.py is a rank. */
  lemma RankValue(s: string)
    ensures PokerToolsLegacy.GetNumericalRank(s).Ok? ==> 2 <= PokerToolsLegacy.GetNumericalRank(s).value <= 14
    ensures PokerToolsLegacy.GetNumericalRank(s).Ok? <==> PokerTools.GetNumericalRank(s).Ok?
    ensures PokerToolsLegacy.GetNumericalRank(s).Ok? ==>
              PokerToolsLegacy.GetNumericalRank(s).value == PokerTools.GetNumericalRank(s).value
  {
    PokerToolsLegacy.RankDictsInverse(0, s);
  }

  /** [const_rank + get_string_rank(i) + suit_mark for i in range(high, low - 1, -1)]. */
  function RangeNames(constRank: char, suitMark: char, high: int, low: int): (names: seq<string>)
    requires 2 <= low && high <= 14
    ensures |names| == if high < low then 0 else high - low + 1
    decreases high - low
  {
    if high < low then []
    else
      PokerToolsLegacy.RankDictsInverse(high, "");
      [[constRank] + PokerToolsLegacy.GetStringRank(high).value + [suitMark]] + RangeNames(constRank, suitMark, high - 1, low)
  }

  /** [get_string_rank(i) * 2 for i in range(high, low - 1, -1)]. */
  function PairRangeNames(high: int, low: int): (names: seq<string>)
    requires 2 <= low && high <= 14
    ensures |names| == if high < low then 0 else high - low + 1
    decreases high - low
  {
    if high < low then []
    else
      PokerToolsLegacy.RankDictsInverse(high, "");
      var rank := PokerToolsLegacy.GetStringRank(high).value;
      [rank + rank] + PairRangeNames(high - 1, low)
  }

  /** "CLs+" read as the range "C(C-1)s-CLs" through the legacy rank dictionaries. */
  function PlusAsRange(v: string): (r: Result<string>)
    ensures r.Err? ==> r.error == IndexError || r.error == KeyError
  {
    if |v| < 3 then Err(IndexError)
    else
      var constRank, lowRank, suitMark := v[0], v[1], v[2];
      var c :- PokerToolsLegacy.GetNumericalRank([constRank]);
      var highRank :- PokerToolsLegacy.GetStringRank(c - 1);
      Ok([constRank] + highRank + [suitMark, '-', constRank, lowRank, suitMark])
  }

  /** Both modules read a plus token as the same range, or fail with the same error. */
  lemma PlusAsRangeAgrees(v: string)
    ensures PlusAsRange(v) == Translation.PlusAsRange(v)
  {
    if |v| >= 3 {
      PokerToolsLegacy.NumericalRankAgrees([v[0]]);
      if PokerToolsLegacy.GetNumericalRank([v[0]]).Ok? {
        PokerToolsLegacy.StringRankAgrees(PokerToolsLegacy.GetNumericalRank([v[0]]).value - 1);
      }
    }
  }

  /**
   * process_one_token, as the package's translation does it except that a
   * name with a bad suit mark is None, a range over such names fails when
   * flattened, and an unexpected token type is a ValueError.
   */
  function ProcessOneToken(token: Token): (r: Result<Option<seq<string>>>)
    ensures token.kind == Translation.Seperator || token.kind == Translation.Catchall ==> r == Err(ValueError)
    decreases Translation.Depth(token)
  {
    var v := token.value;
    match token.kind
    case Range =>
      if |v| < 6 then Err(IndexError)
      else
        var constRank, highRank, lowRank, suitMark := v[0], v[1], v[5], v[2];
        RankValue([highRank]);
        RankValue([lowRank]);
        var high :- PokerToolsLegacy.GetNumericalRank([highRank]);
        var low :- PokerToolsLegacy.GetNumericalRank([lowRank]);
        var translated :- NamesOf(RangeNames(constRank, suitMark, high, low));
        var names :- Flatten(translated);
        Ok(Some(names))
    case RangePair =>
      if |v| < 4 then Err(IndexError)
      else
        RankValue([v[1]]);
        RankValue([v[3]]);
        var high :- PokerToolsLegacy.GetNumericalRank([v[1]]);
        var low :- PokerToolsLegacy.GetNumericalRank([v[3]]);
        var translated :- NamesOf(PairRangeNames(high, low));
        var names :- Flatten(translated);
        Ok(Some(names))
    case Pair =>
      if Translation.EndsWithPlus(v) then ProcessOneToken(Translation.Token(Translation.RangePair, "AA-" + Translation.Slice(v, 0, 2)))
      else ProcessOneName(v)
    case SingleCombo =>
      Ok(Some([Translation.Slice(v, 0, 2) + " " + Translation.Slice(v, 2, 4)]))
    case MultiCombo =>
      if Translation.EndsWithPlus(v) then
        var w :- PlusAsRange(v);
        ProcessOneToken(Translation.Token(Translation.Range, w))
      else ProcessOneName(v)
    case Seperator => Err(ValueError)
    case Catchall => Err(ValueError)
  }

  /** A range gives the names of the package's range, or fails where it fails. */
  lemma {:induction false} RangeAgrees(constRank: char, suitMark: char, high: int, low: Rank)
    requires high <= 14
    ensures var legacy := NamesOf(RangeNames(constRank, suitMark, high, low));
      legacy.Ok? &&
      (Translation.ExpandRange(constRank, suitMark, high, low).Ok? <==> Flatten(legacy.value).Ok?) &&
      (Flatten(legacy.value).Ok? ==> Flatten(legacy.value).value == Translation.ExpandRange(constRank, suitMark, high, low).value)
    decreases high - low
  {
    if low <= high {
      RangeAgrees(constRank, suitMark, high - 1, low);
      PokerToolsLegacy.RankDictsInverse(high, "");
      var names := RangeNames(constRank, suitMark, high, low);
      var name := [constRank, RankChar(high), suitMark];
      assert names[0] == name && names[1..] == RangeNames(constRank, suitMark, high - 1, low);
      NamesAgree(name);
    }
  }

  /** A range of pairs gives the names of the package's range of pairs. */
  lemma {:induction false} PairRangeAgrees(high: int, low: Rank)
    requires high <= 14
    ensures var legacy := NamesOf(PairRangeNames(high, low));
      legacy.Ok? && Flatten(legacy.value) == Ok(Translation.ExpandPairs(high, low))
    decreases high - low
  {
    if low <= high {
      PairRangeAgrees(high - 1, low);
      PokerToolsLegacy.RankDictsInverse(high, "");
      var names := PairRangeNames(high, low);
      var name := [RankChar(high), RankChar(high)];
      assert names[0] == name && names[1..] == PairRangeNames(high - 1, low);
      NamesAgree(name);
    }
  }

  /** Legacy and package results of one token agree wherever either gives names. */
  predicate Agree(token: Token) {
    (Translation.ProcessOneToken(token).Ok? <==> ProcessOneToken(token).Ok? && ProcessOneToken(token).value.Some?) &&
    (Translation.ProcessOneToken(token).Ok? ==> ProcessOneToken(token) == Ok(Some(Translation.ProcessOneToken(token).value)))
  }

  lemma RangeTokenAgrees(v: string)
    ensures Agree(Translation.Token(Translation.Range, v))
  {
    if |v| >= 6 {
      RankValue([v[1]]);
      RankValue([v[5]]);
      if PokerTools.GetNumericalRank([v[1]]).Ok? && PokerTools.GetNumericalRank([v[5]]).Ok? {
        RangeAgrees(v[0], v[2], PokerTools.GetNumericalRank([v[1]]).value, PokerTools.GetNumericalRank([v[5]]).value);
      }
    }
  }

  lemma RangePairTokenAgrees(v: string)
    ensures Agree(Translation.Token(Translation.RangePair, v))
  {
    if |v| >= 4 {
      RankValue([v[1]]);
      RankValue([v[3]]);
      if PokerTools.GetNumericalRank([v[1]]).Ok? && PokerTools.GetNumericalRank([v[3]]).Ok? {
        PairRangeAgrees(PokerTools.GetNumericalRank([v[1]]).value, PokerTools.GetNumericalRank([v[3]]).value);
      }
    }
  }

  lemma MultiComboTokenAgrees(v: string)
    ensures Agree(Translation.Token(Translation.MultiCombo, v))
  {
    if !Translation.EndsWithPlus(v) {
      NamesAgree(v);
    } else {
      PlusAsRangeAgrees(v);
      if Translation.PlusAsRange(v).Ok? {
        RangeTokenAgrees(Translation.PlusAsRange(v).value);
      }
    }
  }

  /**
   * process_one_token gives names exactly when the package's does, and the
   * same names.
   */
  lemma TokensAgree(token: Token)
    ensures Translation.ProcessOneToken(token).Ok? <==>
              ProcessOneToken(token).Ok? && ProcessOneToken(token).value.Some?
    ensures Translation.ProcessOneToken(token).Ok? ==>
              ProcessOneToken(token) == Ok(Some(Translation.ProcessOneToken(token).value))
  {
    var v := token.value;
    match token.kind
    case Range =>
      RangeTokenAgrees(v);
    case RangePair =>
      RangePairTokenAgrees(v);
    case Pair =>
      if Translation.EndsWithPlus(v) {
        RangePairTokenAgrees("AA-" + Translation.Slice(v, 0, 2));
      } else {
        NamesAgree(v);
      }
    case SingleCombo =>
    case MultiCombo =>
      MultiComboTokenAgrees(v);
    case Seperator =>
    case Catchall =>
  }

  // ---------------------------------------------------------------------------
  // process_whole_string

  /**
   * all_holecards after the loop of process_whole_string over the first
   * tokens: the results of process_one_token for the tokens other than SEP,
   * in order, or the first error.
   */
  function Parts(tokens: seq<Token>): (r: Result<seq<Option<seq<string>>>>)
  {
    if tokens == [] then Ok([])
    else Append(Parts(tokens[..|tokens| - 1]), tokens[|tokens| - 1])
  }

  /** One step of the loop: SEP is skipped, any other token's result is appended. */
  function Append(earlier: Result<seq<Option<seq<string>>>>, token: Token): (r: Result<seq<Option<seq<string>>>>)
  {
    var parts :- earlier;
    if token.kind == Translation.Seperator then Ok(parts)
    else
      var p :- ProcessOneToken(token);
      Ok(parts + [p])
  }

  /**
   * process_whole_string, over the tokens of its text: ValueError if any
   * token is catch-all text, the first error of process_one_token, a
   * TypeError if some token gave None, and otherwise the canonised names.
   */
  function WholeString(tokens: seq<Token>): (r: Result<seq<string>>)
    ensures Translation.HasCatchall(tokens) ==> r == Err(ValueError)
  {
    if Translation.HasCatchall(tokens) then Err(ValueError)
    else
      var allHolecards :- Parts(tokens);
      var flat :- Flatten(allHolecards);
      Ok(CanoniseAll(flat))
  }

  lemma PartsPrefix(tokens: seq<Token>, i: nat)
    requires i < |tokens|
    ensures Parts(tokens[..i + 1]) == Append(Parts(tokens[..i]), tokens[i])
  {
    assert tokens[..i + 1][..i] == tokens[..i];
  }

  lemma {:induction false} PartsErrorPersists(tokens: seq<Token>, i: nat)
    requires i <= |tokens| && Parts(tokens[..i]).Err?
    ensures Parts(tokens) == Parts(tokens[..i])
    decreases |tokens| - i
  {
    if i < |tokens| {
      PartsPrefix(tokens, i);
      PartsErrorPersists(tokens, i + 1);
    } else {
      assert tokens[..i] == tokens;
    }
  }

  /** The loop of process_whole_string, appending the result of each token other than SEP. */
  method ProcessWholeString(tokens: seq<Token>) returns (r: Result<seq<string>>)
    ensures r == WholeString(tokens)
  {
    if Translation.HasCatchall(tokens) {
      return Err(ValueError);
    }
    var allHolecards: seq<Option<seq<string>>> := [];
    for i := 0 to |tokens|
      invariant Parts(tokens[..i]) == Ok(allHolecards)
    {
      var token := tokens[i];
      PartsPrefix(tokens, i);
      if token.kind != Translation.Seperator {
        var p := ProcessOneToken(token);
        if p.Err? {
          PartsErrorPersists(tokens, i + 1);
          return Err(p.error);
        }
        allHolecards := allHolecards + [p.value];
      }
    }
    assert tokens[..|tokens|] == tokens;
    var flat := Flatten(allHolecards);
    if flat.Err? {
      return Err(flat.error);
    }
    return Ok(CanoniseAll(flat.value));
  }

  /**
   * Before canonising, process_whole_string and the package's translate
   * produce the same names, and succeed on the same tokens.
   */
  lemma {:induction false} RawAgrees(tokens: seq<Token>)
    ensures (Parts(tokens).Ok? && Flatten(Parts(tokens).value).Ok?) <==> Translation.Expansions(tokens).Ok?
    ensures Translation.Expansions(tokens).Ok? ==> Flatten(Parts(tokens).value) == Translation.Expansions(tokens)
  {
    if tokens != [] {
      var n := |tokens| - 1;
      var init, t := tokens[..n], tokens[n];
      RawAgrees(init);
      TokensAgree(t);
      if Parts(init).Ok? && t.kind != Translation.Seperator && ProcessOneToken(t).Ok? {
        FlattenSnoc(Parts(init).value, ProcessOneToken(t).value);
      }
    }
  }

  /**
   * process_whole_string succeeds exactly when the package's translate does;
   * both canonise the same names, each by its own CANONICAL_HOLECARDS_NAMES.
   */
  lemma WholeStringAgrees(tokens: seq<Token>)
    ensures WholeString(tokens).Ok? <==> Translation.Translate(tokens).Ok?
    ensures WholeString(tokens).Ok? ==>
              var names := Translation.Expansions(tokens).value;
              WholeString(tokens).value == CanoniseAll(names) &&
              Translation.Translate(tokens).value == Translation.CanoniseAll(names)
  {
    RawAgrees(tokens);
  }

  /**
   * When the expanded names are names of two different cards, both
   * translations name the same two cards at every position, each in its own
   * canonical order.
   */
  lemma SameHolecards(tokens: seq<Token>, i: nat, a: Card, b: Card)
    requires WholeString(tokens).Ok? && i < |WholeString(tokens).value|
    requires a != b && Translation.Expansions(tokens).Ok? && i < |Translation.Expansions(tokens).value|
    requires Translation.Expansions(tokens).value[i] == HolecardName(a, b)
    ensures WholeString(tokens).value[i] in {HolecardName(a, b), HolecardName(b, a)}
    ensures Translation.Translate(tokens).value[i] in {HolecardName(a, b), HolecardName(b, a)}
    ensures WholeString(tokens).value[i] in CanonicalHolecardsNames()
    ensures Translation.Translate(tokens).value[i] in PokerTools.CanonicalHolecardsNames()
  {
    WholeStringAgrees(tokens);
    CanoniseCards(a, b);
    Translation.CanoniseCards(a, b);
  }

  // ---------------------------------------------------------------------------
  // The doctests

  /** The tokens of the doctest of process_whole_string give 175 names here as well. */
  lemma WholeStringDoctest()
    ensures WholeString(Translation.Interleave(Translation.DoctestTokens)).Ok?
    ensures |WholeString(Translation.Interleave(Translation.DoctestTokens)).value| == 175
  {
    Translation.TranslateDoctest();
    WholeStringAgrees(Translation.Interleave(Translation.DoctestTokens));
  }
}
