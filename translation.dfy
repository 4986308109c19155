/**
 * The PokerStove range-notation expander of the package
 * (src/pypokertools/examples/translation.py): PokerStove tokens such as AKs,
 * QJo, 66, QQ+, A5s-A3s, Q9s+ and 8d7d become holecard names such as
 * "Ac Kc", each put into its canonical order. The regular-expression
 * tokeniser is not modelled: translate is given the tokens it would produce.
 */
module Translation {
  import opened Outcomes
  import opened Cards
  import opened PokerTools

  /** The token types of the tokeniser's specification. */
  datatype TokenType = Range | RangePair | Pair | SingleCombo | MultiCombo | Seperator | Catchall

  /** Token(type, value): a token type and the text it matched. */
  datatype Token = Token(kind: TokenType, value: string)

  /** Python's s[i:j] for 0 <= i <= j: the part of s[i..j] that exists. */
  function Slice(s: string, i: nat, j: nat): (r: string)
    requires i <= j
    ensures |r| == (if j <= |s| then j - i else if i <= |s| then |s| - i else 0)
    ensures forall k :: 0 <= k < |r| ==> r[k] == s[i + k]
  {
    if |s| <= i then [] else if |s| <= j then s[i..] else s[i..j]
  }

  /** s.endswith("+"). */
  predicate EndsWithPlus(s: string) {
    |s| > 0 && s[|s| - 1] == '+'
  }

  // ---------------------------------------------------------------------------
  // process_one_name

  /** "{}{} {}{}".format(rank1, suit1, rank2, suit2). */
  function PairText(rank1: char, suit1: Suit, rank2: char, suit2: Suit): string {
    [rank1, SuitChar(suit1), ' ', rank2, SuitChar(suit2)]
  }

  /** One name per suit of SUITS, both cards of that suit. */
  function SuitedTexts(rank1: char, rank2: char): (ns: seq<string>)
    ensures |ns| == 4
  {
    seq(4, i requires 0 <= i < 4 => PairText(rank1, Suits[i], rank2, Suits[i]))
  }

  /** One name per pair of SUIT_PERMUTATIONS. */
  function OffsuitTexts(rank1: char, rank2: char): (ns: seq<string>)
    ensures |ns| == 12
  {
    seq(12, i requires 0 <= i < 12 => PairText(rank1, SuitPermutations[i].0, rank2, SuitPermutations[i].1))
  }

  /** One name per pair of SUIT_COMBINATIONS. */
  function PairedTexts(rank1: char, rank2: char): (ns: seq<string>)
    ensures |ns| == 6
  {
    seq(6, i requires 0 <= i < 6 => PairText(rank1, SuitCombinations[i].0, rank2, SuitCombinations[i].1))
  }

  /**
   * process_one_name: "XYs" gives 4 names, "XYo" 12 and "XX" 6; any other
   * three-letter name is a bad suit mark and any other two-letter name has two
   * different ranks, both TokeniserError; any other length fails to unpack.
   */
  function ProcessOneName(stoveName: string): (r: Result<seq<string>>)
    ensures r.Ok? <==> (|stoveName| == 3 && stoveName[2] in "so") || (|stoveName| == 2 && stoveName[0] == stoveName[1])
    ensures r.Err? ==> r.error == (if |stoveName| == 2 || |stoveName| == 3 then TokeniserError else ValueError)
    ensures r.Ok? ==> |r.value| == (if |stoveName| == 2 then 6 else if stoveName[2] == 's' then 4 else 12)
  {
    if |stoveName| == 3 then
      var rank1, rank2, suitMark := stoveName[0], stoveName[1], stoveName[2];
      if suitMark == 's' then Ok(SuitedTexts(rank1, rank2))
      else if suitMark == 'o' then Ok(OffsuitTexts(rank1, rank2))
      else Err(TokeniserError)
    else if |stoveName| != 2 then Err(ValueError)
    else
      var rank1, rank2 := stoveName[0], stoveName[1];
      if rank1 == rank2 then Ok(PairedTexts(rank1, rank2)) else Err(TokeniserError)
  }

  /** No name occurs twice. */
  predicate NoRepeats(ns: seq<string>) {
    forall i, j :: 0 <= i < j < |ns| ==> ns[i] != ns[j]
  }

  /** The holecards of ranks a and b in one suit. */
  predicate SuitedName(x: string, a: Rank, b: Rank) {
    exists s: Suit :: x == HolecardName(Card(a, s), Card(b, s))
  }

  /** The holecards of ranks a and b in two different suits. */
  predicate OffsuitName(x: string, a: Rank, b: Rank) {
    exists s1: Suit, s2: Suit :: s1 != s2 && x == HolecardName(Card(a, s1), Card(b, s2))
  }

  /** The holecards of a pair of rank a, the earlier suit of SUITS first. */
  predicate PairName(x: string, a: Rank) {
    exists s1: Suit, s2: Suit :: SuitIndex(s1) < SuitIndex(s2) && x == HolecardName(Card(a, s1), Card(a, s2))
  }

  lemma PairTextName(a: Rank, s1: Suit, b: Rank, s2: Suit)
    ensures PairText(RankChar(a), s1, RankChar(b), s2) == HolecardName(Card(a, s1), Card(b, s2))
  {
  }

  /** "XYs" names the four suited holecards of X and Y, one per suit, each once. */
  lemma SuitedNames(a: Rank, b: Rank, x: string)
    ensures var r := ProcessOneName([RankChar(a), RankChar(b), 's']);
      r.Ok? && |r.value| == 4 && NoRepeats(r.value) && (x in r.value <==> SuitedName(x, a, b))
  {
    var ns := ProcessOneName([RankChar(a), RankChar(b), 's']).value;
    assert ns == SuitedTexts(RankChar(a), RankChar(b));
    forall i | 0 <= i < 4
      ensures ns[i] == HolecardName(Card(a, Suits[i]), Card(b, Suits[i]))
    {
      PairTextName(a, Suits[i], b, Suits[i]);
    }
    forall i, j | 0 <= i < j < 4
      ensures ns[i] != ns[j]
    {
      HolecardNameInjective(Card(a, Suits[i]), Card(b, Suits[i]), Card(a, Suits[j]), Card(b, Suits[j]));
    }
    if SuitedName(x, a, b) {
      var s: Suit :| x == HolecardName(Card(a, s), Card(b, s));
      assert ns[SuitIndex(s)] == x;
    }
  }

  /** The pairs of SUIT_PERMUTATIONS are all different. */
  lemma SuitPermutationsDistinct(i: nat, j: nat)
    requires i < j < 12
    ensures SuitPermutations[i] != SuitPermutations[j]
  {
    SuitPermutationsEnumerate(C, C);
  }

  /** "XYo" names the twelve offsuit holecards of X and Y, one per ordered pair of suits, each once. */
  lemma OffsuitNames(a: Rank, b: Rank, x: string)
    ensures var r := ProcessOneName([RankChar(a), RankChar(b), 'o']);
      r.Ok? && |r.value| == 12 && NoRepeats(r.value) && (x in r.value <==> OffsuitName(x, a, b))
  {
    var ns := ProcessOneName([RankChar(a), RankChar(b), 'o']).value;
    assert ns == OffsuitTexts(RankChar(a), RankChar(b));
    OffsuitTextsNamed(a, b, ns);
    OffsuitTextsDistinct(a, b, ns);
    OffsuitTextsCover(a, b, ns, x);
  }

  /** Name i of a list is the holecard of the i-th pair of SUIT_PERMUTATIONS. */
  predicate PermutationNames(ns: seq<string>, a: Rank, b: Rank) {
    |ns| == 12 &&
    forall i :: 0 <= i < 12 ==>
      ns[i] == HolecardName(Card(a, SuitPermutations[i].0), Card(b, SuitPermutations[i].1)) &&
      SuitPermutations[i].0 != SuitPermutations[i].1
  }

  lemma OffsuitTextsNamed(a: Rank, b: Rank, ns: seq<string>)
    requires ns == OffsuitTexts(RankChar(a), RankChar(b))
    ensures PermutationNames(ns, a, b)
  {
    var ps := SuitPermutations;
    forall i | 0 <= i < 12
      ensures ns[i] == HolecardName(Card(a, ps[i].0), Card(b, ps[i].1)) && ps[i].0 != ps[i].1
    {
      PairTextName(a, ps[i].0, b, ps[i].1);
      SuitPermutationsEnumerate(ps[i].0, ps[i].1);
    }
  }

  lemma OffsuitTextsDistinct(a: Rank, b: Rank, ns: seq<string>)
    requires PermutationNames(ns, a, b)
    ensures NoRepeats(ns)
  {
    var ps := SuitPermutations;
    forall i, j | 0 <= i < j < 12
      ensures ns[i] != ns[j]
    {
      HolecardNameInjective(Card(a, ps[i].0), Card(b, ps[i].1), Card(a, ps[j].0), Card(b, ps[j].1));
      SuitPermutationsDistinct(i, j);
    }
  }

  lemma OffsuitTextsCover(a: Rank, b: Rank, ns: seq<string>, x: string)
    requires PermutationNames(ns, a, b)
    ensures x in ns <==> OffsuitName(x, a, b)
  {
    var ps := SuitPermutations;
    if x in ns {
      var k :| 0 <= k < 12 && ns[k] == x;
      assert ps[k].0 != ps[k].1 && x == HolecardName(Card(a, ps[k].0), Card(b, ps[k].1));
    }
    if OffsuitName(x, a, b) {
      var s1: Suit, s2: Suit :| s1 != s2 && x == HolecardName(Card(a, s1), Card(b, s2));
      SuitPermutationsEnumerate(s1, s2);
      var k :| 0 <= k < 12 && ps[k] == (s1, s2);
      assert ns[k] == x;
    }
  }

  /** "XX" names the six holecards of a pair of X, one per pair of suits, each once. */
  lemma PairedNames(a: Rank, x: string)
    ensures var r := ProcessOneName([RankChar(a), RankChar(a)]);
      r.Ok? && |r.value| == 6 && NoRepeats(r.value) && (x in r.value <==> PairName(x, a))
  {
    var ns := ProcessOneName([RankChar(a), RankChar(a)]).value;
    assert ns == PairedTexts(RankChar(a), RankChar(a));
    PairedTextsNamed(a, ns);
    PairedTextsDistinct(a, ns);
    PairedTextsCover(a, ns, x);
  }

  /** Name i of a list is the pair of the i-th pair of SUIT_COMBINATIONS. */
  predicate CombinationNames(ns: seq<string>, a: Rank) {
    |ns| == 6 &&
    forall i :: 0 <= i < 6 ==>
      ns[i] == HolecardName(Card(a, SuitCombinations[i].0), Card(a, SuitCombinations[i].1)) &&
      SuitIndex(SuitCombinations[i].0) < SuitIndex(SuitCombinations[i].1)
  }

  lemma PairedTextsNamed(a: Rank, ns: seq<string>)
    requires ns == PairedTexts(RankChar(a), RankChar(a))
    ensures CombinationNames(ns, a)
  {
    var ps := SuitCombinations;
    forall i | 0 <= i < 6
      ensures ns[i] == HolecardName(Card(a, ps[i].0), Card(a, ps[i].1)) && SuitIndex(ps[i].0) < SuitIndex(ps[i].1)
    {
      PairTextName(a, ps[i].0, a, ps[i].1);
      SuitCombinationsEnumerate(ps[i].0, ps[i].1);
    }
  }

  lemma PairedTextsDistinct(a: Rank, ns: seq<string>)
    requires CombinationNames(ns, a)
    ensures NoRepeats(ns)
  {
    var ps := SuitCombinations;
    forall i, j | 0 <= i < j < 6
      ensures ns[i] != ns[j]
    {
      HolecardNameInjective(Card(a, ps[i].0), Card(a, ps[i].1), Card(a, ps[j].0), Card(a, ps[j].1));
      SuitCombinationsEnumerate(C, C);
    }
  }

  lemma PairedTextsCover(a: Rank, ns: seq<string>, x: string)
    requires CombinationNames(ns, a)
    ensures x in ns <==> PairName(x, a)
  {
    var ps := SuitCombinations;
    if x in ns {
      var k :| 0 <= k < 6 && ns[k] == x;
      assert SuitIndex(ps[k].0) < SuitIndex(ps[k].1) && x == HolecardName(Card(a, ps[k].0), Card(a, ps[k].1));
    }
    if PairName(x, a) {
      var s1: Suit, s2: Suit :| SuitIndex(s1) < SuitIndex(s2) && x == HolecardName(Card(a, s1), Card(a, s2));
      SuitCombinationsEnumerate(s1, s2);
      var k :| 0 <= k < 6 && ps[k] == (s1, s2);
      assert ns[k] == x;
    }
  }

  // ---------------------------------------------------------------------------
  // Ranges

  /** The names per rank step of a range: 4 for suited, 12 for offsuit. */
  function PerStep(suitMark: char): nat {
    if suitMark == 's' then 4 else 12
  }

  /**
   * The names of const_rank + get_string_rank(i) + suit_mark for i from high
   * down to low, flattened.
   */
  function ExpandRange(constRank: char, suitMark: char, high: int, low: Rank): (r: Result<seq<string>>)
    requires high <= 14
    ensures r.Ok? <==> high < low || suitMark in "so"
    ensures r.Err? ==> r.error == TokeniserError
    ensures r.Ok? ==> |r.value| == (if high < low then 0 else (high - low + 1) * PerStep(suitMark))
    decreases high - low
  {
    if high < low then Ok([])
    else
      var first := ProcessOneName([constRank, RankChar(high), suitMark]);
      if first.Err? then first
      else
        var rest := ExpandRange(constRank, suitMark, high - 1, low);
        Ok(first.value + rest.value)
  }

  /** The names of get_string_rank(i) * 2 for i from high down to low, flattened. */
  function ExpandPairs(high: int, low: Rank): (r: seq<string>)
    requires high <= 14
    ensures |r| == (if high < low then 0 else (high - low + 1) * 6)
    decreases high - low
  {
    if high < low then []
    else ProcessOneName([RankChar(high), RankChar(high)]).value + ExpandPairs(high - 1, low)
  }

  /**
   * A range runs from the high rank down: name i is name i % PerStep of the
   * expansion of rank k = high - i / PerStep.
   */
  lemma {:induction false} RangeOrder(constRank: char, suitMark: char, high: int, low: Rank, i: nat, k: int)
    requires high <= 14 && suitMark in "so"
    requires i < |ExpandRange(constRank, suitMark, high, low).value| && k == high - i / PerStep(suitMark)
    ensures low <= k <= high
    ensures ExpandRange(constRank, suitMark, high, low).value[i] ==
              ProcessOneName([constRank, RankChar(k), suitMark]).value[i % PerStep(suitMark)]
    decreases high - low
  {
    var q := PerStep(suitMark);
    BlockStep(i, q);
    if i >= q {
      RangeOrderRest(constRank, suitMark, high, low, i);
      RangeOrder(constRank, suitMark, high - 1, low, i - q, k);
    } else {
      RangeOrderFirst(constRank, suitMark, high, low, i);
    }
  }

  /** The first names of a range are those of its high step. */
  lemma RangeOrderFirst(constRank: char, suitMark: char, high: int, low: Rank, i: nat)
    requires high <= 14 && suitMark in "so" && i < |ExpandRange(constRank, suitMark, high, low).value| && i < PerStep(suitMark)
    ensures low <= high
    ensures ExpandRange(constRank, suitMark, high, low).value[i] == ProcessOneName([constRank, RankChar(high), suitMark]).value[i]
  {
    RangeSplit(constRank, suitMark, high, low);
  }

  /** Past the high step, a range continues with the range below it. */
  lemma RangeOrderRest(constRank: char, suitMark: char, high: int, low: Rank, i: nat)
    requires high <= 14 && suitMark in "so" && PerStep(suitMark) <= i < |ExpandRange(constRank, suitMark, high, low).value|
    ensures low <= high && i - PerStep(suitMark) < |ExpandRange(constRank, suitMark, high - 1, low).value|
    ensures ExpandRange(constRank, suitMark, high, low).value[i] ==
      ExpandRange(constRank, suitMark, high - 1, low).value[i - PerStep(suitMark)]
  {
    RangeSplit(constRank, suitMark, high, low);
  }

  /** A non-empty range is the names of its high step followed by the range below it. */
  lemma RangeSplit(constRank: char, suitMark: char, high: int, low: Rank)
    requires high <= 14 && suitMark in "so" && low <= high
    ensures |ProcessOneName([constRank, RankChar(high), suitMark]).value| == PerStep(suitMark)
    ensures ExpandRange(constRank, suitMark, high, low).value ==
      ProcessOneName([constRank, RankChar(high), suitMark]).value + ExpandRange(constRank, suitMark, high - 1, low).value
  {
  }

  /** Block arithmetic for the two block sizes. */
  lemma BlockStep(i: nat, q: nat)
    requires q == 4 || q == 12
    ensures i >= q ==> (i - q) / q == i / q - 1 && (i - q) % q == i % q
    ensures i < q ==> i / q == 0 && i % q == i
  {
    if q == 4 {
      assert i >= 4 ==> (i - 4) / 4 == i / 4 - 1 && (i - 4) % 4 == i % 4;
    } else {
      assert i >= 12 ==> (i - 12) / 12 == i / 12 - 1 && (i - 12) % 12 == i % 12;
    }
  }

  /** A range holds exactly the names of its rank steps from low to high. */
  lemma {:induction false} RangeMembers(constRank: char, suitMark: char, high: int, low: Rank, x: string)
    requires high <= 14 && suitMark in "so"
    ensures x in ExpandRange(constRank, suitMark, high, low).value <==>
              exists k: Rank :: low <= k <= high && x in ProcessOneName([constRank, RankChar(k), suitMark]).value
    decreases high - low
  {
    if low <= high {
      RangeMembers(constRank, suitMark, high - 1, low, x);
      RangeSplit(constRank, suitMark, high, low);
      if exists k: Rank :: low <= k <= high && x in ProcessOneName([constRank, RankChar(k), suitMark]).value {
        var k: Rank :| low <= k <= high && x in ProcessOneName([constRank, RankChar(k), suitMark]).value;
        assert k == high || low <= k <= high - 1;
      }
    }
  }

  /** A range of pairs holds exactly the names of its pairs from low to high. */
  lemma {:induction false} PairRangeSteps(high: int, low: Rank, x: string)
    requires high <= 14
    ensures x in ExpandPairs(high, low) <==>
              exists k: Rank :: low <= k <= high && x in ProcessOneName([RankChar(k), RankChar(k)]).value
    decreases high - low
  {
    if low <= high {
      PairRangeSteps(high - 1, low, x);
      assert ExpandPairs(high, low) == ProcessOneName([RankChar(high), RankChar(high)]).value + ExpandPairs(high - 1, low);
      if x in ExpandPairs(high, low) {
        PairStepUp(high, low, x);
      } else {
        PairStepDown(high, low, x);
      }
    }
  }

  /** A pair name of the high step or of a step below it is the name of a step from low to high. */
  lemma PairStepUp(high: int, low: Rank, x: string)
    requires low <= high <= 14
    requires x in ProcessOneName([RankChar(high), RankChar(high)]).value ||
             exists k: Rank :: low <= k <= high - 1 && x in ProcessOneName([RankChar(k), RankChar(k)]).value
    ensures exists k: Rank :: low <= k <= high && x in ProcessOneName([RankChar(k), RankChar(k)]).value
  {
    if x !in ProcessOneName([RankChar(high), RankChar(high)]).value {
      var k: Rank :| low <= k <= high - 1 && x in ProcessOneName([RankChar(k), RankChar(k)]).value;
    }
  }

  /** A name of no step below high and not of the high step is the name of no step from low to high. */
  lemma PairStepDown(high: int, low: Rank, x: string)
    requires low <= high <= 14
    requires x !in ProcessOneName([RankChar(high), RankChar(high)]).value
    requires forall k: Rank :: low <= k <= high - 1 ==> x !in ProcessOneName([RankChar(k), RankChar(k)]).value
    ensures forall k: Rank :: low <= k <= high ==> x !in ProcessOneName([RankChar(k), RankChar(k)]).value
  {
  }

  /** A range of pairs holds exactly the pairs of its ranks from low to high. */
  lemma PairRangeMembers(high: int, low: Rank, x: string)
    requires high <= 14
    ensures x in ExpandPairs(high, low) <==> InPairRange(x, high, low)
  {
    PairRangeSteps(high, low, x);
    forall k: Rank
      ensures x in ProcessOneName([RankChar(k), RankChar(k)]).value <==> PairName(x, k)
    {
      PairedNames(k, x);
    }
  }

  /** One rank step of a range with rank letters: the suited or offsuit holecards of those ranks. */
  predicate MarkedName(x: string, a: Rank, b: Rank, suitMark: char) {
    if suitMark == 's' then SuitedName(x, a, b) else OffsuitName(x, a, b)
  }

  /** One of the holecards of a range: constant rank c with a rank from low to high. */
  predicate InRange(x: string, c: Rank, high: int, low: Rank, suitMark: char) {
    exists k: Rank :: low <= k <= high && MarkedName(x, c, k, suitMark)
  }

  /** One of the pairs of a range of pairs: a pair of a rank from low to high. */
  predicate InPairRange(x: string, high: int, low: Rank) {
    exists k: Rank :: low <= k <= high && PairName(x, k)
  }

  /** A range with rank letters holds exactly the suited (or offsuit) holecards of the constant rank with the ranks low to high. */
  lemma RangeHolecards(c: Rank, high: int, low: Rank, suitMark: char, x: string)
    requires high <= 14 && suitMark in "so"
    ensures x in ExpandRange(RankChar(c), suitMark, high, low).value <==> InRange(x, c, high, low, suitMark)
  {
    RangeMembers(RankChar(c), suitMark, high, low, x);
    forall k: Rank
      ensures x in ProcessOneName([RankChar(c), RankChar(k), suitMark]).value <==> MarkedName(x, c, k, suitMark)
    {
      if suitMark == 's' {
        SuitedNames(c, k, x);
      } else {
        OffsuitNames(c, k, x);
      }
    }
  }

  // ---------------------------------------------------------------------------
  // process_one_token

  /** The nesting depth of a token's rewriting: "XX+" and "CLs+" become a range token. */
  function Depth(token: Token): nat {
    if token.kind == Pair || token.kind == MultiCombo then 1 else 0
  }

  /**
   * The range text process_one_token reads "CLs+" as: "C(C-1)s-CLs", the
   * rank just below C found through get_string_rank.
   */
  function PlusAsRange(v: string): (r: Result<string>)
    ensures r.Ok? <==> |v| >= 3 && GetNumericalRank([v[0]]).Ok? && 2 <= GetNumericalRank([v[0]]).value - 1
    ensures r.Ok? ==> r.value == [v[0], RankChar(GetNumericalRank([v[0]]).value - 1), v[2], '-', v[0], v[1], v[2]]
    ensures r.Err? ==> r.error == (if |v| < 3 then IndexError else KeyError)
  {
    if |v| < 3 then Err(IndexError)
    else
      var constRank, lowRank, suitMark := v[0], v[1], v[2];
      var c :- GetNumericalRank([constRank]);
      var highRank :- GetStringRank(c - 1);
      Ok([constRank] + highRank + [suitMark, '-', constRank, lowRank, suitMark])
  }

  /**
   * process_one_token: ranges expand rank by rank, "XX+" is "AA-XX",
   * "CLs+" is "C(C-1)s-CLs", a single combo is its one name; separators and
   * catch-all text are unexpected. Slices and indexing of the token's text
   * fail as Python's do.
   */
  function ProcessOneToken(token: Token): (r: Result<seq<string>>)
    ensures token.kind == Seperator || token.kind == Catchall ==> r == Err(TokeniserError)
    ensures token.kind == SingleCombo ==> r.Ok? && |r.value| == 1
    ensures r.Err? ==> r.error == IndexError || r.error == KeyError || r.error == TokeniserError || r.error == ValueError
    decreases Depth(token)
  {
    var v := token.value;
    match token.kind
    case Range =>
      if |v| < 6 then Err(IndexError)
      else
        var constRank, highRank, lowRank, suitMark := v[0], v[1], v[5], v[2];
        var high :- GetNumericalRank([highRank]);
        var low :- GetNumericalRank([lowRank]);
        ExpandRange(constRank, suitMark, high, low)
    case RangePair =>
      if |v| < 4 then Err(IndexError)
      else
        var high :- GetNumericalRank([v[1]]);
        var low :- GetNumericalRank([v[3]]);
        Ok(ExpandPairs(high, low))
    case Pair =>
      if EndsWithPlus(v) then ProcessOneToken(Token(RangePair, "AA-" + Slice(v, 0, 2)))
      else ProcessOneName(v)
    case SingleCombo =>
      Ok([Slice(v, 0, 2) + " " + Slice(v, 2, 4)])
    case MultiCombo =>
      if EndsWithPlus(v) then
        var w :- PlusAsRange(v);
        ProcessOneToken(Token(Range, w))
      else ProcessOneName(v)
    case Seperator => Err(TokeniserError)
    case Catchall => Err(TokeniserError)
  }

  /** The name of a rank letter is found again. */
  lemma RankLetter(a: Rank)
    ensures GetNumericalRank([RankChar(a)]) == Ok(a)
  {
    RankLettersRoundTrip(a, RankChar(a));
  }

  /**
   * "CHs-CLs" (or "CHo-CLo") holds, high rank first, 4 (or 12) names per rank
   * from H down to L: exactly the suited (or offsuit) holecards of C with
   * those ranks.
   */
  lemma RangeToken(c: Rank, high: Rank, low: Rank, suitMark: char, x: string)
    requires suitMark in "so"
    ensures var r := ProcessOneToken(Token(Range, [RankChar(c), RankChar(high), suitMark, '-', RankChar(c), RankChar(low), suitMark]));
      r.Ok? && |r.value| == (if high < low then 0 else (high - low + 1) * PerStep(suitMark)) &&
      (x in r.value <==> InRange(x, c, high, low, suitMark))
  {
    RankLetter(high);
    RankLetter(low);
    RangeHolecards(c, high, low, suitMark, x);
  }

  /** "HH-LL" holds 6 names per rank from H down to L: exactly the pairs of those ranks. */
  lemma PairRangeToken(high: Rank, low: Rank, x: string)
    ensures var r := ProcessOneToken(Token(RangePair, [RankChar(high), RankChar(high), '-', RankChar(low), RankChar(low)]));
      r.Ok? && |r.value| == (if high < low then 0 else (high - low + 1) * 6) &&
      (x in r.value <==> InPairRange(x, high, low))
  {
    RankLetter(high);
    RankLetter(low);
    PairRangeMembers(high, low, x);
  }

  /** "XX+" is "AA-XX": the pairs of rank X and every rank above it, 6 each. */
  lemma PairPlusToken(low: Rank, x: string)
    ensures var r := ProcessOneToken(Token(Pair, [RankChar(low), RankChar(low), '+']));
      r.Ok? && |r.value| == (15 - low) * 6 &&
      (x in r.value <==> InPairRange(x, 14, low))
  {
    var v := [RankChar(low), RankChar(low), '+'];
    assert Slice(v, 0, 2) == [RankChar(low), RankChar(low)];
    assert "AA-" + Slice(v, 0, 2) == [RankChar(14), RankChar(14), '-', RankChar(low), RankChar(low)];
    PairRangeToken(14, low, x);
  }

  /**
   * "CLs+" is "C(C-1)s-CLs": the suited (or offsuit) holecards of C with
   * every rank from L up to just below C; for C = 2 there is no rank below
   * and get_string_rank fails.
   */
  lemma MultiPlusToken(c: Rank, low: Rank, suitMark: char, x: string)
    requires suitMark in "so"
    ensures var r := ProcessOneToken(Token(MultiCombo, [RankChar(c), RankChar(low), suitMark, '+']));
      (c == 2 ==> r == Err(KeyError)) &&
      (c > 2 ==> r.Ok? && |r.value| == (if c - 1 < low then 0 else (c - low) * PerStep(suitMark)) &&
                 (x in r.value <==> InRange(x, c, c - 1, low, suitMark)))
  {
    if c == 2 {
      MultiPlusDeuce(low, suitMark);
    } else {
      var high: Rank := c - 1;
      MultiPlusRewrite(c, low, suitMark);
      RangeHolecards(c, high, low, suitMark, x);
    }
  }

  lemma MultiPlusDeuce(low: Rank, suitMark: char)
    ensures ProcessOneToken(Token(MultiCombo, [RankChar(2), RankChar(low), suitMark, '+'])) == Err(KeyError)
  {
    RankLetter(2);
  }

  lemma MultiPlusRewrite(c: Rank, low: Rank, suitMark: char)
    requires c > 2
    ensures ProcessOneToken(Token(MultiCombo, [RankChar(c), RankChar(low), suitMark, '+'])) ==
            ExpandRange(RankChar(c), suitMark, c - 1, low)
  {
    var v := [RankChar(c), RankChar(low), suitMark, '+'];
    var w := [RankChar(c), RankChar(c - 1), suitMark, '-', RankChar(c), RankChar(low), suitMark];
    PlusAsRangeOf(c, low, suitMark);
    RangeTokenExpands(c, c - 1, low, suitMark);
    assert ProcessOneToken(Token(MultiCombo, v)) == ProcessOneToken(Token(Range, w));
  }

  lemma PlusAsRangeOf(c: Rank, low: Rank, suitMark: char)
    requires c > 2
    ensures PlusAsRange([RankChar(c), RankChar(low), suitMark, '+']) ==
            Ok([RankChar(c), RankChar(c - 1), suitMark, '-', RankChar(c), RankChar(low), suitMark])
  {
    RankLetter(c);
  }

  /** A range token of rank letters expands its ranks from high down to low. */
  lemma RangeTokenExpands(c: Rank, high: Rank, low: Rank, suitMark: char)
    ensures ProcessOneToken(Token(Range, [RankChar(c), RankChar(high), suitMark, '-', RankChar(c), RankChar(low), suitMark])) ==
            ExpandRange(RankChar(c), suitMark, high, low)
  {
    RankLetter(high);
    RankLetter(low);
  }

  /** "XYs" (or "XYo") without a plus is the one holecard name of its ranks: 4 (or 12) names. */
  lemma ComboNameToken(a: Rank, b: Rank, suitMark: char, x: string)
    requires suitMark in "so"
    ensures var r := ProcessOneToken(Token(MultiCombo, [RankChar(a), RankChar(b), suitMark]));
      r.Ok? && |r.value| == PerStep(suitMark) && (x in r.value <==> MarkedName(x, a, b, suitMark))
  {
    if suitMark == 's' {
      SuitedNames(a, b, x);
    } else {
      OffsuitNames(a, b, x);
    }
  }

  /** "XX" without a plus is the six pairs of X. */
  lemma PairNameToken(a: Rank, x: string)
    ensures var r := ProcessOneToken(Token(Pair, [RankChar(a), RankChar(a)]));
      r.Ok? && |r.value| == 6 && (x in r.value <==> PairName(x, a))
  {
    PairedNames(a, x);
  }

  /** A single combo "8d7d" is the one holecard name "8d 7d". */
  lemma SingleComboToken(a: Card, b: Card)
    ensures ProcessOneToken(Token(SingleCombo, Name(a) + Name(b))) == Ok([HolecardName(a, b)])
  {
    var v := Name(a) + Name(b);
    assert Slice(v, 0, 2) == Name(a) && Slice(v, 2, 4) == Name(b);
  }

  // ---------------------------------------------------------------------------
  // canonise and translate

  /** canonise: a name of CANONICAL_HOLECARDS_NAMES unchanged, any other with its two cards swapped. */
  function Canonise(holecards: string): string {
    if holecards in CanonicalHolecardsNames() then holecards
    else Slice(holecards, 3, 5) + " " + Slice(holecards, 0, 2)
  }

  /**
   * For two different cards canonise gives a canonical name: the card of the
   * higher rank first, or of the earlier suit on equal ranks. Both orders of
   * the same two cards give the same name.
   */
  lemma CanoniseCards(a: Card, b: Card)
    requires a != b
    ensures Canonise(HolecardName(a, b)) in CanonicalHolecardsNames()
    ensures a.rank > b.rank || (a.rank == b.rank && SuitIndex(a.suit) < SuitIndex(b.suit)) ==>
              Canonise(HolecardName(a, b)) == HolecardName(a, b)
    ensures b.rank > a.rank || (a.rank == b.rank && SuitIndex(b.suit) < SuitIndex(a.suit)) ==>
              Canonise(HolecardName(a, b)) == HolecardName(b, a)
    ensures Canonise(HolecardName(a, b)) == Canonise(HolecardName(b, a))
  {
    CanonicalHolecardsMembership(a, b, "");
    CanonicalHolecardsMembership(b, a, "");
    HolecardNameInjective(a, b, a, b);
    HolecardNameInjective(b, a, b, a);
    var n, m := HolecardName(a, b), HolecardName(b, a);
    assert Slice(n, 3, 5) == Name(b) && Slice(n, 0, 2) == Name(a);
    assert Slice(m, 3, 5) == Name(a) && Slice(m, 0, 2) == Name(b);
    assert a.suit != b.suit ==> SuitIndex(a.suit) != SuitIndex(b.suit);
  }

  /** [canonise(name) for name in names]. */
  function CanoniseAll(names: seq<string>): (r: seq<string>)
    ensures |r| == |names| && forall i :: 0 <= i < |names| ==> r[i] == Canonise(names[i])
  {
    seq(|names|, i requires 0 <= i < |names| => Canonise(names[i]))
  }

  /**
   * Canonising the names of pairs of different cards gives, position by
   * position, a canonical name of the same two cards in one order or the other.
   */
  lemma CanoniseAllNames(pairs: seq<(Card, Card)>)
    requires forall i :: 0 <= i < |pairs| ==> pairs[i].0 != pairs[i].1
    ensures var r := CanoniseAll(seq(|pairs|, i requires 0 <= i < |pairs| => HolecardName(pairs[i].0, pairs[i].1)));
      |r| == |pairs| &&
      forall i :: 0 <= i < |pairs| ==>
        r[i] in CanonicalHolecardsNames() &&
        r[i] in {HolecardName(pairs[i].0, pairs[i].1), HolecardName(pairs[i].1, pairs[i].0)}
  {
    forall i | 0 <= i < |pairs|
      ensures Canonise(HolecardName(pairs[i].0, pairs[i].1)) in CanonicalHolecardsNames()
      ensures Canonise(HolecardName(pairs[i].0, pairs[i].1)) in
                {HolecardName(pairs[i].0, pairs[i].1), HolecardName(pairs[i].1, pairs[i].0)}
    {
      CanoniseCards(pairs[i].0, pairs[i].1);
    }
  }

  /**
   * The expansions of the tokens that are not separators, in token order;
   * the first token that fails gives the error.
   */
  function Expansions(tokens: seq<Token>): (r: Result<seq<string>>)
  {
    if tokens == [] then Ok([])
    else
      var last := tokens[|tokens| - 1];
      var earlier :- Expansions(tokens[..|tokens| - 1]);
      if last.kind == Seperator then Ok(earlier)
      else
        var names :- ProcessOneToken(last);
        Ok(earlier + names)
  }

  /** Some token is catch-all text the tokeniser could not read. */
  predicate HasCatchall(tokens: seq<Token>) {
    exists i :: 0 <= i < |tokens| && tokens[i].kind == Catchall
  }

  /**
   * translate, over the tokens of its text: TokeniserError if any token is
   * catch-all text, otherwise the canonised expansions of the tokens other
   * than separators, in order.
   */
  function Translate(tokens: seq<Token>): (r: Result<seq<string>>)
    ensures HasCatchall(tokens) ==> r == Err(TokeniserError)
    ensures !HasCatchall(tokens) && Expansions(tokens).Ok? ==> r.Ok? && |r.value| == |Expansions(tokens).value|
  {
    if HasCatchall(tokens) then Err(TokeniserError)
    else
      var names :- Expansions(tokens);
      Ok(CanoniseAll(names))
  }

  /** Every token other than a separator expands without error. */
  predicate AllExpand(tokens: seq<Token>) {
    forall i :: 0 <= i < |tokens| && tokens[i].kind != Seperator ==> ProcessOneToken(tokens[i]).Ok?
  }

  /** One of the names expanded from a token other than a separator. */
  predicate ExpandedFrom(tokens: seq<Token>, y: string) {
    exists i :: 0 <= i < |tokens| && tokens[i].kind != Seperator && ProcessOneToken(tokens[i]).Ok? &&
      y in ProcessOneToken(tokens[i]).value
  }

  /** The expansions succeed exactly when every token other than a separator does. */
  lemma {:induction false} ExpansionsSucceed(tokens: seq<Token>)
    ensures Expansions(tokens).Ok? <==> AllExpand(tokens)
  {
    if tokens != [] {
      var n := |tokens| - 1;
      var init := tokens[..n];
      ExpansionsSucceed(init);
      AllExpandSnoc(init, tokens[n]);
      assert tokens == init + [tokens[n]];
    }
  }

  /** Tokens and one more all expand exactly when the tokens do and the one more does. */
  lemma AllExpandSnoc(init: seq<Token>, t: Token)
    ensures AllExpand(init + [t]) <==> AllExpand(init) && (t.kind != Seperator ==> ProcessOneToken(t).Ok?)
  {
    var tokens := init + [t];
    if AllExpand(tokens) {
      forall i | 0 <= i < |init| && init[i].kind != Seperator
        ensures ProcessOneToken(init[i]).Ok?
      {
        assert tokens[i] == init[i];
      }
      assert tokens[|init|] == t;
    }
  }

  /** A name expanded from tokens and one more is expanded from the tokens or from the one more. */
  lemma ExpandedFromSnoc(init: seq<Token>, t: Token, x: string)
    ensures ExpandedFrom(init + [t], x) <==>
              ExpandedFrom(init, x) || (t.kind != Seperator && ProcessOneToken(t).Ok? && x in ProcessOneToken(t).value)
  {
    var tokens := init + [t];
    if ExpandedFrom(tokens, x) {
      var i :| 0 <= i < |tokens| && tokens[i].kind != Seperator && ProcessOneToken(tokens[i]).Ok? &&
        x in ProcessOneToken(tokens[i]).value;
      if i < |init| {
        assert tokens[i] == init[i];
      }
    }
    if ExpandedFrom(init, x) {
      var i :| 0 <= i < |init| && init[i].kind != Seperator && ProcessOneToken(init[i]).Ok? &&
        x in ProcessOneToken(init[i]).value;
      assert tokens[i] == init[i];
    }
    if t.kind != Seperator && ProcessOneToken(t).Ok? && x in ProcessOneToken(t).value {
      assert tokens[|init|] == t;
    }
  }

  /** The expansions hold exactly the names of the tokens' expansions. */
  lemma {:induction false} ExpansionsMembers(tokens: seq<Token>, x: string)
    requires Expansions(tokens).Ok?
    ensures x in Expansions(tokens).value <==> ExpandedFrom(tokens, x)
  {
    if tokens != [] {
      var n := |tokens| - 1;
      var init, t := tokens[..n], tokens[n];
      assert tokens == init + [t];
      ExpansionsMembers(init, x);
      ExpandedFromSnoc(init, t, x);
      var e := Expansions(init).value;
      if t.kind == Seperator {
        assert Expansions(tokens).value == e;
      } else {
        assert Expansions(tokens).value == e + ProcessOneToken(t).value;
      }
    }
  }

  /**
   * translate succeeds exactly when no token is catch-all text and every
   * other token but the separators expands; it then yields exactly the
   * canonised names of those expansions.
   */
  lemma TranslateFacts(tokens: seq<Token>, x: string)
    ensures Translate(tokens).Ok? <==> !HasCatchall(tokens) && AllExpand(tokens)
    ensures Translate(tokens).Ok? ==>
              (x in Translate(tokens).value <==> exists y :: ExpandedFrom(tokens, y) && x == Canonise(y))
  {
    ExpansionsSucceed(tokens);
    if Translate(tokens).Ok? {
      var names := Expansions(tokens).value;
      if x in Translate(tokens).value {
        var k :| 0 <= k < |names| && CanoniseAll(names)[k] == x;
        ExpansionsMembers(tokens, names[k]);
      }
      if exists y :: ExpandedFrom(tokens, y) && x == Canonise(y) {
        var y :| ExpandedFrom(tokens, y) && x == Canonise(y);
        ExpansionsMembers(tokens, y);
        var k :| 0 <= k < |names| && names[k] == y;
        assert CanoniseAll(names)[k] == x;
      }
    }
  }

  /**
   * When every expanded name names two different cards, everything translate
   * yields is a name of CANONICAL_HOLECARDS_NAMES.
   */
  lemma TranslateCanonical(tokens: seq<Token>, x: string)
    requires forall y :: ExpandedFrom(tokens, y) ==> exists a: Card, b: Card :: a != b && y == HolecardName(a, b)
    requires Translate(tokens).Ok? && x in Translate(tokens).value
    ensures x in CanonicalHolecardsNames()
  {
    TranslateFacts(tokens, x);
    var y :| ExpandedFrom(tokens, y) && x == Canonise(y);
    var a: Card, b: Card :| a != b && y == HolecardName(a, b);
    CanoniseCards(a, b);
  }

  // ---------------------------------------------------------------------------
  // The doctest of translate

  lemma {:induction false} ExpansionsSnoc(earlier: seq<Token>, t: Token, m: nat, n: nat)
    requires Expansions(earlier).Ok? && |Expansions(earlier).value| == m
    requires t.kind == Seperator ==> n == 0
    requires t.kind != Seperator ==> ProcessOneToken(t).Ok? && |ProcessOneToken(t).value| == n
    ensures Expansions(earlier + [t]).Ok? && |Expansions(earlier + [t]).value| == m + n
  {
    assert (earlier + [t])[..|earlier|] == earlier;
  }

  const Comma: Token := Token(Seperator, ", ")

  /** The expansions of the tokens of the doctest, token by token. */
  lemma JacksPlus(t: Token)
    requires t == Token(Pair, "JJ+")
    ensures ProcessOneToken(t).Ok? && |ProcessOneToken(t).value| == 24
  {
    PairPlusToken(11, "");
    assert t.value == [RankChar(11), RankChar(11), '+'];
  }

  lemma SixesToDeuces(t: Token)
    requires t == Token(RangePair, "66-22")
    ensures ProcessOneToken(t).Ok? && |ProcessOneToken(t).value| == 30
  {
    PairRangeToken(6, 2, "");
    assert t.value == [RankChar(6), RankChar(6), '-', RankChar(2), RankChar(2)];
  }

  lemma AceFiveToAceDeuceSuited(t: Token)
    requires t == Token(Range, "A5s-A2s")
    ensures ProcessOneToken(t).Ok? && |ProcessOneToken(t).value| == 16
  {
    RangeToken(14, 5, 2, 's', "");
    assert t.value == [RankChar(14), RankChar(5), 's', '-', RankChar(14), RankChar(2), 's'];
  }

  lemma QueenNineSuitedPlus(t: Token)
    requires t == Token(MultiCombo, "Q9s+")
    ensures ProcessOneToken(t).Ok? && |ProcessOneToken(t).value| == 12
  {
    MultiPlusToken(12, 9, 's', "");
    assert t.value == [RankChar(12), RankChar(9), 's', '+'];
  }

  lemma JackNineSuitedPlus(t: Token)
    requires t == Token(MultiCombo, "J9s+")
    ensures ProcessOneToken(t).Ok? && |ProcessOneToken(t).value| == 8
  {
    MultiPlusToken(11, 9, 's', "");
    assert t.value == [RankChar(11), RankChar(9), 's', '+'];
  }

  lemma EightSevenDiamonds(t: Token)
    requires t == Token(SingleCombo, "8d7d")
    ensures ProcessOneToken(t).Ok? && |ProcessOneToken(t).value| == 1
  {
  }

  lemma AceTenOffsuitPlus(t: Token)
    requires t == Token(MultiCombo, "ATo+")
    ensures ProcessOneToken(t).Ok? && |ProcessOneToken(t).value| == 48
  {
    MultiPlusToken(14, 10, 'o', "");
    assert t.value == [RankChar(14), RankChar(10), 'o', '+'];
  }

  lemma KingTenOffsuitPlus(t: Token)
    requires t == Token(MultiCombo, "KTo+")
    ensures ProcessOneToken(t).Ok? && |ProcessOneToken(t).value| == 36
  {
    MultiPlusToken(13, 10, 'o', "");
    assert t.value == [RankChar(13), RankChar(10), 'o', '+'];
  }

  /** The tokens t0, ", ", t1, ", ", ... of a comma-separated list. */
  function Interleave(ts: seq<Token>): seq<Token> {
    if |ts| <= 1 then ts else Interleave(ts[..|ts| - 1]) + [Comma, ts[|ts| - 1]]
  }

  function Sum(ns: seq<nat>): nat {
    if ns == [] then 0 else ns[0] + Sum(ns[1..])
  }

  lemma LastSplit<T>(s: seq<T>)
    requires s != []
    ensures s[..|s| - 1] + [s[|s| - 1]] == s
  {
  }

  lemma {:induction false} SumSnoc(ns: seq<nat>, n: nat)
    ensures Sum(ns + [n]) == Sum(ns) + n
  {
    if ns != [] {
      SumSnoc(ns[1..], n);
      assert (ns + [n])[1..] == ns[1..] + [n];
    }
  }

  /** A comma-separated list of tokens expands to the sum of the tokens' expansions. */
  lemma {:induction false} InterleavedExpansions(ts: seq<Token>, ns: seq<nat>)
    requires |ts| == |ns|
    requires forall i :: 0 <= i < |ts| ==>
               ts[i].kind != Seperator && ProcessOneToken(ts[i]).Ok? && |ProcessOneToken(ts[i]).value| == ns[i]
    ensures Expansions(Interleave(ts)).Ok? && |Expansions(Interleave(ts)).value| == Sum(ns)
  {
    if |ts| == 1 {
      ExpansionsSnoc([], ts[0], 0, ns[0]);
      assert [] + [ts[0]] == ts && Sum(ns) == ns[0] + Sum([]);
    } else if |ts| > 1 {
      var n := |ts| - 1;
      InterleavedExpansions(ts[..n], ns[..n]);
      SumSnoc(ns[..n], ns[n]);
      LastSplit(ns);
      LastSplit(ts);
      InterleaveSnoc(ts[..n], ts[n], Sum(ns[..n]), ns[n]);
    }
  }


  /** One more token after a comma adds its expansion to those of the list. */
  lemma InterleaveSnoc(init: seq<Token>, t: Token, m: nat, k: nat)
    requires init != []
    requires Expansions(Interleave(init)).Ok? && |Expansions(Interleave(init)).value| == m
    requires t.kind != Seperator && ProcessOneToken(t).Ok? && |ProcessOneToken(t).value| == k
    ensures Expansions(Interleave(init + [t])).Ok? && |Expansions(Interleave(init + [t])).value| == m + k
  {
    ExpansionsSnoc(Interleave(init), Comma, m, 0);
    ExpansionsSnoc(Interleave(init) + [Comma], t, m, k);
    assert (init + [t])[..|init|] == init;
    assert Interleave(init) + [Comma] + [t] == Interleave(init + [t]);
  }

  /** The tokens of the doctest other than the commas. */
  const DoctestTokens: seq<Token> :=
    [Token(Pair, "JJ+"), Token(RangePair, "66-22"), Token(Range, "A5s-A2s"), Token(MultiCombo, "Q9s+"),
     Token(MultiCombo, "J9s+"), Token(SingleCombo, "8d7d"), Token(MultiCombo, "ATo+"), Token(MultiCombo, "KTo+")]

  /** Their expansion sizes. */
  const DoctestCounts: seq<nat> := [24, 30, 16, 12, 8, 1, 48, 36]

  lemma DoctestTokenCounts(i: nat)
    requires i < 8
    ensures |DoctestTokens| == |DoctestCounts| == 8
    ensures DoctestTokens[i].kind != Seperator && DoctestTokens[i].kind != Catchall
    ensures ProcessOneToken(DoctestTokens[i]).Ok? && |ProcessOneToken(DoctestTokens[i]).value| == DoctestCounts[i]
  {
    var t := DoctestTokens[i];
    if i == 0 { JacksPlus(t); }
    else if i == 1 { SixesToDeuces(t); }
    else if i == 2 { AceFiveToAceDeuceSuited(t); }
    else if i == 3 { QueenNineSuitedPlus(t); }
    else if i == 4 { JackNineSuitedPlus(t); }
    else if i == 5 { EightSevenDiamonds(t); }
    else if i == 6 { AceTenOffsuitPlus(t); }
    else { KingTenOffsuitPlus(t); }
  }

  lemma DoctestCountsSum()
    ensures |DoctestTokens| == |DoctestCounts| == 8 && Sum(DoctestCounts) == 175
  {
  }

  lemma DoctestTokensCounted()
    ensures |DoctestTokens| == |DoctestCounts| && Sum(DoctestCounts) == 175
    ensures forall i :: 0 <= i < |DoctestTokens| ==>
              DoctestTokens[i].kind != Seperator && DoctestTokens[i].kind != Catchall &&
              ProcessOneToken(DoctestTokens[i]).Ok? && |ProcessOneToken(DoctestTokens[i]).value| == DoctestCounts[i]
  {
    DoctestCountsSum();
    forall i | 0 <= i < |DoctestTokens|
      ensures DoctestTokens[i].kind != Seperator && DoctestTokens[i].kind != Catchall &&
              ProcessOneToken(DoctestTokens[i]).Ok? && |ProcessOneToken(DoctestTokens[i]).value| == DoctestCounts[i]
    {
      DoctestTokenCounts(i);
    }
  }

  /** Interleaving with commas adds no catch-all text. */
  lemma {:induction false} InterleaveKinds(ts: seq<Token>)
    requires forall i :: 0 <= i < |ts| ==> ts[i].kind != Catchall
    ensures !HasCatchall(Interleave(ts))
  {
    if |ts| > 1 {
      var n := |ts| - 1;
      InterleaveKinds(ts[..n]);
      var r := Interleave(ts[..n]);
      assert Interleave(ts) == r + [Comma, ts[n]];
      assert forall i :: 0 <= i < |r| ==> Interleave(ts)[i] == r[i];
    }
  }

  /** A comma-separated list of tokens that all expand translates to the sum of their expansions. */
  lemma InterleavedTranslate(ts: seq<Token>, ns: seq<nat>)
    requires |ts| == |ns|
    requires forall i :: 0 <= i < |ts| ==>
               ts[i].kind != Seperator && ts[i].kind != Catchall &&
               ProcessOneToken(ts[i]).Ok? && |ProcessOneToken(ts[i]).value| == ns[i]
    ensures Translate(Interleave(ts)).Ok? && |Translate(Interleave(ts)).value| == Sum(ns)
  {
    InterleavedExpansions(ts, ns);
    InterleaveKinds(ts);
  }

  /**
   * The tokens of "JJ+, 66-22, A5s-A2s, Q9s+, J9s+, 8d7d, ATo+, KTo+"
   * translate to 175 names.
   */
  lemma TranslateDoctest()
    ensures Translate(Interleave(DoctestTokens)).Ok? && |Translate(Interleave(DoctestTokens)).value| == 175
  {
    DoctestTokensCounted();
    InterleavedTranslate(DoctestTokens, DoctestCounts);
  }
}
