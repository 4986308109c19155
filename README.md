# pypokertools in Dafny

A model of the card logic of pypokertools, a small Python library for Texas
hold'em analysis, with proofs of what its functions promise.

The centre of the model is the flop canonicaliser: `get_canonical` sorts a
three-card flop and renames its suits to clubs, diamonds and hearts in order,
with two tie-breaks for paired ranks. `get_suit_isomorphs` lists every flop
that differs from a given one only by its suits. `get_translation_dict` builds
the suit-to-suit map from a flop to its canonical form, and
`get_all_canonicals` collects the canonical form of every flop. Both versions
of the module are modelled: the packaged one (tuples) and the older top-level
one (lists, an `elif` chain and a slot overwritten in place). The model proves:

- the canonical form is sorted, keeps the ranks and is idempotent;
- it does not depend on the order of the cards or on a renaming of the suits;
- two flops share a canonical form exactly when one is the other reordered
  and resuited;
- the isomorph lists have exactly 4, 12 or 24 flops, none twice;
- the translation dict always has the four suits as keys, and outside the two
  paired tie-breaks it is a renaming of the suits that maps the flop onto its
  canonical form.

Around it sits the rest of the card logic, modelled file by file:

- the two `pokertools` modules: card names and their order, the rank maps,
  `cards_from_str`, the `five_cards` guard, conflict filtering, `deal` on a
  deck object, rank counting and the ace-low rank windows;
- the five-card, flop and holecard predicates;
- the holecard-and-flop properties of both `complex.py` versions;
- the bluff candidates of `bluffing.py` and `examples/bluffing.py`;
- both PokerStove range translators.

Python exceptions are values of a `Result` datatype whose error names the
exception class. The error paths of the modelled functions are part of the
model for the inputs the callers in the repository pass; the few that are
not (flops of other than three cards, keyword and positional-argument
mistakes, the memoisation cache) are listed under "Left out".

One module per source file:

| module | file |
|---|---|
| `Outcomes` | optional values, results and the exception kinds |
| `Cards` | the card model shared by both `pokertools` modules |
| `Sorting` | `sorted`, `sum`, `max`, `min` and `Counter` on integer lists |
| `PokerTools` | `src/pypokertools/pokertools.py` |
| `PokerToolsLegacy` | `pokertools.py` |
| `Hand` | `properties/hand.py` (and the same predicates in `bluffing.py`) |
| `Flop` | `src/pypokertools/properties/flop.py` |
| `Holecards` | `src/pypokertools/properties/holecards.py` |
| `Complex` | `src/pypokertools/properties/complex.py` |
| `ComplexLegacy` | `properties/complex.py` |
| `Bluffing` | `bluffing.py` |
| `BluffExamples` | `examples/bluffing.py` |
| `Translation` | `src/pypokertools/examples/translation.py` |
| `TranslationLegacy` | `translation.py` |
| `Isomorph` | `src/pypokertools/examples/isomorph.py` |
| `IsomorphLegacy` | `isomorph.py` |

A few source facts decide how the model reads the code:

- The packaged `pokertools.py` defines `get_string_rank` and
  `get_numerical_rank` at lines 138-139 as the lookups in `RANK_NUM_TO_STR`
  and `RANK_STR_TO_NUM`, so a missing key raises `KeyError`; the older
  `pokertools.py` defines the same lookups as functions at lines 101-106.
- `examples/bluffing.py` line 35 passes `include_board=False` to
  `is_onepair`. Neither version of `is_onepair` takes that keyword, so the
  call as written raises `TypeError` (`BluffExamples.IsBluffCandidateAsWritten`,
  listed under Findings). The module docstring says a pair made
  by the board alone does not count. `BluffExamples.IsBluffCandidate` follows
  that docstring, which is `exclude_board=True` in the package. The module
  imports the older `properties/complex.py`, whose `is_3straight` and
  `is_3flush` are the package's code line for line, and whose intended
  one-holecard `is_onepair` is the package's `exclude_board` test
  (`ComplexLegacy.IntendedIsExcludeBoard`).
- The older `properties/hand.py`, `properties/complex.py` and
  `examples/bluffing.py` import `five_cards`, `sorted_count_of_values`,
  `num_suits`, `rank_subsequences`, `CANONICAL_HOLECARDS` and
  `ConflictingCards` from a `pokertools` module, but the older top-level
  `pokertools.py` defines none of them; the model takes them from the
  package's `pokertools.py`.
- Both versions of `five_cards` are modelled with their own error kinds: the
  package raises `ConflictingCards` for a repeated card, `bluffing.py` raises
  `ValueError`.
- Card suits are the datatype `Suit`; its letters order it c < d < h < s as
  the string comparison in the `Card` methods does.

## Model

| member | source | states |
|---|---|---|
| Cards.SuitOfChar | src/pypokertools/pokertools.py:13 | a character is a suit letter exactly when it is one of "cdhs", and then the suit found has that letter |
| Cards.SuitIndex | src/pypokertools/pokertools.py:13 | the position of a suit in SUITS, below 4, holds that suit |
| Cards.RankOfChar | src/pypokertools/pokertools.py:43 | a character has a rank exactly when it is one of the rank letters, and the rank found is written with that letter |
| Cards.Name | src/pypokertools/pokertools.py:20-24 | a card's name is two letters: a rank letter and a suit letter |
| Cards.CardOfName | src/pypokertools/pokertools.py:142-148 | a card found under a name is the card whose name that is |
| Cards.NameRoundTrip | src/pypokertools/pokertools.py:142-148 | every card is found again under its own name |
| Cards.RankLettersRoundTrip | src/pypokertools/pokertools.py:43-44 | rank letter and numerical rank convert into each other both ways |
| Cards.SuitLettersFollowSuits | src/pypokertools/pokertools.py:78-85 | comparing suit letters is comparing positions in SUITS, and equal letters are equal suits |
| Cards.CardOrder | src/pypokertools/pokertools.py:82-100 | `<=` is `<` or equality, `>` and `>=` are the converses, `<` is irreflexive and transitive, and of two different cards exactly one is below the other |
| Cards.Sort3 | src/pypokertools/examples/isomorph.py:58 | sorted() of three cards is a sorted permutation of them, of three different cards when they are different |
| Cards.SortedUnique | src/pypokertools/examples/isomorph.py:58 | two sorted card sequences holding the same cards are equal, so sorted() has one result |
| Cards.Sort3OrderFree | src/pypokertools/examples/isomorph.py:58 | sorting a flop gives the same result for every order of its three cards |
| Cards.Sort3OfSorted | src/pypokertools/examples/isomorph.py:58 | sorting an already sorted flop leaves it unchanged |
| Sorting.SortAsc | src/pypokertools/pokertools.py:273-275 | sorted(s) is ascending and a permutation of s |
| Sorting.SortDesc | src/pypokertools/pokertools.py:270 | sorted(s, reverse=True) is descending and a permutation of s |
| Sorting.SortDescSum | src/pypokertools/pokertools.py:270 | sorting in reverse keeps the sum |
| Sorting.AscendingUnique | src/pypokertools/pokertools.py:273-275 | one ascending arrangement exists per multiset, so sorted() is determined by the values |
| Sorting.DescendingUnique | src/pypokertools/pokertools.py:270 | one descending arrangement exists per multiset |
| Sorting.AscendingPair | src/pypokertools/properties/holecards.py:32 | the ascending arrangement of two values is the smaller then the larger |
| Sorting.DedupFacts | src/pypokertools/pokertools.py:270 | the Counter's keys list every value of s once and nothing else, and there are as many as values exactly when no value repeats |
| Sorting.SortedCountsFacts | src/pypokertools/pokertools.py:255-270 | the sorted counts are non-increasing, one per distinct value, each between 1 and the length, and add up to the length |
| Sorting.CountValuesFacts | src/pypokertools/pokertools.py:270 | the Counter's values are one count per distinct value, each between 1 and the length, adding up to the length |
| Sorting.AllCountsOne | src/pypokertools/pokertools.py:270 | the sorted counts are all ones exactly when no value repeats |
| Sorting.Max | properties/hand.py:31 | max(s) is a value of s at least every value of s |
| Sorting.Min | properties/hand.py:31 | min(s) is a value of s at most every value of s |
| Sorting.AscendingMinMax | properties/hand.py:25-31 | of sorted ranks the maximum is the last and the minimum the first |
| Sorting.OneValueCounts | src/pypokertools/properties/flop.py:27-28 | the counts are the single count len(s) exactly when every value equals the first |
| Sorting.TwoValueCounts | src/pypokertools/properties/holecards.py:11-12 | two values count as [2] exactly when they are equal |
| Sorting.CountIsListed | src/pypokertools/pokertools.py:270 | how often a present value occurs is one of the sorted counts |
| Sorting.CountWitness | src/pypokertools/pokertools.py:270 | every sorted count is how often some value occurs |
| Sorting.TwoValuesCounted | src/pypokertools/pokertools.py:270 | two different values occurring equally often put that count twice among the sorted counts |
| PokerTools.Deck | src/pypokertools/pokertools.py:20-24 | the deck in CARD_NAMES order has 52 cards |
| PokerTools.CardNames | src/pypokertools/pokertools.py:20-24 | CARD_NAMES has 52 names |
| PokerTools.DeckIndex | src/pypokertools/pokertools.py:20-24 | every card has a position below 52 in CARD_NAMES, holding that card and its name |
| PokerTools.DeckEnumeratesCards | src/pypokertools/pokertools.py:18-24 | CARD_NAMES lists 52 different cards under 52 different names, higher rank first and c, d, h, s within a rank |
| PokerTools.SuitPermutationsEnumerate | src/pypokertools/pokertools.py:46 | SUIT_PERMUTATIONS holds the 12 ordered pairs of different suits in lexicographic order |
| PokerTools.SuitCombinationsEnumerate | src/pypokertools/pokertools.py:47 | SUIT_COMBINATIONS holds the 6 pairs of suits in SUITS order, lexicographically ordered |
| PokerTools.NameInjective | src/pypokertools/pokertools.py:20-24 | different cards have different names |
| PokerTools.HolecardNameInjective | src/pypokertools/pokertools.py:27-32 | a holecard name is two card names around a space and determines both cards |
| PokerTools.HolecardsNames | src/pypokertools/pokertools.py:26-32 | HOLECARDS_NAMES has 2652 names |
| PokerTools.HolecardsIndex | src/pypokertools/pokertools.py:27-32 | every ordered pair of different cards has its name at a position of HOLECARDS_NAMES in the block of its first card |
| PokerTools.HolecardsNamesMembership | src/pypokertools/pokertools.py:27-32 | the name of an ordered pair of cards is in HOLECARDS_NAMES exactly when the cards differ |
| PokerTools.HolecardsNamesDistinct | src/pypokertools/pokertools.py:27-32 | HOLECARDS_NAMES repeats no name and is grouped by first card in CARD_NAMES order |
| PokerTools.HolecardsOfName | src/pypokertools/pokertools.py:152-168 | HOLECARDS has a key exactly when it is in HOLECARDS_NAMES, and its value is the two different cards that name names |
| PokerTools.CanonicalHolecardsMembership | src/pypokertools/pokertools.py:34-41 | a holecard name is canonical exactly when its first card comes first in CARD_NAMES, that is has the higher rank or the earlier suit on equal ranks; every canonical name is a holecard name |
| PokerTools.GetNumericalRank | src/pypokertools/pokertools.py:139 | a lookup succeeds exactly for a one-letter rank string and gives the rank written with that letter; KeyError otherwise |
| PokerTools.GetStringRank | src/pypokertools/pokertools.py:138 | a lookup succeeds exactly for 2..14 and gives one rank letter; KeyError otherwise |
| PokerTools.RankMapsRoundTrip | src/pypokertools/pokertools.py:43-44 | the two rank maps are inverse to each other |
| PokerTools.Split | src/pypokertools/pokertools.py:188 | str.split() gives non-empty words free of whitespace, counting as whitespace the ASCII and Unicode characters Python 3 separates on |
| PokerTools.SplitJoin | src/pypokertools/pokertools.py:188 | splitting words joined by spaces gives the words back |
| PokerTools.CardsOfNames | src/pypokertools/pokertools.py:188 | looking up names in CARDS succeeds exactly when every name is a card's, then gives one card per name in order; KeyError otherwise |
| PokerTools.CardsFromStr | src/pypokertools/pokertools.py:180-188 | cards_from_str succeeds exactly when every word is a card name and gives the cards of the words in order; KeyError otherwise |
| PokerTools.CardsFromStrNoBreakSpace | src/pypokertools/pokertools.py:188 | str.split() also separates on Unicode whitespace: "As" and "Kd" joined by a no-break space read as the cards As and Kd |
| PokerTools.CardsFromStrRoundTrip | src/pypokertools/pokertools.py:180-188 | reading back the space-joined names of cards gives those cards in order |
| PokerTools.SetOfSize | src/pypokertools/pokertools.py:215 | len(set(cards)) is at most len(cards), equal exactly when no card repeats |
| PokerTools.FiveCards | src/pypokertools/pokertools.py:204-218 | the guard passes the chained arguments exactly when they are five different cards, raises ValueError for a count other than five and ConflictingCards for five with a repeat |
| PokerTools.NoConflicts | src/pypokertools/pokertools.py:230-237 | true exactly when no card repeats among holecards and board |
| PokerTools.RemoveConflicts | src/pypokertools/pokertools.py:221-227 | the generator's loop yields the filter of the pairs with five different cards, in order |
| PokerTools.KeepFiveDifferentFacts | src/pypokertools/pokertools.py:221-227 | the filter distributes over concatenation, keeps exactly the pairs with five different cards, and for five cards that is no_conflicts |
| PokerTools.KeepMembership | src/pypokertools/pokertools.py:221-227 | a pair is kept exactly when it is in the input with five different cards |
| PokerTools.TopCards | src/pypokertools/pokertools.py:249 | n pops take n cards |
| PokerTools.DealConserves | src/pypokertools/pokertools.py:246-249 | the dealt cards and the cards left are together the deck's cards |
| PokerTools.DeckOfCards.Pop | src/pypokertools/pokertools.py:248 | pop() removes and returns the last card, IndexError and no change on an empty list |
| PokerTools.DeckOfCards.Deal | src/pypokertools/pokertools.py:246-249 | deal(deck, n): one pop for n = 1, otherwise n pops last card first into a tuple, none for n <= 0; asking for more than the deck holds empties it and raises IndexError |
| PokerTools.DealExample | tests/test_pokertools.py:34-43 | dealing two and then three cards from 52 leaves 50 and then 47 |
| PokerTools.SortedCountOfValuesFacts | src/pypokertools/pokertools.py:255-270 | sorted_count_of_values is non-increasing, one count per distinct rank, each between 1 and the number of cards, adding up to that number |
| PokerTools.SortedNumericalRanks | src/pypokertools/pokertools.py:273-275 | the ranks of the cards in ascending order, as many as cards |
| PokerTools.NumSuitsFacts | src/pypokertools/pokertools.py:278-280 | num_suits is at most 4, 0 exactly for no cards, and 1 exactly when all cards share a suit |
| PokerTools.RankSubsequences | src/pypokertools/pokertools.py:283-298 | the generator yields the three windows of the sorted ranks and, with an ace on top, the three windows of [1, a, b, c, d]; unpacking raises ValueError unless there are five cards |
| PokerTools.WindowsOfFive | src/pypokertools/pokertools.py:290-291 | the windows of five ranks are the three runs of three neighbours |
| PokerTools.RankWindowsShape | src/pypokertools/pokertools.py:283-298 | of five cards there are six windows exactly when the hand holds an ace, three otherwise, each of three non-decreasing ranks |
| PokerTools.TopRank | src/pypokertools/pokertools.py:273-275 | the last sorted rank is 14 exactly when the hand holds an ace, and every rank is in 2..14 |
| PokerTools.CardComparisonExamples | tests/test_pokertools.py:27-28 | Ks > Qh and 2d <= 3d |
| Hand.IsStraight | properties/hand.py:24-33 | straight raises ValueError exactly for an empty hand (max() of nothing) |
| Hand.StraightCharacterised | properties/hand.py:24-33 | a hand is a straight exactly when it has five cards whose sorted ranks are 2 3 4 5 A or five consecutive ranks |
| Hand.SpanOfFour | properties/hand.py:30-33 | five different ascending ranks spanning four are consecutive |
| Hand.FiveOnesCounts | properties/hand.py:25-29 | the counts are five ones exactly when there are five different values |
| Hand.StraightDistinct | properties/hand.py:24-33 | a straight has five different ranks |
| Hand.StraightFlushCharacterised | properties/hand.py:8-33 | a straight flush is five cards of one suit whose sorted ranks are the wheel or five consecutive ranks |
| Hand.NoPairCharacterised | properties/hand.py:48-54 | nopair holds exactly for five cards of five different ranks that are not a straight and not of one suit |
| Hand.PartitionsOfFive | properties/hand.py:12-45 | sorted counts of five cards are one of the seven partitions of 5 |
| Hand.HandCategories | properties/hand.py:12-45 | five different cards are exactly one of four of a kind, full house, trips, two pair, one pair, or five different ranks |
| Hand.FlushDistinct | properties/hand.py:20-21 | a flush of different cards has five different ranks |
| Hand.IsTwoPairOrBetter | properties/hand.py:61-69 | twopair_or_better raises an error exactly for an empty hand, and that error is the ValueError of is_straight |
| Hand.TwoPairOrBetterExcludes | properties/hand.py:57-69 | for different cards, one pair and no pair are not two pair or better, and two pair or better is pair or better |
| Flop.FlopSuits | src/pypokertools/properties/flop.py:11-20 | a flop is monotone when its three suits are equal, rainbow when they are all different, two-flush otherwise |
| Flop.ThreeOfAKindCharacterised | src/pypokertools/properties/flop.py:27-28 | three of a kind exactly for three cards of one rank |
| Flop.PairCharacterised | src/pypokertools/properties/flop.py:23-24 | has_pair exactly for three cards with a repeated rank that are not all one rank |
| Flop.ThreeOnesCounts | src/pypokertools/properties/flop.py:37-40 | the counts are three ones exactly when there are three different values |
| Flop.PartitionsOfThree | src/pypokertools/properties/flop.py:23-28 | sorted counts of three cards are [3], [2, 1] or [1, 1, 1] |
| Flop.FlopRanks | src/pypokertools/properties/flop.py:23-28 | a flop is exactly one of trips, paired, or three different ranks |
| Flop.Has3Straight | src/pypokertools/properties/flop.py:31-40 | has_3straight raises ValueError exactly for an empty flop |
| Flop.ThreeStraightCharacterised | src/pypokertools/properties/flop.py:31-40 | has_3straight holds exactly for three cards whose sorted ranks are 2 3 A or three consecutive ranks |
| Flop.SpanOfTwo | src/pypokertools/properties/flop.py:37-40 | three increasing values spanning two are consecutive |
| Flop.HasGutshot | src/pypokertools/properties/flop.py:43-52 | has_gutshot raises ValueError exactly for an empty flop |
| Flop.GutshotCharacterised | src/pypokertools/properties/flop.py:43-52 | has_gutshot holds exactly for three cards whose sorted ranks are 2 4 A, 3 4 A, or three different ranks spanning three |
| Flop.SpanOfThree | src/pypokertools/properties/flop.py:49-52 | three increasing values spanning three miss exactly one of the middle two |
| Flop.StraightDrawsExclusive | src/pypokertools/properties/flop.py:31-52 | no flop is both a three-straight and a gutshot |
| Flop.StraightDrawsUnpaired | src/pypokertools/properties/flop.py:31-52 | a flop with either straight draw has three different ranks, so it is neither paired nor trips |
| Holecards.GapSize | src/pypokertools/properties/holecards.py:31-40 | _gap_size succeeds exactly for two cards, otherwise ValueError, and lies in 0..11 |
| Holecards.GapSizeIsDistance | src/pypokertools/properties/holecards.py:31-40 | the gap is the smaller distance between the two ranks, counting an ace high or low |
| Holecards.TwoSortedRanks | src/pypokertools/properties/holecards.py:32 | the sorted ranks of two cards are the smaller then the larger |
| Holecards.GapSizeOrderFree | src/pypokertools/properties/holecards.py:31-40 | the gap does not depend on the order of the two cards |
| Holecards.PairCharacterised | src/pypokertools/properties/holecards.py:11-12 | is_pair holds exactly for two cards of one rank, which is a gap of 0 |
| Holecards.SuitedCharacterised | src/pypokertools/properties/holecards.py:15-16 | two cards are suited exactly when their suits are equal |
| Holecards.GapCharacterised | src/pypokertools/properties/holecards.py:31-40 | for g in 1..6 the gap is g exactly when the ranks differ by g, or one is an ace and the other is g + 1 |
| Holecards.GapPredicatesCharacterised | src/pypokertools/properties/holecards.py:19-28 | connected, one gap and two gap hold exactly for gaps 1, 2 and 3, and raise ValueError exactly for other than two cards |
| Complex.FiveCardsOf | src/pypokertools/pokertools.py:204-218 | the decorator passes (holecards, flop) exactly when they are five different cards, with ValueError for a count other than five and ConflictingCards for a repeat |
| Complex.IsOnePair | src/pypokertools/properties/complex.py:24-38 | is_onepair fails exactly when five_cards does, with its error |
| Complex.OnePairExcludingBoard | src/pypokertools/properties/complex.py:33-38 | with exclude_board a hand counts exactly when it is one pair without it and the flop has three different ranks |
| Complex.OnePairHasNoTrips | src/pypokertools/properties/complex.py:35-36 | a one-pair hand never has three of a kind on the flop, so flop has_pair is all that exclude_board has to test |
| Complex.AceLowExtended | src/pypokertools/properties/complex.py:55-58 | extending a window for the low ace keeps all its ranks |
| Complex.ThreeStraight | src/pypokertools/properties/complex.py:41-67 | is_3straight keeps the five_cards errors, raises AssertionError exactly for a requirement outside 0..2 and ValueError exactly for holecards that are not two cards |
| Complex.Is3Straight | src/pypokertools/properties/complex.py:41-67 | the guards and the loop over rank_subsequences return what ThreeStraight specifies: whether some consecutive window meets the holecard requirement |
| Complex.ScanWindows | src/pypokertools/properties/complex.py:52-67 | the loop returns True exactly when some window is consecutive and, with 14 appended for a low ace, holds both, one or none of the holecard ranks as required |
| Complex.MeetsMonotone | src/pypokertools/properties/complex.py:59-66 | a window meeting the requirement of two holecards meets that of one, and that of one meets that of none |
| Complex.ThreeStraightMonotone | src/pypokertools/properties/complex.py:59-66 | three to a straight with both holecards implies it with one, and with one implies it with none |
| Complex.ThreeStraightIntended | src/pypokertools/properties/complex.py:42-47 | the docstring's test (some three of the five cards consecutive in rank) has the same guards and errors as is_3straight |
| Complex.WindowsAgreeOnDistinct | src/pypokertools/properties/complex.py:52-67 | on five different ranks, some window hits exactly when some three of the ranks are consecutive and meet the requirement |
| Complex.ThreeStraightAgreesWithoutPairs | src/pypokertools/properties/complex.py:41-67 | on five different ranks is_3straight is exactly the docstring's test |
| Complex.ThreeStraightValue | src/pypokertools/properties/complex.py:48-67 | past the guards, is_3straight is whether a window of rank_subsequences hits, and the docstring's test is whether three present ranks are consecutive |
| Complex.PairedStraightMissed | src/pypokertools/properties/complex.py:41-67 | 2c 3d on 3h 4s 9c: the windows 2 3 3, 3 3 4, 3 4 9 hold no run, so is_3straight with no holecard required is False although 2 3 4 is among the cards |
| Complex.ThreeFlush | src/pypokertools/properties/complex.py:70-91 | is_3flush keeps the five_cards errors, raises AssertionError exactly for a requirement outside 0..2 and ValueError exactly for holecards that are not two cards |
| Complex.Is3Flush | src/pypokertools/properties/complex.py:70-91 | the guards and the loop over the suit counts return what ThreeFlush specifies |
| Complex.ThreeFlushFound | src/pypokertools/properties/complex.py:82-91 | a suit with exactly three cards that meets the requirement makes is_3flush True |
| Complex.ThreeFlushNotFound | src/pypokertools/properties/complex.py:82-91 | when no suit of the hand has exactly three cards meeting the requirement, is_3flush is False |
| Complex.ThreeFlushMonotone | src/pypokertools/properties/complex.py:84-90 | three to a flush with both holecards implies it with one, and with one implies it with none |
| Complex.ThreeFlushSuitUnique | src/pypokertools/properties/complex.py:80-83 | among five cards at most one suit has three cards, and none does when a suit has four or more |
| Complex.FourFlushIsNotThreeFlush | src/pypokertools/properties/complex.py:80-91 | four or five cards of one suit are never three to a flush, since the count must be exactly three |
| Complex.HasTwoOvercards | src/pypokertools/properties/complex.py:94-104 | has_two_overcards fails exactly when five_cards does |
| Complex.OvercardsCharacterised | src/pypokertools/properties/complex.py:94-104 | on five different cards it holds exactly when every holecard ranks above every flop card |
| ComplexLegacy.IsOnePair | properties/complex.py:25-44 | the older is_onepair keeps the five_cards errors, raises AssertionError exactly for a requirement outside 0..2 and ValueError exactly when one holecard is required and there are not two |
| ComplexLegacy.IsOnePairIntended | properties/complex.py:25-44 | the parenthesised form of the test has the same guards and errors |
| ComplexLegacy.OnePairBothRequired | properties/complex.py:34-35 | with two holecards required it holds exactly for a pocket pair |
| ComplexLegacy.AsWrittenOneRequired | properties/complex.py:36-42 | with one required, as written it is (one pair and the low holecard rank twice) or the high holecard rank twice |
| ComplexLegacy.IntendedOneRequired | properties/complex.py:36-42 | parenthesised, it is one pair with a holecard rank appearing twice |
| ComplexLegacy.IntendedIsExcludeBoard | properties/complex.py:25-44 | parenthesised, one required is exactly the package's is_onepair with exclude_board on two holecards |
| ComplexLegacy.PairUsesHolecard | properties/complex.py:36-42 | in a one-pair hand a holecard rank is the pair exactly when the three board ranks differ |
| ComplexLegacy.TwoDoublesNotOnePair | properties/complex.py:39-42 | two different values appearing twice each are not the counts of one pair |
| ComplexLegacy.OnePairSingleDouble | properties/complex.py:39-42 | in one-pair counts only one value appears twice |
| ComplexLegacy.PrecedenceAcceptsTwoPair | properties/complex.py:39-42 | Kc Kd on 2c 2d 5h: as written one required is True, parenthesised it is False, and the hand is two pair, not one pair |
| ComplexLegacy.PairedButNotOnePair | properties/complex.py:113-116 | five different cards with a rank twice that are not one pair are two pair or better |
| ComplexLegacy.HasTwoOvercards | properties/complex.py:100-116 | the older has_two_overcards keeps the five_cards errors, and raises ValueError exactly when the overcards test passes on other than two holecards |
| ComplexLegacy.OvercardsLegacyCharacterised | properties/complex.py:100-116 | it holds exactly for two overcards of different ranks with the hand not two pair or better |
| ComplexLegacy.OvercardsValue | properties/complex.py:107-116 | its value is overcards, not one pair with a holecard (as written), and not two pair or better |
| ComplexLegacy.OvercardsUnaffectedByPrecedence | properties/complex.py:110-116 | the same value results with the parenthesised one-pair test, so the slip does not change has_two_overcards |
| ComplexLegacy.OvercardsAsWritten | properties/complex.py:110-114 | with two overcards, both forms of the one-pair test reduce to the holecards being a pair, each overcard rank appearing once or, for a pair, twice |
| Bluffing.FiveCardsOf | bluffing.py:115-129 | this module's five_cards passes exactly five different cards and raises ValueError both for a wrong count and for a repeated card |
| Bluffing.HandRanks | bluffing.py:173-179 | hand_ranks has six entries exactly when the top sorted rank is an ace, five otherwise |
| Bluffing.ThreeStraight | bluffing.py:132-195 | is_3straight raises ValueError for any five_cards failure, AssertionError exactly for a requirement outside 0..2 and ValueError exactly for holecards that are not two cards |
| Bluffing.Is3Straight | bluffing.py:132-195 | the guards, the insertion of 1 for an ace and the indexed scan return what ThreeStraight specifies |
| Bluffing.ScanTriples | bluffing.py:182-195 | the loop returns True exactly when some triple of hand_ranks is consecutive and holds the holecard ranks as required |
| Bluffing.ThreeStraightMonotone | bluffing.py:186-194 | three to a straight with both holecards implies it with one, and with one implies it with none |
| Bluffing.TriplesAreWindows | bluffing.py:173-183 | the triples of hand_ranks are, as a set, the windows the package's rank_subsequences yields for the same ranks |
| Bluffing.ThreeStraightAgainstPackage | bluffing.py:169-195 | past the shared guards, a straight found here is found by the package's is_3straight, and without an ace holecard the two agree |
| Bluffing.AceHolecardNotLow | bluffing.py:171-191 | Ah 2c on 3d 9s Kh: here False with both holecards required, because 1 2 3 does not hold 14, while the package's version (which appends 14 to a low window) says True |
| Bluffing.ThreeFlush | bluffing.py:198-249 | is_3flush raises ValueError for any five_cards failure and otherwise returns what the package's is_3flush returns |
| Bluffing.Is3Flush | bluffing.py:198-249 | the guards and the loop over the suit counts return what ThreeFlush specifies |
| Bluffing.ThreeFlushBothHolecards | bluffing.py:240-243 | three to a flush with both holecards exactly when the two holecards share a suit and exactly one flop card has it |
| Bluffing.IsBluffCandidate | bluffing.py:255-291 | is_bluffcandidate fails, with ValueError, exactly when five_cards does or when the hand is no pair and the holecards are not two cards |
| Bluffing.BluffCandidateShape | bluffing.py:255-291 | a candidate has suited holecards with exactly one more card of their suit on the flop, holecard ranks one or two apart, and no pair |
| Bluffing.BluffCandidateParts | bluffing.py:286-291 | a candidate passes each of its three tests |
| Bluffing.CandidateOfParts | bluffing.py:286-291 | the three tests passing make a candidate |
| Bluffing.NoPairOfRanks | bluffing.py:96-102 | five different ranks that are not the wheel, do not span four and are not one suit are no pair |
| Bluffing.BluffCandidateExample | bluffing.py:274-279 | 2d 3d on 7d As Kh is a bluff candidate |
| BluffExamples.IsBluffCandidate | examples/bluffing.py:16-39 | the candidate test keeps the five_cards errors, and past them fails only, with ValueError, for holecards that are not two cards |
| BluffExamples.CandidateProperties | examples/bluffing.py:16-39 | a candidate has three to a flush and to a straight with both holecards, is not two pair or better, and any one pair it has lies on the board |
| BluffExamples.CandidateOfParts | examples/bluffing.py:33-39 | no holecard one pair, not two pair or better, three to a flush and to a straight with both holecards make a candidate |
| BluffExamples.NoPairIsNotOnePair | examples/bluffing.py:33-35 | a no-pair hand is never one pair with a holecard |
| BluffExamples.OlderCandidatesKept | examples/bluffing.py:1-8 | every candidate of bluffing.py is a candidate here |
| BluffExamples.BoardPairCandidate | examples/bluffing.py:27-29 | Qd Jd on Kc 2d 2h is a candidate here (the pair is on the board) but not in bluffing.py |
| BluffExamples.IsBluffCandidateAsWritten | examples/bluffing.py:33-35 | as written, the call keeps the five_cards errors and otherwise always raises TypeError, because is_onepair takes no include_board keyword |
| BluffExamples.KeywordMismatchRaises | examples/bluffing.py:33-35 | for two holecards and three more cards, all different, the docstring's test gives a verdict where the call as written raises TypeError |
| BluffExamples.KeywordMismatchExample | examples/bluffing.py:27 | Qd Jd on Kc 2d 2h is a candidate by the docstring, and the call as written raises TypeError |
| BluffExamples.OnePairByCounts | examples/bluffing.py:33-35 | five different cards with one rank twice and two others once are one pair |
| BluffExamples.CanonicalHolecardsOfNames | src/pypokertools/pokertools.py:169 | the holecards iterated are those HOLECARDS gives for the canonical names: each canonical name looks one of them up, and each of them is what its own name looks up |
| BluffExamples.Candidates | examples/bluffing.py:42-48 | the generator yields at most one entry per holecards of the pool |
| BluffExamples.Extend | examples/bluffing.py:44-48 | one step adds at most one holecards and continues only from a result without error |
| BluffExamples.CandidatesPrefix | examples/bluffing.py:43-48 | the result after i + 1 holecards is one step from the result after i |
| BluffExamples.CandidatesErrorPersists | examples/bluffing.py:44-48 | an error other than a conflict ends the generator: later holecards change nothing |
| BluffExamples.GetBluffCandidates | examples/bluffing.py:42-48 | the loop over the pool yields what Candidates specifies |
| BluffExamples.Keep | examples/bluffing.py:45-48 | a candidate is yielded (appended), a non-candidate or a conflict is passed over |
| BluffExamples.CandidatesMembership | examples/bluffing.py:42-48 | when it ends without error, the holecards yielded are exactly the candidates of the pool |
| BluffExamples.CandidatesDefined | examples/bluffing.py:44-48 | on a three-card flop with two-card holecards only conflicts arise, and they are skipped, so no error escapes |
| BluffExamples.CanonicalCandidates | examples/bluffing.py:42-48 | over the canonical holecards in any order, the result is exactly the canonical holecards that are candidates on the flop, none conflicting with it |
| Translation.Slice | src/pypokertools/examples/translation.py:79 | a Python slice s[i:j] is the characters of s from i up to j, cut at the end of s |
| Translation.SuitedTexts | src/pypokertools/examples/translation.py:93-97 | a suited name expands to four texts, one per suit |
| Translation.OffsuitTexts | src/pypokertools/examples/translation.py:98-102 | an offsuit name expands to twelve texts, one per suit permutation |
| Translation.PairedTexts | src/pypokertools/examples/translation.py:106-111 | a pair name expands to six texts, one per suit combination |
| Translation.ProcessOneName | src/pypokertools/examples/translation.py:82-113 | process_one_name succeeds exactly for three letters ending in s or o and for two equal letters, giving 4, 12 or 6 names; TokeniserError for other two- and three-letter names, ValueError (unpacking) for other lengths |
| Translation.SuitedNames | src/pypokertools/examples/translation.py:93-97 | "ABs" gives four different names: exactly the holecards of ranks A and B in one suit |
| Translation.OffsuitNames | src/pypokertools/examples/translation.py:98-102 | "ABo" gives twelve different names: exactly the holecards of ranks A and B in two different suits |
| Translation.PairedNames | src/pypokertools/examples/translation.py:106-111 | "AA" gives six different names: exactly the pairs of rank A with the earlier suit first |
| Translation.ExpandRange | src/pypokertools/examples/translation.py:129-138 | expanding const_rank with high down to low succeeds exactly for an empty range or a mark s or o, with PerStep names per rank; TokeniserError otherwise |
| Translation.ExpandPairs | src/pypokertools/examples/translation.py:140-149 | expanding pairs from high down to low gives six names per rank |
| Translation.RangeOrder | src/pypokertools/examples/translation.py:133-138 | the i-th name of a range comes from the rank high - i / PerStep, at position i % PerStep of its name's expansion, so ranks run from high down |
| Translation.RangeMembers | src/pypokertools/examples/translation.py:129-138 | a name is in a range exactly when it is in the expansion of some rank from low to high |
| Translation.PairRangeMembers | src/pypokertools/examples/translation.py:140-149 | a name is in a range of pairs exactly when it is a pair of some rank from low to high |
| Translation.RangeHolecards | src/pypokertools/examples/translation.py:129-138 | a range with rank letters holds exactly the suited (or offsuit) holecards of the constant rank with a rank from low to high |
| Translation.PlusAsRange | src/pypokertools/examples/translation.py:163-171 | "XYs+" becomes "X(X-1)s-XYs" exactly when X is a rank letter above 2; IndexError for a short text and KeyError when X - 1 is no rank |
| Translation.ProcessOneToken | src/pypokertools/examples/translation.py:116-177 | separator and catch-all tokens raise TokeniserError, a single combo gives one name, and every error is IndexError, KeyError, TokeniserError or ValueError |
| Translation.RangeToken | src/pypokertools/examples/translation.py:129-138 | a RANGE token "Chs-Cls" gives (high - low + 1) times 4 or 12 names, exactly the holecards of the range |
| Translation.RangeTokenExpands | src/pypokertools/examples/translation.py:129-138 | a RANGE token with rank letters expands as the range from its high to its low rank |
| Translation.PairRangeToken | src/pypokertools/examples/translation.py:140-149 | a RANGE_PAIR token "HH-LL" gives six names per rank, exactly the pairs from low to high |
| Translation.PairPlusToken | src/pypokertools/examples/translation.py:151-154 | "LL+" gives (15 - L) times six names, exactly the pairs from L up to aces |
| Translation.PairNameToken | src/pypokertools/examples/translation.py:155-156 | "AA" as a PAIR token gives the six pairs of rank A |
| Translation.SingleComboToken | src/pypokertools/examples/translation.py:158-160 | a single combo of two card names gives exactly the holecard name of those two cards |
| Translation.ComboNameToken | src/pypokertools/examples/translation.py:173-174 | "ABs" or "ABo" as a MULTI_COMBO token gives the 4 suited or 12 offsuit holecards of ranks A and B |
| Translation.MultiPlusToken | src/pypokertools/examples/translation.py:162-172 | "CLs+" gives the range from C - 1 down to L, empty when L is not below C; for C = 2 it raises KeyError |
| Translation.MultiPlusDeuce | src/pypokertools/examples/translation.py:166-167 | a plus token with constant rank 2 raises KeyError, because rank 1 has no letter |
| Translation.CanoniseCards | src/pypokertools/examples/translation.py:71-79 | canonise of two different cards is a canonical name: the name itself when its first card comes first in CARD_NAMES, the swapped name otherwise; both orders canonise alike |
| Translation.CanoniseAllNames | src/pypokertools/examples/translation.py:195 | canonising the names of pairs of different cards gives, position by position, a canonical name of the same two cards in one order or the other |
| Translation.Translate | src/pypokertools/examples/translation.py:180-195 | translate raises TokeniserError when any token is catch-all text, and otherwise, when every token expands, yields one name per expanded name |
| Translation.ExpansionsSucceed | src/pypokertools/examples/translation.py:193-195 | the expansion of the tokens succeeds exactly when every token other than a separator expands |
| Translation.ExpansionsMembers | src/pypokertools/examples/translation.py:193-195 | the expanded names are exactly the names some non-separator token expands to |
| Translation.TranslateFacts | src/pypokertools/examples/translation.py:180-195 | translate succeeds exactly when no token is catch-all and every token expands, and then yields exactly the canonised expanded names |
| Translation.TranslateCanonical | src/pypokertools/examples/translation.py:180-195 | when every expanded name names two different cards, every name translate yields is a canonical holecards name |
| Translation.InterleavedExpansions | src/pypokertools/examples/translation.py:193-195 | tokens separated by commas expand to as many names as their counts add up to |
| Translation.InterleavedTranslate | src/pypokertools/examples/translation.py:180-195 | translate of comma-separated expanding tokens yields as many names as their counts add up to |
| Translation.TranslateDoctest | src/pypokertools/examples/translation.py:185-187 | "JJ+, 66-22, A5s-A2s, Q9s+, J9s+, 8d7d, ATo+, KTo+" translates to 175 names |
| TranslationLegacy.CanonicalHolecardsMembership | translation.py:45-47 | a holecard name is canonical here exactly when its first card comes first in the suit-major CARD_NAMES, that is has the earlier suit, or the lower rank on equal suits |
| TranslationLegacy.CanoniseCards | translation.py:74-81 | canonise of two different cards is a canonical name: the name itself when its first card comes first in the suit-major order, the swapped name otherwise; both orders canonise alike |
| TranslationLegacy.CanoniseAceKingSuited | translation.py:74-81 | "Ac Kc" canonises to "Kc Ac" here but stays "Ac Kc" in the package version, because the two lists of card names are in different orders |
| TranslationLegacy.CanoniseAllNames | translation.py:189 | canonising the names of pairs of different cards gives, position by position, a name canonical in the suit-major order, of the same two cards |
| TranslationLegacy.ProcessOneName | translation.py:84-106 | the older process_one_name succeeds for every three-letter name and for two equal letters, returns None exactly for three letters whose mark is neither s nor o, and raises ValueError otherwise |
| TranslationLegacy.NamesAgree | translation.py:84-106 | wherever the package's process_one_name succeeds, this one returns the same list, and where the package's fails this one fails or returns None |
| TranslationLegacy.Flatten | translation.py:130-132 | chain.from_iterable succeeds exactly when no part is None, and raises TypeError otherwise |
| TranslationLegacy.FlattenSnoc | translation.py:130-132 | flattening one more part appends its names |
| TranslationLegacy.NamesOf | translation.py:130 | one result per name |
| TranslationLegacy.RangeNames | translation.py:128-129 | the names of a range, one per rank from high down to low |
| TranslationLegacy.PairRangeNames | translation.py:138 | the names of a range of pairs, one per rank from high down to low |
| TranslationLegacy.PlusAsRange | translation.py:155-164 | rewriting a plus token fails only with IndexError or KeyError |
| TranslationLegacy.PlusAsRangeAgrees | translation.py:155-164 | the rewrite of a plus token is the package's |
| TranslationLegacy.ProcessOneToken | translation.py:109-169 | separator and catch-all tokens raise ValueError |
| TranslationLegacy.RangeAgrees | translation.py:117-132 | a range expands here exactly when it does in the package, to the same names |
| TranslationLegacy.PairRangeAgrees | translation.py:134-140 | a range of pairs expands to the same names as in the package |
| TranslationLegacy.TokensAgree | translation.py:109-169 | a token expands in the package exactly when it expands here to a list, and then to the same names |
| TranslationLegacy.WholeString | translation.py:172-189 | process_whole_string raises ValueError when any token is catch-all text |
| TranslationLegacy.ProcessWholeString | translation.py:172-189 | the loop appending each token's expansion, then flattening and canonising, returns what WholeString specifies |
| TranslationLegacy.RawAgrees | translation.py:185-188 | the flattened expansions succeed exactly when the package's expansions do, and are the same names |
| TranslationLegacy.WholeStringAgrees | translation.py:172-189 | process_whole_string succeeds exactly when the package's translate does, both canonising the same expanded names, each with its own list of canonical names |
| TranslationLegacy.SameHolecards | translation.py:172-189 | each name of both results is the same two cards in one of the two orders, and canonical for its own module |
| TranslationLegacy.WholeStringDoctest | translation.py:175-178 | "JJ+, 66-22, A5s-A2s, Q9s+, J9s+, 8d7d, ATo+, KTo+" gives 175 names |
| PokerToolsLegacy.CardNames | pokertools.py:26-30 | the older CARD_NAMES has 52 names |
| PokerToolsLegacy.DeckIndex | pokertools.py:26-30 | every card has a position below 52 in the older CARD_NAMES that holds its name |
| PokerToolsLegacy.DeckCardIndex | pokertools.py:26-30 | the positions and the cards correspond one to one |
| PokerToolsLegacy.CardNamesEnumerate | pokertools.py:26-30 | the names are all different, ordered by suit and then by rank, from "2c" through "Ac" to "As" |
| PokerToolsLegacy.HolecardsNames | pokertools.py:32-37 | the older HOLECARDS_NAMES has 2652 names |
| PokerToolsLegacy.HolecardsNamesMembership | pokertools.py:32-37 | the name of an ordered pair of cards is listed exactly when the cards differ |
| PokerToolsLegacy.HolecardsNamesDistinct | pokertools.py:32-37 | no name is listed twice |
| PokerToolsLegacy.GetNumericalRank | pokertools.py:101-102 | a failed lookup raises KeyError |
| PokerToolsLegacy.GetStringRank | pokertools.py:105-106 | a failed lookup raises KeyError |
| PokerToolsLegacy.RankDictsInverse | pokertools.py:40-41 | NUM_TO_STR is defined exactly on 2..14, the two dicts are inverse to each other, and they agree with the package's rank maps |
| PokerToolsLegacy.NumericalRankAgrees | pokertools.py:101-102 | get_numerical_rank succeeds exactly where the package's lookup does, with the same value |
| PokerToolsLegacy.StringRankAgrees | pokertools.py:105-106 | get_string_rank succeeds exactly on 2..14, with the package's value |
| PokerToolsLegacy.MakeCard | pokertools.py:113-116 | a record built from a name carries that name, its letters as rank and suit, and the numerical rank of its rank letter |
| PokerToolsLegacy.CardsDictEntries | pokertools.py:109-117 | CARDS holds a key exactly for each card name, and the record of that card under its name |
| PokerToolsLegacy.RecordOrder | pokertools.py:73-91 | comparing records by numerical rank and then suit letter is comparing the cards |
| PokerToolsLegacy.RecordsOf | pokertools.py:152 | the lookups succeed exactly when every name is a key, giving the record of each name in order; KeyError otherwise |
| PokerToolsLegacy.CardsFromStr | pokertools.py:144-152 | one record per word, or KeyError |
| PokerToolsLegacy.CardsFromStrAgrees | pokertools.py:144-152 | the older cards_from_str succeeds exactly where the package's does, giving the records of the same cards |
| PokerToolsLegacy.CardsFromStrRoundTrip | pokertools.py:144-152 | reading back the space-joined names of cards gives the records of those cards in order |
| Isomorph.PatternOf | src/pypokertools/examples/isomorph.py:61-110 | the branches of get_canonical classify three suits: AAA all equal, AAB first two equal, ABA first and last equal, ABB last two equal, ABC all different, exactly one of them |
| Isomorph.GetCanonical | src/pypokertools/examples/isomorph.py:40-110 | the canonical form of a flop is three cards |
| Isomorph.RenameSorted | src/pypokertools/examples/isomorph.py:59-110 | the suit renaming applied to a sorted flop gives three cards |
| Isomorph.CanonicalForm | src/pypokertools/examples/isomorph.py:40-110 | the canonical form has the ranks of the sorted flop, first suit c and no s; for three different cards it is sorted and of three different cards |
| Isomorph.RenamedForm | src/pypokertools/examples/isomorph.py:59-110 | renaming a sorted flop keeps its ranks, starts with c, never uses s, and keeps it sorted and of different cards |
| Isomorph.RelabelKeepsShape | src/pypokertools/examples/isomorph.py:126-203 | a renaming of suits keeps the ranks by position and which suits coincide, and keeps cards different |
| Isomorph.CanonicalOrderFree | src/pypokertools/examples/isomorph.py:58 | two orders of the same three cards have the same canonical form |
| Isomorph.SortedShapeInvariant | src/pypokertools/examples/isomorph.py:58-110 | two sorted flops of different cards with the same ranks and the same suit coincidences have the same canonical form |
| Isomorph.ShapeInvariant | src/pypokertools/examples/isomorph.py:58-110 | flops with the same ranks by position and the same suit coincidences have the same canonical form |
| Isomorph.RelabelInvariant | src/pypokertools/examples/isomorph.py:40-110 | renaming the suits of a flop of different cards leaves its canonical form unchanged |
| Isomorph.SuitTriplesEnumerate | src/pypokertools/examples/isomorph.py:201-202 | the ABC comprehension runs over 24 triples, exactly the triples of different suits |
| Isomorph.SuitTriplesOrdered | src/pypokertools/examples/isomorph.py:201-202 | the triples come in lexicographic SUITS order |
| Isomorph.Resuit | src/pypokertools/examples/isomorph.py:147-203 | giving a flop new suits keeps three cards |
| Isomorph.GetSuitIsomorphs | src/pypokertools/examples/isomorph.py:126-203 | 4 isomorphs for one suit, 24 for three suits, 12 otherwise, each three cards |
| Isomorph.SuitIsomorphsExact | src/pypokertools/examples/isomorph.py:126-203 | a flop is listed exactly when it has the given flop's ranks by position and its suit coincidences; the flop itself is listed |
| Isomorph.SuitIsomorphsDistinct | src/pypokertools/examples/isomorph.py:126-203 | no isomorph is listed twice |
| Isomorph.SuitIsomorphsShareCanonical | src/pypokertools/examples/isomorph.py:126-203 | every isomorph of a flop of different cards is of different cards and has the flop's canonical form |
| Isomorph.UnusedFacts | src/pypokertools/examples/isomorph.py:233-240 | the unused suits are exactly those not on the flop, in SUITS order (as sorted() gives them), one per absent suit |
| Isomorph.CanonicalSuits | src/pypokertools/examples/isomorph.py:58-110 | the canonical form of a sorted flop keeps its ranks and has suits c c c, c c d, c d c or c c d for a paired top, c d d or c d c for a paired bottom, or c d h, by pattern |
| Isomorph.CanonicalSuitsABA | src/pypokertools/examples/isomorph.py:75-83 | for ABA the canonical form is re-sorted: c, c, d when the top two ranks pair, c, d, c otherwise |
| Isomorph.PairsUpPermutation | src/pypokertools/examples/isomorph.py:233-286 | a dict pairing one arrangement of the four suits with another is a permutation of the suits |
| Isomorph.SuitTranslationPairs | src/pypokertools/examples/isomorph.py:229-286 | every branch of get_translation_dict pairs the four flop suits (used then unused) with four canonical suits |
| Isomorph.SuitTranslationRenames | src/pypokertools/examples/isomorph.py:229-286 | when flop and canonical suits have the same pattern, the dict is a permutation sending each flop suit to the canonical suit at its position |
| Isomorph.TranslationDictTotal | src/pypokertools/examples/isomorph.py:229-231 | the dict covers every suit, and it is the identity when the sorted flop already has the canonical suits |
| Isomorph.TranslationDictRenames | src/pypokertools/examples/isomorph.py:210-286 | outside the two paired tie-breaks, the dict is a permutation of the suits and renames the sorted flop into its canonical form |
| Isomorph.TranslationDictPositions | src/pypokertools/examples/isomorph.py:223-286 | outside the tie-breaks, the dict sends each sorted flop card's suit to the suit of the canonical card at the same position, which has the same rank |
| Isomorph.CanonicalKeepsPattern | src/pypokertools/examples/isomorph.py:58-110 | outside the tie-breaks the canonical form has the sorted flop's ranks and suit pattern |
| Isomorph.PairedTopNotRenaming | src/pypokertools/examples/isomorph.py:270-277 | for ABA with paired top ranks the dict sends the two different flop suits both to c, so it is no permutation |
| Isomorph.PairedBottomMismatch | src/pypokertools/examples/isomorph.py:260-267 | for ABB with paired bottom ranks the dict renames the sorted flop into cards other than its canonical form |
| Isomorph.CorrectedTranslationDictRenames | src/pypokertools/examples/isomorph.py:210-286 | the corrected dict is a permutation for every flop of different cards and renames it into a flop whose sorted order is its canonical form |
| Isomorph.PairedTopRepaired | src/pypokertools/examples/isomorph.py:75-83 | for a paired-top ABA flop, mapping its suits to c, d, c by position is a permutation that gives the canonical cards |
| Isomorph.PairedBottomRepaired | src/pypokertools/examples/isomorph.py:93-98 | for a paired-bottom ABB flop, mapping its suits to d, c, c by position is a permutation that gives the canonical cards |
| Isomorph.Inverse | src/pypokertools/examples/isomorph.py:210-215 | every suit renaming has an inverse renaming |
| Isomorph.Compose | src/pypokertools/examples/isomorph.py:210-215 | composing two suit maps applies the first, then the second |
| Isomorph.RelabelCompose | src/pypokertools/examples/isomorph.py:210-215 | renamings compose: relabelling by the composition is relabelling twice |
| Isomorph.RelabelInverse | src/pypokertools/examples/isomorph.py:210-215 | relabelling by the inverse undoes a renaming |
| Isomorph.CanonicalDecidesClass | src/pypokertools/examples/isomorph.py:40-110 | two flops of different cards have the same canonical form exactly when a renaming of the suits turns one into the other, up to order |
| Isomorph.CanonicalIdempotent | src/pypokertools/examples/isomorph.py:40-110 | the canonical form of a canonical form is itself, is canonical, and is isomorphic to the flop |
| Isomorph.DeckFlop | src/pypokertools/examples/isomorph.py:118 | three increasing deck positions give three different cards |
| Isomorph.DeckPositions | src/pypokertools/examples/isomorph.py:118 | every flop of different cards is, as a multiset, the cards at three increasing deck positions |
| Isomorph.AllCanonicalsExact | src/pypokertools/examples/isomorph.py:113-119 | get_all_canonicals holds exactly the flops that are their own canonical form |
| Isomorph.CanonicalExample | src/pypokertools/examples/isomorph.py:54-56 | Ks 2c 3s has canonical form 2c 3d Kd |
| Isomorph.TranslationDictExample | src/pypokertools/examples/isomorph.py:217-221 | 6h 2d Qd has canonical form 2c 6d Qc and the dict c to h, d to c, h to d, s to s |
| Isomorph.SuitIsomorphsExample | src/pypokertools/examples/isomorph.py:131-141 | As 4s Ts has the four one-suit isomorphs in SUITS order, and Kd Qh 8c has 24 |
| Isomorph.PairedTopExample | src/pypokertools/examples/isomorph.py:270-277 | Jh Qd Qh has canonical form Jc Qc Qd, and the dict sends both h and d to c |
| Isomorph.PairedBottomExample | src/pypokertools/examples/isomorph.py:85-98 | 2c 2d 8d has canonical form 2c 2d 8c, but the dict is the identity and leaves the flop unchanged |
| IsomorphLegacy.GetCanonical | isomorph.py:41-101 | the older get_canonical gives three cards |
| IsomorphLegacy.CanonicalAgrees | isomorph.py:41-101 | the older get_canonical, including its ABB overwrite of the third card, gives the same canonical form as the package's for every flop |
| IsomorphLegacy.CanonicalSorted | isomorph.py:41-101 | for different cards the canonical form is sorted, of different cards, starts with c, never uses s, and has the flop's ranks |
| IsomorphLegacy.CanonicalDecidesClass | isomorph.py:41-101 | the canonical form is idempotent, and two flops of different cards share it exactly when a renaming of the suits turns one into the other |
| IsomorphLegacy.CanonicalExample | isomorph.py:54-56 | Ks 2c 3s has canonical form 2c 3d Kd |
| IsomorphLegacy.DeckFlop | isomorph.py:111 | three increasing positions of the older suit-major deck give three different cards |
| IsomorphLegacy.DeckPositions | isomorph.py:111 | every flop of different cards is, as a multiset, the cards at three increasing positions of the older deck |
| IsomorphLegacy.AllCanonicalsExact | isomorph.py:104-112 | the older get_all_canonicals holds exactly the flops that are their own canonical form, the same set as the package's although the deck is listed in another order |
| IsomorphLegacy.SuitPairLoopsEnumerate | isomorph.py:150-152 | the nested loops over two different suits give SUIT_PERMUTATIONS, in its order |
| IsomorphLegacy.SuitTripleLoopsEnumerate | isomorph.py:180-185 | the nested loops over three different suits give the 24 triples in lexicographic order |
| IsomorphLegacy.SuitIsomorphsAgree | isomorph.py:118-185 | the older get_suit_isomorphs gives the package's list for every flop |
| IsomorphLegacy.SuitIsomorphsExact | isomorph.py:118-185 | 4, 24 or 12 isomorphs by pattern, none twice, the flop among them, exactly the flops of its ranks and suit coincidences, all with its canonical form |
| IsomorphLegacy.SuitIsomorphsExample | isomorph.py:122-132 | As 4s Ts has the four one-suit isomorphs in SUITS order, and Kd Qh 8c has 24 |
| IsomorphLegacy.TranslationDictAgrees | isomorph.py:191-269 | the older dict is the package's; it covers every suit, and outside the paired tie-breaks it is a permutation renaming the sorted flop into its canonical form |
| IsomorphLegacy.TranslationDictOneSuit | isomorph.py:191-269 | for a one-suit flop the dict swaps its suit with c and fixes the other suits |
| IsomorphLegacy.TranslationDictThreeSuits | isomorph.py:191-269 | for three suits the dict sends them in sorted-card order to c, d, h and the fourth suit to s |
| IsomorphLegacy.TranslationDictExample | isomorph.py:197-201 | 6h 2d Qd has canonical form 2c 6d Qc and the dict c to h, d to c, h to d, s to s |
| IsomorphLegacy.ThreeSuitsExample | isomorph.py:275-279 | 6s 8d 7c has canonical form 6c 7d 8h and the dict c to d, d to h, h to s, s to c |
| IsomorphLegacy.PairedBottomSuitExample | isomorph.py:281-285 | Qs Qd 4d has canonical form 4c Qc Qd and the dict c to h, d to c, h to s, s to d |

## Left out

- The regular-expression tokeniser (`token_specification`, `master_pat`, `generate_tokens` in both translators): `translate` and `process_whole_string` take the list of tokens the scanner would produce, so the model does not decide which token type a piece of text gets.
- Translation.Translate: `translate` is a generator, so a caller sees the names before a failing token; the model returns the error in place of the whole result.
- `to_cards` in the packaged translator: it only maps `holecards` over the names `translate` yields. The package binds `holecards` to `cards_from_str` (`src/pypokertools/pokertools.py:193`), so each lookup is `PokerTools.CardsFromStr`, with `PokerTools.CardsFromStrRoundTrip`. It is not the `HOLECARDS` dict: a single-combo name such as "Ac Ac" reads as two aces here, where `HOLECARDS` has no such key.
- `make_deck` shuffles with `random.shuffle`; `DeckOfCards` holds any list of cards, so every shuffle is covered but the randomness is not modelled.
- `Card.__repr__`, `pretty_print` and `color_pretty_print`: text and terminal colours only.
- The `memoize` decorator (`lru_cache`): every call is modelled as a first, uncached call. Two behaviours of the cache are not modelled. `rank_subsequences` is a memoized generator, so a second call with an equal hand gets back the same, already partly or fully consumed, generator. `is_3straight` returns from inside its loop over that generator, so a later call with an equal hand sees only the windows an earlier call did not reach. An argument that cannot be hashed, such as a list of cards, makes any memoized function raise `TypeError`.
- Flops of other than three cards in both isomorph modules: every member requires three cards, which every caller in the repository passes. The package unpacks the flop (`src/pypokertools/examples/isomorph.py:58,143,224`) and raises `ValueError` for another length; the older module indexes `flop[0]` to `flop[2]` (`isomorph.py:60,135,205`), raising `IndexError` for fewer cards and ignoring any more.
- `five_cards` chains every positional argument (`src/pypokertools/pokertools.py:210`), so a `required_holecards` passed by position instead of by keyword raises `TypeError`; the model takes the requirement as a separate parameter.
- `get_bluffcandidates` in `examples/bluffing.py` as written: every holecards that do not conflict with the flop reach the `TypeError` of `IsBluffCandidateAsWritten`, which the generator does not catch; `Candidates` and the lemmas about it follow the docstring's test instead.
- `PIO_HOLECARDS_ORDER` and `PIO_HOLECARDS_INDICES`: tables for an external solver's file format that none of the modelled code uses.
- The `CARDS` and `HOLECARDS` dicts are replaced by direct card values and name functions; the older module's `HOLECARDS` is built as the package's is and is not modelled again.
- The count of 1755 in the `get_all_canonicals` doctests is not proved; `AllCanonicalsExact` characterises the set exactly instead. The 586-name button range in the older translator's doctest is not proved either.
- Exception message text: an error is its exception class only.
- The test modules and the doctest runners.
- PokerToolsLegacy.GetNumericalRank: its contract states only the error kind; the lookup itself is stated by `RankDictsInverse`.
- PokerToolsLegacy.GetStringRank: as for `GetNumericalRank`.
- Translation.ProcessOneToken: its contract names the error kinds and the token types that always fail; the expansion of each token type is stated by the token lemmas beside it (`RangeToken`, `PairRangeToken`, `PairPlusToken`, `MultiPlusToken`, `ComboNameToken`).
- TranslationLegacy.PlusAsRange: states only the error kinds; the rewrite is `PlusAsRangeAgrees` with the package's.
- TranslationLegacy.ProcessOneToken: states only that separator and catch-all tokens fail; the other token types agree with the package's by the lemmas beside it.

## Findings

| source | as written | input that shows it | evidently intended | confidence | as-written member | corrected member |
|---|---|---|---|---|---|---|
| src/pypokertools/examples/isomorph.py:270-277 | for the ABA pattern with the top two ranks paired, the dict sends both flop suits to c | Jh Qd Qh: h and d both map to c | a renaming of the suits that maps the flop onto its canonical form Jc Qc Qd | not executed | Isomorph.PairedTopNotRenaming | Isomorph.CorrectedTranslationDictRenames |
| src/pypokertools/examples/isomorph.py:260-267 | for the ABB pattern with the bottom two ranks paired, the dict renames the flop into other cards than its canonical form | 2c 2d 8d: the dict is the identity, the canonical form is 2c 2d 8c | a renaming that turns the flop into its canonical form | not executed | Isomorph.PairedBottomMismatch | Isomorph.CorrectedTranslationDictRenames |
| properties/complex.py:39-42 | `and` binds tighter than `or`, so one required holecard accepts any hand in which the second holecard rank appears twice | Kc Kd on 2c 2d 5h, which is two pair | one pair with a holecard rank appearing twice | not executed | ComplexLegacy.PrecedenceAcceptsTwoPair | ComplexLegacy.IntendedIsExcludeBoard |
| examples/bluffing.py:33-35 | `is_onepair` is called with the keyword `include_board`, which neither version of it takes, so every call past the five_cards check raises `TypeError` | Qd Jd on Kc 2d 2h, the first docstring example | not one pair made with a holecard, a pair on the board alone allowed, as the module docstring says | not executed | BluffExamples.KeywordMismatchRaises | BluffExamples.IsBluffCandidate |
