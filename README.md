# Poker variant selector: a Dafny model of `pkg/poker`

This project models the engine of a tool that, given four hole cards, estimates
by Monte-Carlo simulation the hero's equity against one opponent in six poker
variants and picks the most favourable variant. The modelled parts are:

- the card encoding and parser (`card.go`);
- the deck, the card removal and the partial Fisher-Yates draw (`deck.go`);
- the hand-string parser (`parser.go`);
- the 5-card and 4-card high evaluators, the Badugi evaluator, the 8-or-better
  qualifier and the HiDuGi pair of scores (`evaluator.go`);
- the game variants, with their hand completion and scoring (`game.go`);
- the split-pot HiDuGi simulation (`hidugi_simulator.go`);
- the equity simulation and the game picker (`simulator.go`).

Modules follow the source files:

- `Cards` in card.dfy;
- `Decks` in deck.dfy;
- `Parser` in parser.dfy;
- `HighHand`, `Badugi` and `Base13` in high_hand.dfy, badugi.dfy and base13.dfy.
  These three hold evaluator.go. `Base13` holds the base-13 packing that both
  evaluators use;
- `Games` in games.dfy;
- `HiDuGiSimulator` in hidugi_simulator.dfy;
- `Simulator` in simulator.dfy;
- `Wrappers` in wrappers.dfy, which holds the `Result` datatype.

Code that loops or mutates stays imperative:

- The evaluators, card parsing, deck building and drawing are methods with
  loops and invariants.
- The deck is an `array<Card>` shuffled in place. A Go slice passed to
  `DrawRandom` is a window `[lo, hi)` of that array, so the second draw of
  Drawmaha-Hi on `deck[1:]` swaps inside the same array, as in Go.
- Each such method is proved equal to a specification function.
- The lemmas state what those functions mean: orderings, bounds, permutations
  and round trips.

The random generator is a stream `draws: nat -> nat` supplied by the caller.
The t-th call `rng.Intn(k)` answers `draws(t) % k`. Every simulation threads
the stream position `pos` in and out, so that consecutive rounds and variants
read consecutive parts of the one stream, as they do with Go's single global
generator.

Go `float64` results are exact reals in the model. `Equity = NaN | Eq(val)`
adds the NaN that `0/0` gives, and that NaN compares false with everything.

### Where the code and its comments or description disagree, the model follows the code

- **Straights.** The 5-card straight scan breaks as soon as it has five ranks,
  so the straight's top rank is never used. The kicker packs all ranks,
  highest first. The wheel A-2-3-4-5 holds an Ace, so it outscores every
  straight without one. `HighHand.HigherTopCardWins5` states this.
- **Kickers.** The kicker is not ordered by multiplicity: a higher top card
  beats a pair of lower cards inside the same category.
  `HighHand.HigherTopCardHigherKicker` states this.
- **Card suits.** Besides the upper-case rank, an upper-case suit letter is
  accepted, because `strings.ToLower` is applied to it. `Cards.CaseInsensitive`
  states this.
- **Badugi card counts.** The base is `(4 - n) * 100000`, shifted by one
  base-13 digit per chosen card. Below four cards, fewer chosen cards therefore
  score HIGHER, and an empty selection beats one, two or three cards.
  `Badugi.FewerCardsScoreHigher` states this. Four-card Badugis still beat all
  others (`Badugi.FourCardsWin`).
- **Ace in Badugi.** In the Badugi score the Ace is the highest rank
  (`Badugi.FourCardOrder`). In `IsBadugi8OrBetter` it counts as low.
- **Normalised Badugi score.** HiDuGiGame.Evaluate normalises the Badugi score
  by dividing it by 10^12. The result is 4611686 for every hand
  (`Games.NormalizedBadugiConstant`), so it never separates two hands.
- **Ties and NaN in PickBestGame.** Ties go to the earlier variant in the list.
  With zero iterations every equity is NaN, and HiDuGi, the first variant,
  is picked (`Simulator.ZeroRoundsPicksHiDuGi`).

## Model

| member | source | states |
|---|---|---|
| Cards.Rank | pkg/poker/card.go:41 | the rank is below 13 and together with the suit rebuilds the card as 4 * rank + suit |
| Cards.Suit | pkg/poker/card.go:44 | the suit is one of the four suits, below 4 |
| Cards.MakeCard | pkg/poker/card.go:37 | `rank*4 + suit` is the card with exactly that rank and that suit |
| Cards.CardString | pkg/poker/card.go:47-49 | the rendering is two characters: the rank table's entry, then the suit table's |
| Cards.RankIndexFrom | pkg/poker/card.go:22-27 | the rank search returns an index whose entry equals the character ignoring case, and -1 exactly when no entry does |
| Cards.SuitIndexFrom | pkg/poker/card.go:28-33 | the suit search returns an index holding the character, and -1 exactly when the table lacks it |
| Cards.CardFromString | pkg/poker/card.go:16-38 | the method with both search loops returns exactly the parse result, errors included |
| Cards.ByteLengthAtLeast | pkg/poker/card.go:17 | `len(s)` counts at least one byte per character, and exactly one only when all characters are ASCII |
| Cards.RankCharFound | pkg/poker/card.go:22-27 | every rank character, in either case, is found at its own index |
| Cards.SuitCharFound | pkg/poker/card.go:28-33 | every suit character is found at its own index |
| Cards.RoundTrip | pkg/poker/card.go:16-49 | parsing the rendering of any card gives that card back |
| Cards.LengthNotTwoRejected | pkg/poker/card.go:17-19 | a token that is not two characters long never parses |
| Cards.ParseCardAccepts | pkg/poker/card.go:16-37 | a token parses iff it has two characters, the upper-cased first is a rank and the lower-cased second a suit; the card then renders in that canonical form |
| Cards.CaseInsensitive | pkg/poker/card.go:20-33 | changing the case of either character changes neither acceptance nor the card |
| Parser.CardStringWord | pkg/poker/card.go:47-49 | a card's rendering is a non-empty word with no white space and no comma |
| Base13.PackBound | pkg/poker/evaluator.go:100-103 | a packed list of n ranks is below 13^n |
| Base13.PackAppend | pkg/poker/evaluator.go:100-103 | packing a concatenation shifts the left part by 13^(length of the right part) |
| Base13.PackLexLess | pkg/poker/evaluator.go:100-103 | for rank lists of one length, lexicographically smaller lists pack smaller |
| Base13.LexTotal | pkg/poker/evaluator.go:100-103 | two different lists of one length are lexicographically ordered one way or the other |
| Base13.PackOrder | pkg/poker/evaluator.go:100-103 | for rank lists of one length, packing orders exactly as lexicographic order does (both directions) |
| Decks.AllCards | pkg/poker/deck.go:19-25 | the full deck has 52 positions, with card i at position i |
| Decks.AllCardsComplete | pkg/poker/deck.go:19-25 | the full deck is ascending, has no duplicates and holds every card |
| Decks.FullDeck | pkg/poker/deck.go:19-25 | the method fills a new 52-card array with the full deck |
| Decks.RemoveCards | pkg/poker/deck.go:28-36 | the first n cells of the new array are the deck's cards outside the removal set, in deck order |
| Decks.FilterMembers | pkg/poker/deck.go:28-36 | a card is kept iff it is in the deck and not in the removal set |
| Decks.FilterAscending | pkg/poker/deck.go:28-36 | removal keeps an ascending deck ascending |
| Decks.RemainingDeck | pkg/poker/deck.go:19-36 | a round's deck holds every card not in the hand, once each, ascending, 52 minus the number of distinct hand cards long |
| Decks.RoundDeckSize | pkg/poker/deck.go:28-36 | a round's deck keeps at least 52 - len(hand) cards |
| Decks.ToSet | pkg/poker/deck.go:51-57 | the set built holds exactly the cards of the slice |
| Decks.Intn | pkg/poker/deck.go:44 | each random answer is below its bound |
| Decks.SwapIndex | pkg/poker/deck.go:44 | step i swaps with a position from i up to the window's end |
| Decks.Swap | pkg/poker/deck.go:45 | the swap exchanges positions i and j and leaves every other position alone |
| Decks.SwapPermutes | pkg/poker/deck.go:45 | a swap is a permutation |
| Decks.SwapKeepsDistinct | pkg/poker/deck.go:45 | a swap keeps a duplicate-free deck duplicate-free |
| Decks.ShuffleFrom | pkg/poker/deck.go:43-46 | the partial shuffle keeps the window's length |
| Decks.ShufflePermutes | pkg/poker/deck.go:43-46 | the partial shuffle is a permutation of the window |
| Decks.ShuffleKeepsPrefix | pkg/poker/deck.go:43-46 | positions below the current step are never touched again |
| Decks.ShuffleKeepsDistinct | pkg/poker/deck.go:43-46 | a duplicate-free window stays duplicate-free |
| Decks.SplitDisjoint | pkg/poker/deck.go:47 | the two parts of a duplicate-free deck share no card |
| Decks.DrawSplits | pkg/poker/deck.go:39-48 | the drawn n cards and the rest together are the window's cards; from a duplicate-free deck they are disjoint and duplicate-free |
| Decks.ShuffleShift | pkg/poker/deck.go:43-46 | shuffling steps 1.. of a window equal its first card followed by the same steps on the rest, with the stream shifted by one |
| Decks.DrawOneThenMore | pkg/poker/game.go:21-24 | drawing one card, then m more from the rest of the window, is one draw of 1 + m cards |
| Decks.SwapInWindow | pkg/poker/deck.go:45 | the in-place swap changes only the window, by the swap of positions i and j |
| Decks.DrawRandom | pkg/poker/deck.go:39-48 | the window becomes its partial shuffle of n steps, the array outside it is unchanged, and the draw is the window's first n cards |
| HighHand.RunUpAtLeast | pkg/poker/evaluator.go:39-51 | the run of present ranks from lo is at least n long iff ranks lo..lo+n-1 are all present |
| HighHand.Category5 | pkg/poker/evaluator.go:71-91 | the 5-card switch yields one of the nine category constants |
| HighHand.Category4 | pkg/poker/evaluator.go:192-210 | the 4-card switch yields a category from 1 to 8 |
| HighHand.Histograms | pkg/poker/evaluator.go:25-30 | the counting loop leaves, for each rank and each suit, the number of cards that have it |
| HighHand.FindFlush | pkg/poker/evaluator.go:31-37 | the flag is set iff some suit holds all n cards |
| HighHand.Frequencies | pkg/poker/evaluator.go:59-69 | pairs, trips and quads are the numbers of ranks held exactly 2, 3 and 4 times |
| HighHand.KickerOf | pkg/poker/evaluator.go:94-103 | the kicker loops compute the packed list of all ranks held, highest first |
| HighHand.Straight5 | pkg/poker/evaluator.go:39-56 | the scan reports a straight iff five consecutive ranks are present or the hand is A-2-3-4-5 |
| HighHand.Straight4 | pkg/poker/evaluator.go:161-177 | the scan reports a straight iff four consecutive ranks are present or the hand is A-2-3-4 |
| HighHand.CategoryFromHistograms5 | pkg/poker/evaluator.go:71-91 | the category chosen from the histograms is the hand's 5-card category |
| HighHand.CategoryFromHistograms4 | pkg/poker/evaluator.go:192-210 | the category chosen from the histograms is the hand's 4-card category |
| HighHand.Evaluate5CardHigh | pkg/poker/evaluator.go:21-105 | the evaluator returns category * 13^5 + kicker for the hand |
| HighHand.Evaluate4CardHigh | pkg/poker/evaluator.go:140-224 | the evaluator returns category * 13^4 + kicker for the hand |
| HighHand.CountWherePermutation | pkg/poker/evaluator.go:27-30 | the counts do not depend on the order of the cards |
| HighHand.ScoresIgnoreOrder | pkg/poker/evaluator.go:21-224 | histograms and both high scores depend only on the multiset of cards |
| HighHand.ValsLength | pkg/poker/evaluator.go:94-99 | the kicker list from rank lo has one entry per card of rank lo or more |
| HighHand.ValsRange | pkg/poker/evaluator.go:94-99 | every entry of the kicker list is a present rank at or above lo |
| HighHand.ValsDescending | pkg/poker/evaluator.go:94-99 | the kicker list runs from the highest rank down |
| HighHand.ValsCount | pkg/poker/evaluator.go:94-99 | the kicker list holds each rank as often as the hand does |
| HighHand.KickerBound | pkg/poker/evaluator.go:94-103 | the kicker list has one digit per card, so the kicker is below 13^(number of cards) |
| HighHand.Score5Split | pkg/poker/evaluator.go:104 | dividing the 5-card score by 13^5 recovers the category; the remainder is the kicker |
| HighHand.Score4Split | pkg/poker/evaluator.go:223 | dividing the 4-card score by 13^4 recovers the category (1 to 8); the remainder is the kicker; every score is positive |
| HighHand.Score4Band | pkg/poker/evaluator.go:223 | every 4-card score lies in [13^4, 9 * 13^4), and the category is at least 6 iff the score is at least 6 * 13^4 |
| HighHand.CategoryDecides5 | pkg/poker/evaluator.go:104 | a higher 5-card category always scores higher, whatever the kickers |
| HighHand.CategoryDecides4 | pkg/poker/evaluator.go:223 | a higher 4-card category always scores higher, whatever the kickers |
| HighHand.ValsTop | pkg/poker/evaluator.go:94-99 | the kicker list starts with the highest rank present |
| HighHand.HigherTopCardHigherKicker | pkg/poker/evaluator.go:93-103 | for hands of one size, a higher top card gives a higher kicker, whatever the pairs |
| HighHand.HigherTopCardWins5 | pkg/poker/evaluator.go:38-104 | within one 5-card category the higher top card wins, so an Ace-holding straight (the wheel too) beats every other straight |
| HighHand.HigherTopCardWins4 | pkg/poker/evaluator.go:160-223 | within one 4-card category the higher top card wins |
| Badugi.Select | pkg/poker/evaluator.go:115-127 | the selection never shrinks the cards chosen so far and never holds more than four |
| Badugi.SelectExtends | pkg/poker/evaluator.go:115-127 | the cards chosen so far stay, in order, at the front of the final selection: the loops only append |
| Badugi.LowRank | pkg/poker/evaluator.go:259-263 | the compared rank is the card's rank, except that the Ace counts as -1 |
| Badugi.SelectFull | pkg/poker/evaluator.go:115-116 | once four cards are chosen, the loops choose nothing more |
| Badugi.Take | pkg/poker/evaluator.go:118-124 | the hand search takes the card iff its suit and rank are free and the hand holds it |
| Badugi.MarksAppend | pkg/poker/evaluator.go:120-122 | marking the taken card's suit and rank keeps the flags equal to the chosen cards' suits and ranks |
| Badugi.Consider | pkg/poker/evaluator.go:117-125 | one pass of the inner loop advances the selection by one card number and keeps the flags in step |
| Badugi.ConsiderRank | pkg/poker/evaluator.go:116-126 | the suit loop for rank r advances the selection over the four cards of that rank |
| Badugi.ChooseBadugi | pkg/poker/evaluator.go:111-127 | the nested loops choose exactly the greedy selection |
| Badugi.EvaluateBadugi | pkg/poker/evaluator.go:109-137 | the method returns the Badugi score of the selection |
| Badugi.IsBadugi8OrBetter | pkg/poker/evaluator.go:234-272 | the qualifier holds iff four cards are chosen and each is an Ace or ranks 8 or lower |
| Badugi.EvaluateHiDuGi | pkg/poker/evaluator.go:227-231 | the pair returned is the 4-card high score and the Badugi score |
| Badugi.BadugiAppend | pkg/poker/evaluator.go:119-122 | adding a higher card of a free suit and a free rank keeps a Badugi a Badugi |
| Badugi.SelectValid | pkg/poker/evaluator.go:115-127 | the selection loops extend a Badugi drawn from the hand to a Badugi drawn from the hand |
| Badugi.BadugiHandValid | pkg/poker/evaluator.go:110-127 | the selection is a Badugi of the hand's cards: at most four, ascending, no shared suit or rank |
| Badugi.SelectMaximal | pkg/poker/evaluator.go:115-127 | a hand card visited by the loops is kept, or blocked by a kept suit or rank, or four cards are kept |
| Badugi.BadugiHandMaximal | pkg/poker/evaluator.go:114-127 | every card left out shares a suit or rank with a kept card, or four cards are kept |
| Badugi.SelectSameCards | pkg/poker/evaluator.go:118 | the selection depends only on which cards the hand holds |
| Badugi.BadugiIgnoresOrder | pkg/poker/evaluator.go:109-137 | the selection and the score ignore the order and repetition of the hand's cards |
| Badugi.RawScoreBands | pkg/poker/evaluator.go:128-134 | the raw score of 0, 1, 2, 3 or 4 chosen cards lies in its own band; four cards pack their ranks only |
| Badugi.FourCardsWin | pkg/poker/evaluator.go:128-136 | a four-card Badugi outscores every selection of fewer cards |
| Badugi.FewerCardsScoreHigher | pkg/poker/evaluator.go:128-136 | below four cards, a selection of fewer cards scores higher |
| Badugi.FourCardOrder | pkg/poker/evaluator.go:131-136 | between four-card Badugis, one scores higher iff its ranks, lowest first, come first lexicographically |
| Badugi.BadugiScoreRange | pkg/poker/evaluator.go:136 | every Badugi score lies just below math.MaxInt64 / 2 |
| Badugi.EightOrBetterTopBand | pkg/poker/evaluator.go:254-270 | an 8-or-better qualifier scores in the four-card band |
| Games.DealFrom | pkg/poker/game.go:16-99 | a deal gives no board, gives the opponent 5 cards (Drawmaha-Hi) or all the cards drawn, and keeps the hero's cards first |
| Games.Name | pkg/poker/game.go:14-96 | the four Name methods (lines 14, 36, 49 and 96): among the three built-in variants each name picks out exactly one variant, and a stub is named by its NameStr |
| Games.TwoDraws | pkg/poker/game.go:21-24 | the two draws of Drawmaha-Hi together are one partial shuffle of six cards of the window |
| Games.DealDrawmaha | pkg/poker/game.go:16-26 | the hero gets the window's first card after the draw, the opponent the next five, and the window is shuffled by six steps |
| Games.CompleteHand | pkg/poker/game.go:16-99 | each variant's completion shuffles the window by its draw count, returns the deal and advances the stream by that count |
| Games.DrawnCards | pkg/poker/game.go:24 | cards drawn from a duplicate-free deck are different cards of that deck |
| Games.DealCards | pkg/poker/game.go:16-99 | from a deck without the hero's cards, the opponent's cards and the hero's drawn card are different deck cards, none of them the hero's |
| Games.EvaluateHiDuGiGame | pkg/poker/game.go:57-89 | the method returns the HiDuGi score of the hand |
| Games.Evaluate | pkg/poker/game.go:28-101 | each variant's Evaluate returns its score; the board is unused |
| Games.NormalizedBadugiConstant | pkg/poker/game.go:71 | the normalised Badugi score is 4611686 for every hand |
| Games.QualifierScore | pkg/poker/game.go:73-77 | an 8-or-better hand scores its high score plus 14611686 |
| Games.NonQualifierBound | pkg/poker/game.go:82-88 | a hand that does not qualify scores between 1 and 3 * (9 * 13^4 - 1) + 461168 |
| Games.QualifierWins | pkg/poker/game.go:73-88 | every 8-or-better hand outscores every hand that does not qualify |
| Games.BoostedHighWins | pkg/poker/game.go:82-88 | among non-qualifiers, a high category of 6 or more beats every lower category |
| Parser.SkipSpaces | pkg/poker/parser.go:10 | the result is the suffix after the leading white space, and it does not start with white space |
| Parser.WordLength | pkg/poker/parser.go:10 | a word is the longest prefix without white space |
| Parser.FieldsAreWords | pkg/poker/parser.go:10 | every field is a non-empty run without white space |
| Parser.IndexOf | pkg/poker/parser.go:13 | the position of the first separator, or the length when there is none |
| Parser.Split | pkg/poker/parser.go:13 | a split always has at least one piece |
| Parser.SplitPieces | pkg/poker/parser.go:13 | no piece contains the separator |
| Parser.SplitJoin | pkg/poker/parser.go:13 | joining the pieces with the separator gives back the input |
| Parser.SplitCount | pkg/poker/parser.go:13 | there is one piece more than there are separators |
| Parser.TrimRight | pkg/poker/parser.go:21 | the result is a prefix, everything cut is white space, and it does not end with white space |
| Parser.TrimSpaceInfix | pkg/poker/parser.go:21 | trimming cuts only white space, from both ends, and leaves a slice that neither starts nor ends with white space |
| Parser.TrimSpaceNoSpace | pkg/poker/parser.go:21 | a token without white space is left as it is |
| Parser.FieldsOfWord | pkg/poker/parser.go:10-14 | a non-empty word without white space is a single field |
| Parser.Tokens | pkg/poker/parser.go:10-14 | the tokens are the fields, except with exactly one field, when they are the comma pieces that join back to the argument |
| Parser.FieldsJoin | pkg/poker/parser.go:10 | strings.Fields gives back, in order, any non-empty words without white space joined by a white-space character |
| Parser.SplitOfJoin | pkg/poker/parser.go:13 | strings.Split gives back any pieces without the separator that are joined by it |
| Parser.JoinNoSpace | pkg/poker/parser.go:10-11 | words joined by a character that is not white space form a single non-empty word without white space, so the whole argument is one field |
| Parser.TokensOfWords | pkg/poker/parser.go:10-14 | two or more words separated by white space tokenize to exactly those words |
| Parser.TokensOfCommaPieces | pkg/poker/parser.go:10-14 | comma-separated pieces without white space tokenize to exactly those pieces |
| Parser.RenderedTokens | pkg/poker/parser.go:10-14 | card renderings joined by white space or commas tokenize to those renderings |
| Parser.PartsRendered | pkg/poker/parser.go:15-31 | the renderings of four different cards are accepted as exactly those cards, in order |
| Parser.CollectCardsOk | pkg/poker/parser.go:19-31 | tokens that are pairwise different cards not seen before are collected as those cards, in order |
| Parser.ParseRendered | pkg/poker/parser.go:9-32 | a hand of four different cards, printed and joined by white space (`As Ad Ah Ac`) or commas (`2s,3d,4h,5c`), parses back to that hand |
| Parser.CollectStep | pkg/poker/parser.go:20-30 | one loop turn: a bad token ends with its error, a seen card with a duplicate error, otherwise the card is appended and marked as seen |
| Parser.ParseHand | pkg/poker/parser.go:9-32 | the method returns the parse of the argument: count error, token error, duplicate error or the hand |
| Parser.CollectCards | pkg/poker/parser.go:18-31 | the loop returns the first token error or duplicate, or else the cards in token order |
| Parser.CollectOk | pkg/poker/parser.go:20-31 | the loop succeeds iff every token is a card, all are different and none was seen, and then returns them in order |
| Parser.ParseHandOk | pkg/poker/parser.go:9-32 | parsing succeeds iff there are four tokens that are four different cards; the hand is those cards in token order |
| Parser.PartsOk | pkg/poker/parser.go:15-31 | given the tokens, parsing succeeds iff there are four of them and they are four different cards |
| Parser.ParseHandCount | pkg/poker/parser.go:15-17 | the count error is returned, with the count, iff there are not four tokens |
| Parser.CollectNoCount | pkg/poker/parser.go:20-31 | the loop never reports a count error |
| Parser.CollectBadToken | pkg/poker/parser.go:21-24 | the first bad token after distinct cards decides the error |
| Parser.CollectDuplicate | pkg/poker/parser.go:25-27 | a card that repeats an earlier one, after distinct cards, is reported as a duplicate |
| Parser.CollectSeen | pkg/poker/parser.go:25-27 | a card already seen, after distinct unseen cards, is reported as a duplicate |
| HiDuGiSimulator.OppHand | pkg/poker/hidugi_simulator.go:13-16 | the opponent's hand has four cards |
| HiDuGiSimulator.HalfPots | pkg/poker/hidugi_simulator.go:26-37 | a round's share of the pot is between 0 and 1 |
| HiDuGiSimulator.DealOpponent | pkg/poker/hidugi_simulator.go:13-16 | the deal gives the first four cards of the round deck after a four-step shuffle |
| HiDuGiSimulator.ScoreRound | pkg/poker/hidugi_simulator.go:18-36 | the round adds 1, 0.5 or 0 as the hero wins both halves, one, or none |
| HiDuGiSimulator.SimulateHiDuGiEquity | pkg/poker/hidugi_simulator.go:4-60 | the equity is the pot share over the rounds, divided by iters, with the safety bonus; four stream draws per round |
| HiDuGiSimulator.SafetyBonus | pkg/poker/hidugi_simulator.go:41-57 | trips or better with equity at least 0.5 gets 10% (quads or better) or 5%, capped at 1 |
| HiDuGiSimulator.HalfPotsShare | pkg/poker/hidugi_simulator.go:26-36 | hero's and opponent's shares never exceed the pot, and add up to it when neither half is tied |
| HiDuGiSimulator.SumSharesBound | pkg/poker/hidugi_simulator.go:12-37 | k rounds that each win at most the pot win at most k pots |
| HiDuGiSimulator.PotWinsBound | pkg/poker/hidugi_simulator.go:12-37 | potWins after k rounds lies between 0 and k |
| HiDuGiSimulator.BonusBounds | pkg/poker/hidugi_simulator.go:43-57 | the bonus never lowers an equity nor lifts it above 1, and leaves weak or losing hands alone |
| HiDuGiSimulator.RatioBound | pkg/poker/hidugi_simulator.go:39 | at most n pots over n rounds is a ratio between 0 and 1 |
| HiDuGiSimulator.EquityRange | pkg/poker/hidugi_simulator.go:4-60 | with at least one round the HiDuGi equity is a number between 0 and 1 |
| HiDuGiSimulator.NoRounds | pkg/poker/hidugi_simulator.go:39 | zero rounds give NaN; a negative count gives 0 |
| Simulator.FourCardsPlayable | pkg/poker/deck.go:39-42 | with a 4-card hand no variant's round panics: the deck has enough cards and the hand sizes fit |
| Simulator.Outcome | pkg/poker/simulator.go:16-20 | a round is a win iff the hero's score is higher and a tie iff the scores are equal, never both |
| Simulator.OutcomeSwap | pkg/poker/simulator.go:16-20 | a win for one side is a loss for the other, and a tie is a tie for both |
| Simulator.PlayRound | pkg/poker/simulator.go:12-15 | the two scores of the round give that round's outcome |
| Simulator.PlayRounds | pkg/poker/simulator.go:11-21 | wins and ties are the tallies of iters rounds, each reading the stream after the last |
| Simulator.SimulateEquity | pkg/poker/simulator.go:4-23 | the equity is HiDuGi's split-pot equity or (wins + ties/2) / iters, and the stream moves on by the draws of every round |
| Simulator.SimulateRounds | pkg/poker/simulator.go:10-22 | the equity is (wins + ties/2) / iters over the simulated rounds |
| Simulator.TallyStep | pkg/poker/simulator.go:16-20 | peeling off the first round adds its win or tie to the rest of the tally |
| Simulator.TalliesBound | pkg/poker/simulator.go:11-21 | k rounds yield at most k wins and ties together |
| Simulator.TalliesAllTies | pkg/poker/simulator.go:11-21 | rounds that are all ties give k ties and no win |
| Simulator.EquityOfBound | pkg/poker/simulator.go:22 | at most n wins and ties over n rounds give an equity between 0 and 1 |
| Simulator.EquityRange | pkg/poker/simulator.go:4-23 | with at least one round every variant's equity is a number between 0 and 1 |
| Simulator.StubEquity | pkg/poker/game.go:101 | a stub variant scores every hand 0, so every round ties and its equity is exactly 0.5 |
| Simulator.AllTiesIsHalf | pkg/poker/simulator.go:22 | n ties in n rounds is an equity of 0.5 |
| Simulator.NoRounds | pkg/poker/simulator.go:22 | zero rounds give NaN; a negative count gives 0 |
| Simulator.Menu | pkg/poker/simulator.go:27-34 | there are six variants, and HiDuGi comes first |
| Simulator.MenuNamesDistinct | pkg/poker/simulator.go:27-38 | the six variants have different names, so each gets its own entry in the map |
| Simulator.BestFrom | pkg/poker/simulator.go:39-41 | the scan ends at an index no earlier than the one it keeps |
| Simulator.BestFromIsFirstMax | pkg/poker/simulator.go:36-42 | on numbers, the scan ends at the first index of a maximum |
| Simulator.BestFromKeepsNaN | pkg/poker/simulator.go:39 | when the kept equity is NaN, no comparison succeeds and the scan keeps it |
| Simulator.SimulateVariant | pkg/poker/simulator.go:37 | the equity of one variant, and the stream moved on past its rounds |
| Simulator.RecordedEntries | pkg/poker/simulator.go:38 | with distinct names, the map's keys are the recorded names and each name maps to its own equity |
| Simulator.PickFrom | pkg/poker/simulator.go:35-43 | every variant's equity is recorded under its name, and best is the first variant no later one beats, the stream read in order |
| Simulator.PickBestGame | pkg/poker/simulator.go:26-44 | the map holds each menu variant's equity under its name, and best is the menu variant the scan keeps |
| Simulator.SimAtNumbers | pkg/poker/simulator.go:22 | with a nonzero round count every variant's equity is a number |
| Simulator.BestIndexIsFirstMax | pkg/poker/simulator.go:36-42 | on numbers, the kept variant has the largest equity, and every earlier one is strictly smaller |
| Simulator.PickedIsFirstMax | pkg/poker/simulator.go:26-44 | with a nonzero round count the variant picked has the largest equity, ahead of any earlier one that only ties it |
| Simulator.ZeroRoundsPicksHiDuGi | pkg/poker/simulator.go:28-41 | with zero rounds HiDuGi's equity is NaN, no later comparison succeeds against it, and HiDuGi, the first variant, is picked |

## Left out

- float64 arithmetic is modelled by exact reals. Rounding is not modelled. NaN from `0/0` is kept as `Equity.NaN`. A negative count gives 0 (Go gives -0, which compares equal to 0).
- The generator is not modelled. The seeding from `crypto/rand` in `init` and `math/rand`'s internal generator become the stream `draws` supplied by the caller. The stream position is threaded explicitly.
- Each Go `panic` is a `requires`:
  - `DrawRandom` needs enough cards;
  - the evaluators need a hand of exactly 5 or 4 cards.
- The `board` returned by `CompleteHand` is always nil and no `Evaluate` reads it. The model keeps it as an empty sequence.
- Error values are a datatype of causes, `CardError` and `ParseError`. The model does not build the `fmt.Errorf` message strings.
- `strings.ToUpper`/`ToLower`/`EqualFold` are modelled for ASCII letters only. `CardFromString` only compares them after its byte-length check, and two bytes that are two characters are both ASCII.
- `unicode.IsSpace` is modelled as the Unicode White_Space ranges. These coincide with Go's Latin-1 special cases below U+0100.
- `main.go` and `badugi_simulator.go` are not part of this model.
- Several Go loops are split into helper methods, with the same order of effects:
  - `SimulateHiDuGiEquity` is split into `DealOpponent`, `ScoreRound` and `SafetyBonus`;
  - the `SimulateEquity` loop is split into `PlayRound`, `PlayRounds` and `SimulateRounds`;
  - the `PickBestGame` loop is split into `SimulateVariant` and `PickFrom`.
- Simulator.PickFrom: receives the variants' names as a parameter and keeps `best` as an index into the list, not as a `Game` interface value.
- Simulator.SimAt: returns NaN for a hand that is not four cards. This case is only a totality guard, because `PickBestGame` requires four cards.
- Badugi.BadugiHandMaximal: states that the greedy selection is maximal, not optimal. The source's greedy choice can miss a larger Badugi, and the model keeps that behaviour.
- HiDuGiSimulator.OppHand: deals `len(my)` cards, as `DrawRandom(deck, 4)` does for a 4-card hand.
