/**
 * SimulateHiDuGiEquity of pkg/poker/hidugi_simulator.go: Monte-Carlo
 * equity of a 4-card hand in the HiDuGi split-pot game. Each round deals
 * the opponent four cards from the deck without the hero's cards; the hero
 * wins the high half with a strictly higher 4-card high score and the
 * Badugi half with a strictly higher Badugi score. A hand of trips or
 * better (high category 6 or more) with equity at least one half gets a
 * bonus of 10% (category 7 or more) or 5%, capped at 1.
 *
 * Go float64 results are modelled as exact reals; the Equity datatype adds
 * the NaN that 0/0 produces, which compares false with everything.
 */
module HiDuGiSimulator {
  import opened Cards
  import opened Decks
  import opened HighHand
  import opened Badugi

  datatype Equity = NaN | Eq(val: real)

  /** Rounds the Go loop `for i := 0; i < iters; i++` runs. */
  function RoundCount(iters: int): nat
  {
    if iters > 0 then iters else 0
  }

  /** potWins / float64(iters): 0/0 is NaN, and with no rounds a negative count gives 0. */
  function Ratio(total: real, iters: int): Equity
  {
    if iters == 0 then NaN else Eq(total / iters as real)
  }

  /**
   * The opponent's hand of the round that reads the random stream from pos:
   * as many cards as the hero holds (four) drawn from the round's deck.
   */
  function OppHand(my: seq<Card>, draws: Draws, pos: nat): (opp: seq<Card>)
    requires |my| == 4
    ensures |opp| == 4
  {
    RoundDeckSize(my);
    Shuffle(RoundDeck(my), |my|, draws, pos)[..|my|]
  }

  /**
   * The share of the pot the hero wins in one round from the two high
   * scores and the two Badugi scores: both halves, one, or none.
   */
  function HalfPots(myHigh: int, oppHigh: int, myBadugi: int, oppBadugi: int): (share: real)
    ensures 0.0 <= share <= 1.0
  {
    var highPotWon := myHigh > oppHigh;
    var badugiPotWon := myBadugi > oppBadugi;
    if highPotWon && badugiPotWon then 1.0
    else if highPotWon || badugiPotWon then 0.5
    else 0.0
  }

  /** The hero's share of the round against opponent hand opp. */
  function RoundShare(my: seq<Card>, opp: seq<Card>): real
    requires |my| == 4 && |opp| == 4
  {
    HalfPots(HighScore4(my), HighScore4(opp), BadugiScore(my), BadugiScore(opp))
  }

  /** The hero's share in the round that reads the random stream from position t. */
  function ShareAt(my: seq<Card>, draws: Draws): nat -> real
    requires |my| == 4
  {
    (t: nat) => RoundShare(my, OppHand(my, draws, t))
  }

  /** The shares of k rounds whose streams start at pos, pos + 4, pos + 8, ... */
  function SumShares(share: nat -> real, k: nat, pos: nat): real
  {
    if k == 0 then 0.0 else share(pos) + SumShares(share, k - 1, pos + 4)
  }

  /** potWins after k rounds from stream position pos; each round draws four cards. */
  function PotWins(my: seq<Card>, k: nat, draws: Draws, pos: nat): real
    requires |my| == 4
  {
    SumShares(ShareAt(my, draws), k, pos)
  }

  /** The safety bonus of hidugi_simulator.go:43-57 for a hand of high category cat. */
  function Bonus(cat: int, equity: Equity): Equity
  {
    if cat >= 6 && equity.Eq? && equity.val >= 0.5 then
      var e := if cat >= 7 then equity.val * 1.10 else equity.val * 1.05;
      Eq(if e > 1.0 then 1.0 else e)
    else equity
  }

  /** What SimulateHiDuGiEquity returns. */
  function HiDuGiEquity(my: seq<Card>, iters: int, draws: Draws, pos: nat): Equity
    requires |my| == 4
  {
    Bonus(HighScore4(my) / Weight4, Ratio(PotWins(my, RoundCount(iters), draws, pos), iters))
  }

  /** The deal of hidugi_simulator.go:13-16: four cards from a fresh deck without the hero's cards. */
  method DealOpponent(my4: seq<Card>, draws: Draws, pos: nat) returns (oppHand: seq<Card>)
    requires |my4| == 4
    ensures oppHand == OppHand(my4, draws, pos)
  {
    var full := FullDeck();
    var mySet := ToSet(my4);
    var deck, n := RemoveCards(full, mySet);
    RoundDeckSize(my4);
    ghost var before := deck[0..n];
    assert before == RoundDeck(my4);
    var restLo;
    oppHand, restLo := DrawRandom(deck, 0, n, 4, draws, pos);
    ghost var after := deck[0..n];
    assert oppHand == after[..4];
  }

  /**
   * The scoring of hidugi_simulator.go:18-36: score both hands and add up
   * the halves the hero wins against oppHand.
   */
  method ScoreRound(my4: seq<Card>, myHighScore: nat, oppHand: seq<Card>) returns (won: real)
    requires |my4| == 4 && |oppHand| == 4 && myHighScore == HighScore4(my4)
    ensures won == RoundShare(my4, oppHand)
  {
    var oppHighScore := Evaluate4CardHigh(oppHand);
    var myBadugiScore := EvaluateBadugi(my4);
    var oppBadugiScore := EvaluateBadugi(oppHand);
    var highPotWon := myHighScore > oppHighScore;
    var badugiPotWon := myBadugiScore > oppBadugiScore;
    won := 0.0;
    if highPotWon && badugiPotWon {
      won := 1.0;
    } else if highPotWon || badugiPotWon {
      won := 0.5;
    }
  }

  /** SimulateHiDuGiEquity, hidugi_simulator.go:4-60; pos' is the next position of the random stream. */
  method SimulateHiDuGiEquity(my4: seq<Card>, iters: int, draws: Draws, pos: nat) returns (equity: Equity, pos': nat)
    requires |my4| == 4
    ensures equity == HiDuGiEquity(my4, iters, draws, pos)
    ensures pos' == pos + 4 * RoundCount(iters)
  {
    var potWins: real := 0.0;
    var myHighScore := Evaluate4CardHigh(my4);
    ghost var rounds := RoundCount(iters);
    ghost var share := ShareAt(my4, draws);
    ghost var left := rounds;
    pos' := pos;
    var i := 0;
    while i < iters
      invariant 0 <= i <= rounds && left == rounds - i && pos' == pos + 4 * i
      invariant potWins + SumShares(share, left, pos') == SumShares(share, rounds, pos)
    {
      var oppHand := DealOpponent(my4, draws, pos');
      var won := ScoreRound(my4, myHighScore, oppHand);
      potWins := potWins + won;
      pos' := pos' + 4;
      i := i + 1;
      left := left - 1;
    }
    equity := if iters == 0 then NaN else Eq(potWins / iters as real);
    equity := SafetyBonus(myHighScore, equity);
  }

  /** The bonus step of SimulateHiDuGiEquity, given the hero's 4-card high score. */
  method SafetyBonus(myHighScore: nat, equity: Equity) returns (boosted: Equity)
    ensures boosted == Bonus(myHighScore / Weight4, equity)
  {
    var highCategory := myHighScore / (13 * 13 * 13 * 13);
    var hasVeryStrongHigh := highCategory >= 6;
    boosted := equity;
    if hasVeryStrongHigh && equity.Eq? && equity.val >= 0.5 {
      var e := equity.val;
      if highCategory >= 7 {
        e := e * 1.10;
      } else {
        e := e * 1.05;
      }
      if e > 1.0 {
        e := 1.0;
      }
      boosted := Eq(e);
    }
  }

  // ---------------------------------------------------------------------
  // What the equity means
  // ---------------------------------------------------------------------

  /**
   * Hero and opponent cannot both win the same half: their shares add up
   * to at most the pot, and to all of it when neither half is tied.
   */
  lemma HalfPotsShare(h1: int, h2: int, b1: int, b2: int)
    ensures HalfPots(h1, h2, b1, b2) + HalfPots(h2, h1, b2, b1) <= 1.0
    ensures h1 != h2 && b1 != b2 ==> HalfPots(h1, h2, b1, b2) + HalfPots(h2, h1, b2, b1) == 1.0
  {
  }

  /** k rounds that each win at most the whole pot win at most k pots. */
  lemma {:induction false} SumSharesBound(share: nat -> real, k: nat, pos: nat)
    requires forall t :: 0.0 <= share(t) <= 1.0
    ensures 0.0 <= SumShares(share, k, pos) <= k as real
  {
    if k > 0 {
      SumSharesBound(share, k - 1, pos + 4);
    }
  }

  lemma PotWinsBound(my: seq<Card>, k: nat, draws: Draws, pos: nat)
    requires |my| == 4
    ensures 0.0 <= PotWins(my, k, draws, pos) <= k as real
  {
    SumSharesBound(ShareAt(my, draws), k, pos);
  }

  /** The bonus never lowers an equity and never lifts one above 1. */
  lemma BonusBounds(cat: int, v: real)
    requires 0.0 <= v <= 1.0
    ensures Bonus(cat, Eq(v)).Eq? && v <= Bonus(cat, Eq(v)).val <= 1.0
    ensures cat < 6 || v < 0.5 ==> Bonus(cat, Eq(v)) == Eq(v)
  {
  }

  /** A total of at most n pots over n rounds is a ratio between 0 and 1. */
  lemma RatioBound(total: real, n: int)
    requires n > 0 && 0.0 <= total <= n as real
    ensures Ratio(total, n).Eq? && 0.0 <= Ratio(total, n).val <= 1.0
  {
    var q := total / n as real;
    assert q * n as real == total;
  }

  /** With at least one round the equity is a number between 0 and 1. */
  lemma EquityRange(my: seq<Card>, iters: int, draws: Draws, pos: nat)
    requires |my| == 4 && iters > 0
    ensures HiDuGiEquity(my, iters, draws, pos).Eq?
    ensures 0.0 <= HiDuGiEquity(my, iters, draws, pos).val <= 1.0
  {
    var total := PotWins(my, iters, draws, pos);
    PotWinsBound(my, iters, draws, pos);
    RatioBound(total, iters);
    BonusBounds(HighScore4(my) / Weight4, total / iters as real);
  }

  /** With no rounds the equity is NaN (0/0); a negative count gives 0. */
  lemma NoRounds(my: seq<Card>, iters: int, draws: Draws, pos: nat)
    requires |my| == 4 && iters <= 0
    ensures iters == 0 ==> HiDuGiEquity(my, iters, draws, pos) == NaN
    ensures iters < 0 ==> HiDuGiEquity(my, iters, draws, pos) == Eq(0.0)
  {
    assert PotWins(my, RoundCount(iters), draws, pos) == 0.0;
    var r := Ratio(0.0, iters);
    assert r == if iters == 0 then NaN else Eq(0.0);
    assert Bonus(HighScore4(my) / Weight4, r) == r;
  }
}
