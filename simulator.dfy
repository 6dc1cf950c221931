/**
 * The Monte-Carlo drivers of pkg/poker/simulator.go. SimulateEquity plays
 * iters rounds of one variant against a single opponent, each from a fresh
 * deck without the hero's cards, and returns (wins + ties/2) / iters;
 * HiDuGi is handed to its split-pot simulation. PickBestGame runs it for
 * six variants in a fixed order and keeps the first one whose equity no
 * later variant beats.
 *
 * Every round of every variant reads the one random stream in turn, so the
 * stream position is threaded through all the simulations.
 */
module Simulator {
  import opened Wrappers
  import opened Cards
  import opened Decks
  import opened Games
  import opened HiDuGiSimulator

  /** Rounds won and rounds tied. */
  datatype Tally = Tally(wins: nat, ties: nat)

  function Plus(a: Tally, b: Tally): Tally
  {
    Tally(a.wins + b.wins, a.ties + b.ties)
  }

  /**
   * A round of g can be played without a panic: the deck left after the
   * hero's cards has the cards CompleteHand draws, and the variants whose
   * evaluators need exact hand sizes get them.
   */
  predicate Playable(g: Game, my: seq<Card>)
  {
    DrawCount(g, my) <= |RoundDeck(my)| && (g.DrawmahaHi? || g.HiDuGiGame? ==> |my| == 4)
  }

  /** Every variant is playable with a 4-card hand: at least 48 cards stay in the deck. */
  lemma FourCardsPlayable(g: Game, my: seq<Card>)
    requires |my| == 4
    ensures Playable(g, my)
  {
    RoundDeckSize(my);
  }

  /** One round's outcome from the two scores: a win, a tie, or a loss. */
  function Outcome(myScore: int, oppScore: int): (t: Tally)
    ensures t.wins + t.ties <= 1
    ensures t.wins == 1 <==> myScore > oppScore
    ensures t.ties == 1 <==> myScore == oppScore
  {
    if myScore > oppScore then Tally(1, 0)
    else if myScore == oppScore then Tally(0, 1)
    else Tally(0, 0)
  }

  /** A win for one side is a loss for the other, and a tie is a tie for both. */
  lemma OutcomeSwap(a: int, b: int)
    ensures Outcome(a, b).wins + Outcome(b, a).wins + Outcome(a, b).ties == 1
    ensures Outcome(a, b).ties == Outcome(b, a).ties
  {
  }

  /** The outcome of the round of g that reads the random stream from pos. */
  function RoundOutcome(g: Game, my: seq<Card>, draws: Draws, pos: nat): Tally
    requires Playable(g, my)
  {
    var d := DealFrom(g, my, RoundDeck(my), draws, pos);
    Outcome(Score(g, d.mine), Score(g, d.opp))
  }

  /** The outcome of the round starting at stream position t; rounds are only played when Playable holds. */
  function RoundAt(g: Game, my: seq<Card>, draws: Draws): nat -> Tally
  {
    (t: nat) => if Playable(g, my) then RoundOutcome(g, my, draws, t) else Tally(0, 0)
  }

  /** The tallies of k rounds whose streams start at pos, pos + step, pos + 2 * step, ... */
  function Tallies(round: nat -> Tally, k: nat, pos: nat, step: nat): Tally
  {
    if k == 0 then Tally(0, 0) else Plus(round(pos), Tallies(round, k - 1, pos + step, step))
  }

  /** wins and ties after k rounds of g from stream position pos. */
  function Rounds(g: Game, my: seq<Card>, k: nat, draws: Draws, pos: nat): Tally
  {
    Tallies(RoundAt(g, my, draws), k, pos, DrawCount(g, my))
  }

  /** (float64(wins) + float64(ties)/2) / float64(iters), with 0/0 as NaN. */
  function EquityOf(t: Tally, iters: int): Equity
  {
    if iters == 0 then NaN else Eq((t.wins as real + t.ties as real / 2.0) / iters as real)
  }

  /** What SimulateEquity returns. */
  function SimEquity(g: Game, my: seq<Card>, iters: int, draws: Draws, pos: nat): Equity
    requires g.HiDuGiGame? ==> |my| == 4
  {
    if g.HiDuGiGame? then HiDuGiEquity(my, iters, draws, pos)
    else EquityOf(Rounds(g, my, RoundCount(iters), draws, pos), iters)
  }

  /** The stream position after SimulateEquity of g from pos. */
  function PosAfter(g: Game, my: seq<Card>, iters: int, pos: nat): nat
  {
    pos + DrawCount(g, my) * RoundCount(iters)
  }

  /**
   * round gives, for every stream position, the outcome of the round of g
   * that reads the stream from there. The link is only used where a
   * RoundOutcome term is already present, so that round stays abstract in
   * the loop of SimulateEquity.
   */
  ghost predicate Describes(round: nat -> Tally, g: Game, my: seq<Card>, draws: Draws)
  {
    forall p {:trigger RoundOutcome(g, my, draws, p)} :: Playable(g, my) ==> round(p) == RoundOutcome(g, my, draws, p)
  }

  /**
   * One round of the loop of SimulateEquity, simulator.go:12-15: complete
   * both hands from a fresh deck without the hero's cards and score them.
   */
  method PlayRound(g: Game, my4: seq<Card>, draws: Draws, pos: nat, ghost round: nat -> Tally) returns (myScore: int, oppScore: int)
    requires Playable(g, my4) && Describes(round, g, my4, draws)
    ensures round(pos) == Outcome(myScore, oppScore)
  {
    var full := FullDeck();
    var mySet := ToSet(my4);
    var deck, n := RemoveCards(full, mySet);
    assert deck[0..n] == RoundDeck(my4);
    var myHand, oppHand, board, restLo, pos' := CompleteHand(g, my4, deck, 0, n, draws, pos);
    myScore := Evaluate(g, myHand, board);
    oppScore := Evaluate(g, oppHand, board);
    assert Outcome(myScore, oppScore) == RoundOutcome(g, my4, draws, pos);
  }

  /**
   * The loop of SimulateEquity, simulator.go:11-21: iters rounds of g that
   * count the hero's wins and ties, each reading the stream after the last.
   */
  method PlayRounds(g: Game, my4: seq<Card>, iters: int, draws: Draws, pos: nat, ghost round: nat -> Tally)
    returns (wins: nat, ties: nat, pos': nat)
    requires iters > 0 ==> Playable(g, my4)
    requires Describes(round, g, my4, draws)
    ensures wins == Tallies(round, RoundCount(iters), pos, DrawCount(g, my4)).wins
    ensures ties == Tallies(round, RoundCount(iters), pos, DrawCount(g, my4)).ties
    ensures pos' == PosAfter(g, my4, iters, pos)
  {
    wins, ties := 0, 0;
    ghost var rounds := RoundCount(iters);
    var step := DrawCount(g, my4);
    ghost var left := rounds;
    pos' := pos;
    var i := 0;
    while i < iters
      invariant 0 <= i <= rounds && left == rounds - i && pos' == pos + step * i
      invariant wins + Tallies(round, left, pos', step).wins == Tallies(round, rounds, pos, step).wins
      invariant ties + Tallies(round, left, pos', step).ties == Tallies(round, rounds, pos, step).ties
    {
      var myScore, oppScore := PlayRound(g, my4, draws, pos', round);
      TallyStep(round, left, pos', step, myScore, oppScore);
      if myScore > oppScore {
        wins := wins + 1;
      } else if myScore == oppScore {
        ties := ties + 1;
      }
      assert step * (i + 1) == step * i + step;
      pos' := pos' + step;
      i := i + 1;
      left := left - 1;
    }
    assert left == 0 && Tallies(round, left, pos', step) == Tally(0, 0);
  }

  /** SimulateEquity, simulator.go:4-23; pos' is the next position of the random stream. */
  method SimulateEquity(g: Game, my4: seq<Card>, iters: int, draws: Draws, pos: nat) returns (equity: Equity, pos': nat)
    requires g.HiDuGiGame? ==> |my4| == 4
    requires iters > 0 ==> Playable(g, my4)
    ensures equity == SimEquity(g, my4, iters, draws, pos)
    ensures pos' == PosAfter(g, my4, iters, pos)
  {
    if g.HiDuGiGame? {
      equity, pos' := SimulateHiDuGiEquity(my4, iters, draws, pos);
    } else {
      equity, pos' := SimulateRounds(g, my4, iters, draws, pos);
    }
  }

  /** The variants other than HiDuGi, simulator.go:10-22: play the rounds, then (wins + ties/2) / iters. */
  method SimulateRounds(g: Game, my4: seq<Card>, iters: int, draws: Draws, pos: nat) returns (equity: Equity, pos': nat)
    requires iters > 0 ==> Playable(g, my4)
    ensures equity == EquityOf(Rounds(g, my4, RoundCount(iters), draws, pos), iters)
    ensures pos' == PosAfter(g, my4, iters, pos)
  {
    var wins, ties;
    wins, ties, pos' := PlayRounds(g, my4, iters, draws, pos, RoundAt(g, my4, draws));
    equity := if iters == 0 then NaN else Eq((wins as real + ties as real / 2.0) / iters as real);
  }

  /** Peeling the first of left rounds off a tally, when that round's scores are a and b. */
  lemma TallyStep(round: nat -> Tally, left: nat, p: nat, step: nat, a: int, b: int)
    requires left > 0 && round(p) == Outcome(a, b)
    ensures Tallies(round, left, p, step).wins == (if a > b then 1 else 0) + Tallies(round, left - 1, p + step, step).wins
    ensures Tallies(round, left, p, step).ties == (if a == b then 1 else 0) + Tallies(round, left - 1, p + step, step).ties
  {
  }

  // ---------------------------------------------------------------------
  // What the equity means
  // ---------------------------------------------------------------------

  /** Rounds that each score at most one win or tie score at most k over k rounds. */
  lemma {:induction false} TalliesBound(round: nat -> Tally, k: nat, pos: nat, step: nat)
    requires forall t :: round(t).wins + round(t).ties <= 1
    ensures Tallies(round, k, pos, step).wins + Tallies(round, k, pos, step).ties <= k
  {
    if k > 0 {
      TalliesBound(round, k - 1, pos + step, step);
    }
  }

  /** Rounds that are all ties add up to k ties and no win. */
  lemma {:induction false} TalliesAllTies(round: nat -> Tally, k: nat, pos: nat, step: nat)
    requires forall t :: round(t) == Tally(0, 1)
    ensures Tallies(round, k, pos, step) == Tally(0, k)
  {
    if k > 0 {
      TalliesAllTies(round, k - 1, pos + step, step);
    }
  }

  /** A tally of at most n rounds over n > 0 rounds is an equity between 0 and 1. */
  lemma EquityOfBound(t: Tally, n: int)
    requires n > 0 && t.wins + t.ties <= n
    ensures EquityOf(t, n).Eq? && 0.0 <= EquityOf(t, n).val <= 1.0
  {
    var total := t.wins as real + t.ties as real / 2.0;
    assert 0.0 <= total <= n as real;
    assert EquityOf(t, n) == Ratio(total, n);
    RatioBound(total, n);
  }

  /** With at least one round, every variant's equity is a number between 0 and 1. */
  lemma EquityRange(g: Game, my: seq<Card>, iters: int, draws: Draws, pos: nat)
    requires (g.HiDuGiGame? ==> |my| == 4) && iters > 0
    ensures SimEquity(g, my, iters, draws, pos).Eq?
    ensures 0.0 <= SimEquity(g, my, iters, draws, pos).val <= 1.0
  {
    if g.HiDuGiGame? {
      HiDuGiSimulator.EquityRange(my, iters, draws, pos);
    } else {
      TalliesBound(RoundAt(g, my, draws), iters, pos, DrawCount(g, my));
      EquityOfBound(Rounds(g, my, iters, draws, pos), iters);
    }
  }

  /** A stub variant scores every hand 0, so every round is a tie and the equity is one half. */
  lemma StubEquity(name: string, my: seq<Card>, iters: int, draws: Draws, pos: nat)
    requires iters > 0 && Playable(StubGame(name), my)
    ensures SimEquity(StubGame(name), my, iters, draws, pos) == Eq(0.5)
  {
    var g := StubGame(name);
    TalliesAllTies(RoundAt(g, my, draws), iters, pos, DrawCount(g, my));
    AllTiesIsHalf(iters);
  }

  /** n ties out of n rounds is an equity of one half. */
  lemma AllTiesIsHalf(n: int)
    requires n > 0
    ensures EquityOf(Tally(0, n), n) == Eq(0.5)
  {
    var r := n as real;
    assert (0 as real + r / 2.0) / r == 0.5;
  }

  /** With no rounds the equity is NaN (0/0); a negative count gives 0. */
  lemma NoRounds(g: Game, my: seq<Card>, iters: int, draws: Draws, pos: nat)
    requires (g.HiDuGiGame? ==> |my| == 4) && iters <= 0
    ensures iters == 0 ==> SimEquity(g, my, iters, draws, pos) == NaN
    ensures iters < 0 ==> SimEquity(g, my, iters, draws, pos) == Eq(0.0)
  {
    if g.HiDuGiGame? {
      HiDuGiSimulator.NoRounds(my, iters, draws, pos);
    } else {
      var t := Rounds(g, my, RoundCount(iters), draws, pos);
      assert t == Tally(0, 0);
      assert EquityOf(t, iters) == if iters == 0 then NaN else Eq(0.0 / iters as real);
    }
  }

  // ---------------------------------------------------------------------
  // PickBestGame
  // ---------------------------------------------------------------------

  /** The variants PickBestGame compares, in its order: HiDuGi first, so that it wins ties. */
  function Menu(): (gs: seq<Game>)
    ensures |gs| == 6 && gs[0] == HiDuGiGame
  {
    [HiDuGiGame, DrawmahaHi, BadugiGame, StubGame("Drawmaha-2-7"), StubGame("Prime"), StubGame("Omaha DoubleBoard")]
  }

  /** The variants of the menu have different names, so each has its own entry in the equity map. */
  lemma MenuNamesDistinct()
    ensures forall i, j :: 0 <= i < j < |Menu()| ==> Name(Menu()[i]) != Name(Menu()[j])
  {
    var gs := Menu();
    assert Name(gs[0]) == "HiDuGi" && Name(gs[1]) == "Drawmaha-Hi" && Name(gs[2]) == "Badugi";
    assert Name(gs[3]) == "Drawmaha-2-7" && Name(gs[4]) == "Prime" && Name(gs[5]) == "Omaha DoubleBoard";
  }

  /** `eq > equities[best.Name()]` on float64: false whenever either side is NaN. */
  predicate Greater(a: Equity, b: Equity)
  {
    a.Eq? && b.Eq? && a.val > b.val
  }

  /**
   * The equity SimulateEquity computes for variant g from stream position
   * p. The guard only keeps the function total: PickBestGame is called
   * with a 4-card hand.
   */
  function SimAt(my: seq<Card>, iters: int, draws: Draws): (Game, nat) -> Equity
  {
    (g: Game, p: nat) => if |my| == 4 then SimEquity(g, my, iters, draws, p) else NaN
  }

  /**
   * sim gives what SimulateEquity returns for each variant and stream
   * position. The link is only used where a SimEquity term is already
   * present, so that sim stays abstract in the loop of PickBestGame.
   */
  ghost predicate Simulates(sim: (Game, nat) -> Equity, my: seq<Card>, iters: int, draws: Draws)
  {
    forall g, p {:trigger SimEquity(g, my, iters, draws, p)} :: |my| == 4 ==> sim(g, p) == SimEquity(g, my, iters, draws, p)
  }

  /** The stream position at which variant k of gs starts when the first starts at pos. */
  function PosAt(gs: seq<Game>, my: seq<Card>, iters: int, pos: nat, k: nat): nat
    requires k <= |gs|
  {
    if k == 0 then pos else PosAfter(gs[k - 1], my, iters, PosAt(gs, my, iters, pos, k - 1))
  }

  /** The equities of the variants gs, simulated one after the other from stream position pos. */
  function Results(gs: seq<Game>, sim: (Game, nat) -> Equity, my: seq<Card>, iters: int, pos: nat): (rs: seq<Equity>)
    ensures |rs| == |gs|
  {
    seq(|gs|, i requires 0 <= i < |gs| => sim(gs[i], PosAt(gs, my, iters, pos, i)))
  }

  /**
   * The index the scan of PickBestGame settles on, from index i on with
   * index b kept so far: it moves to a later index only when that equity
   * is strictly greater.
   */
  function BestFrom(rs: seq<Equity>, i: nat, b: nat): (r: nat)
    requires b < i <= |rs|
    decreases |rs| - i
    ensures b <= r < |rs|
  {
    if i == |rs| then b
    else BestFrom(rs, i + 1, if Greater(rs[i], rs[b]) then i else b)
  }

  /** The scan starts with the first variant: `best == nil` takes it unconditionally. */
  function BestIndex(rs: seq<Equity>): nat
    requires |rs| > 0
  {
    BestFrom(rs, 1, 0)
  }

  /**
   * When every equity is a number, the scan ends on the first index of a
   * maximum: nothing is larger, and everything before it is smaller.
   */
  lemma {:induction false} BestFromIsFirstMax(rs: seq<Equity>, i: nat, b: nat)
    requires b < i <= |rs| && forall j :: 0 <= j < |rs| ==> rs[j].Eq?
    requires forall j :: 0 <= j < i ==> rs[j].val <= rs[b].val
    requires forall j :: 0 <= j < b ==> rs[j].val < rs[b].val
    decreases |rs| - i
    ensures forall j :: 0 <= j < |rs| ==> rs[j].val <= rs[BestFrom(rs, i, b)].val
    ensures forall j :: 0 <= j < BestFrom(rs, i, b) ==> rs[j].val < rs[BestFrom(rs, i, b)].val
  {
    if i < |rs| {
      var b' := if Greater(rs[i], rs[b]) then i else b;
      BestFromIsFirstMax(rs, i + 1, b');
    }
  }

  /** When the first equity is NaN, no comparison succeeds and the scan keeps the first index. */
  lemma {:induction false} BestFromKeepsNaN(rs: seq<Equity>, i: nat, b: nat)
    requires b < i <= |rs| && rs[b] == NaN
    decreases |rs| - i
    ensures BestFrom(rs, i, b) == b
  {
    if i < |rs| {
      BestFromKeepsNaN(rs, i + 1, b);
    }
  }

  /** SimulateEquity of one variant of the menu, as sim describes it. */
  method SimulateVariant(g: Game, my4: seq<Card>, iters: int, draws: Draws, pos: nat, ghost sim: (Game, nat) -> Equity)
    returns (equity: Equity, pos': nat)
    requires |my4| == 4 && Simulates(sim, my4, iters, draws)
    ensures equity == sim(g, pos)
    ensures pos' == PosAfter(g, my4, iters, pos)
  {
    FourCardsPlayable(g, my4);
    equity, pos' := SimulateEquity(g, my4, iters, draws, pos);
  }

  /** The map of equities after recording vals[i] under names[i] for every i < k, in order. */
  function Recorded(names: seq<string>, vals: seq<Equity>, k: nat): map<string, Equity>
    requires k <= |names| && k <= |vals|
  {
    if k == 0 then map[] else Recorded(names, vals, k - 1)[names[k - 1] := vals[k - 1]]
  }

  /** With names all different, each of the first k names maps to its own value and nothing else is a key. */
  lemma {:induction false} RecordedEntries(names: seq<string>, vals: seq<Equity>, k: nat)
    requires k <= |names| && k <= |vals|
    requires forall i, j :: 0 <= i < j < k ==> names[i] != names[j]
    ensures Recorded(names, vals, k).Keys == set i | 0 <= i < k :: names[i]
    ensures forall i :: 0 <= i < k ==> Recorded(names, vals, k)[names[i]] == vals[i]
  {
    if k > 0 {
      RecordedEntries(names, vals, k - 1);
      assert (set i | 0 <= i < k :: names[i]) == (set i | 0 <= i < k - 1 :: names[i]) + {names[k - 1]};
    }
  }

  /**
   * The loop of PickBestGame, simulator.go:36-42, over the variants games
   * whose names, all different, are names: simulate each in order, record
   * its equity under its name, and keep the first variant no later one
   * beats.
   */
  method PickFrom(games: seq<Game>, names: seq<string>, my4: seq<Card>, iters: int, draws: Draws, pos: nat, ghost sim: (Game, nat) -> Equity)
    returns (best: Game, equities: map<string, Equity>, pos': nat)
    requires |games| > 0 && |names| == |games| && |my4| == 4 && Simulates(sim, my4, iters, draws)
    requires forall i, j :: 0 <= i < j < |names| ==> names[i] != names[j]
    ensures equities.Keys == set i | 0 <= i < |names| :: names[i]
    ensures forall i :: 0 <= i < |games| ==> equities[names[i]] == Results(games, sim, my4, iters, pos)[i]
    ensures best == games[BestIndex(Results(games, sim, my4, iters, pos))]
    ensures pos' == PosAt(games, my4, iters, pos, |games|)
  {
    ghost var all := Results(games, sim, my4, iters, pos);
    equities := map[];
    var chosen: Option<nat> := None;
    pos' := pos;
    for k := 0 to |games|
      invariant pos' == PosAt(games, my4, iters, pos, k)
      invariant equities == Recorded(names, all, k)
      invariant k == 0 <==> chosen == None
      invariant chosen.Some? ==> chosen.value < k && BestFrom(all, k, chosen.value) == BestIndex(all)
    {
      var eq;
      eq, pos' := SimulateVariant(games[k], my4, iters, draws, pos', sim);
      equities := equities[names[k] := eq];
      RecordedEntries(names, all, k + 1);
      if chosen == None || Greater(eq, equities[names[chosen.value]]) {
        chosen := Some(k);
      }
    }
    RecordedEntries(names, all, |games|);
    best := games[chosen.value];
  }

  /** The names of the variants of the menu, the keys of PickBestGame's map. */
  function MenuNames(): (names: seq<string>)
    ensures |names| == |Menu()| && forall i :: 0 <= i < |names| ==> names[i] == Name(Menu()[i])
  {
    seq(|Menu()|, i requires 0 <= i < |Menu()| => Name(Menu()[i]))
  }

  /**
   * PickBestGame, simulator.go:26-44: simulates every variant of the menu in
   * order, records its equity under its name, and keeps the first variant
   * no later one beats. pos' is the next position of the random stream.
   */
  method PickBestGame(my4: seq<Card>, iters: int, draws: Draws, pos: nat)
    returns (best: Game, equities: map<string, Equity>, pos': nat)
    requires |my4| == 4
    ensures equities.Keys == set i | 0 <= i < |Menu()| :: Name(Menu()[i])
    ensures forall i :: 0 <= i < |Menu()| ==> equities[Name(Menu()[i])] == Results(Menu(), SimAt(my4, iters, draws), my4, iters, pos)[i]
    ensures best == Menu()[BestIndex(Results(Menu(), SimAt(my4, iters, draws), my4, iters, pos))]
    ensures pos' == PosAt(Menu(), my4, iters, pos, |Menu()|)
  {
    var games := Menu();
    var names := MenuNames();
    MenuNamesDistinct();
    best, equities, pos' := PickFrom(games, names, my4, iters, draws, pos, SimAt(my4, iters, draws));
  }

  /** b is the first index of a maximum of rs, all of whose entries are numbers. */
  predicate FirstMax(rs: seq<Equity>, b: nat)
  {
    b < |rs| && (forall j :: 0 <= j < |rs| ==> rs[j].Eq?)
    && (forall j :: 0 <= j < |rs| ==> rs[j].val <= rs[b].val)
    && (forall j :: 0 <= j < b ==> rs[j].val < rs[b].val)
  }

  /** With a nonzero number of rounds SimulateEquity returns a number for every variant. */
  lemma SimAtNumbers(my: seq<Card>, iters: int, draws: Draws)
    requires |my| == 4 && iters != 0
    ensures forall g, p :: SimAt(my, iters, draws)(g, p).Eq?
  {
    forall g, p ensures SimAt(my, iters, draws)(g, p).Eq? {
      if iters > 0 {
        EquityRange(g, my, iters, draws, p);
      } else {
        NoRounds(g, my, iters, draws, p);
      }
    }
  }

  /** When every equity is a number, the scan of PickBestGame ends on the first index of a maximum. */
  lemma BestIndexIsFirstMax(rs: seq<Equity>)
    requires |rs| > 0 && forall j :: 0 <= j < |rs| ==> rs[j].Eq?
    ensures FirstMax(rs, BestIndex(rs))
  {
    BestFromIsFirstMax(rs, 1, 0);
  }

  /** A run of variants under a sim that only returns numbers has only numbers. */
  lemma ResultsAreNumbers(gs: seq<Game>, sim: (Game, nat) -> Equity, my: seq<Card>, iters: int, pos: nat)
    requires forall g, p :: sim(g, p).Eq?
    ensures forall j :: 0 <= j < |gs| ==> Results(gs, sim, my, iters, pos)[j].Eq?
  {
    forall j | 0 <= j < |gs|
      ensures Results(gs, sim, my, iters, pos)[j].Eq?
    {
      assert Results(gs, sim, my, iters, pos)[j] == sim(gs[j], PosAt(gs, my, iters, pos, j));
    }
  }

  /**
   * With a nonzero number of rounds every equity is a number, and the
   * variant picked has the largest equity, ahead of any earlier variant
   * that only ties it.
   */
  lemma PickedIsFirstMax(my: seq<Card>, iters: int, draws: Draws, pos: nat)
    requires |my| == 4 && iters != 0
    ensures var rs := Results(Menu(), SimAt(my, iters, draws), my, iters, pos);
      FirstMax(rs, BestIndex(rs))
  {
    SimAtNumbers(my, iters, draws);
    ResultsAreNumbers(Menu(), SimAt(my, iters, draws), my, iters, pos);
    BestIndexIsFirstMax(Results(Menu(), SimAt(my, iters, draws), my, iters, pos));
  }

  /** With zero rounds every equity is NaN and HiDuGi, the first variant, is picked. */
  lemma ZeroRoundsPicksHiDuGi(my: seq<Card>, draws: Draws, pos: nat)
    requires |my| == 4
    ensures Menu()[BestIndex(Results(Menu(), SimAt(my, 0, draws), my, 0, pos))] == HiDuGiGame
  {
    var rs := Results(Menu(), SimAt(my, 0, draws), my, 0, pos);
    NoRounds(HiDuGiGame, my, 0, draws, pos);
    assert rs[0] == SimAt(my, 0, draws)(Menu()[0], PosAt(Menu(), my, 0, pos, 0));
    BestFromKeepsNaN(rs, 1, 0);
  }
}
