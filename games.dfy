/**
 * The game variants of pkg/poker/game.go. Each variant has a name, a way to
 * complete the hero's hand and deal the opponent's from a deck, and a score
 * for a completed hand (higher is better). No variant uses a board.
 */
module Games {
  import opened Cards
  import opened Decks
  import opened HighHand
  import opened Badugi

  datatype Game = DrawmahaHi | BadugiGame | HiDuGiGame | StubGame(nameStr: string)

  /** Game.Name: each built-in variant is identified by its name. */
  function Name(g: Game): (r: string)
    ensures !g.StubGame? ==> (r == "HiDuGi" <==> g == HiDuGiGame)
    ensures !g.StubGame? ==> (r == "Badugi" <==> g == BadugiGame)
    ensures !g.StubGame? ==> (r == "Drawmaha-Hi" <==> g == DrawmahaHi)
    ensures g.StubGame? ==> r == g.nameStr
  {
    match g
    case DrawmahaHi => "Drawmaha-Hi"
    case BadugiGame => "Badugi"
    case HiDuGiGame => "HiDuGi"
    case StubGame(nameStr) => nameStr
  }

  /** How many cards CompleteHand takes from the deck in all. */
  function DrawCount(g: Game, my: seq<Card>): nat
  {
    match g
    case DrawmahaHi => 6
    case BadugiGame => 4
    case HiDuGiGame => 4
    case StubGame(_) => |my|
  }

  /** The three hands CompleteHand returns besides the rest of the deck. */
  datatype Deal = Deal(mine: seq<Card>, opp: seq<Card>, board: seq<Card>)

  /**
   * What CompleteHand deals from a deck window s, as one partial shuffle of
   * DrawCount cards. For Drawmaha-Hi the first card goes to the hero and
   * the next five to the opponent; the other games give the opponent all
   * the cards drawn and leave the hero's hand as it is.
   */
  function DealFrom(g: Game, my: seq<Card>, s: seq<Card>, draws: Draws, pos: nat): (d: Deal)
    requires DrawCount(g, my) <= |s|
    ensures d.board == []
    ensures |d.opp| == (if g.DrawmahaHi? then 5 else DrawCount(g, my))
    ensures |d.mine| == |my| + (if g.DrawmahaHi? then 1 else 0) && d.mine[..|my|] == my
  {
    var t := Shuffle(s, DrawCount(g, my), draws, pos);
    if g.DrawmahaHi? then Deal(my + t[..1], t[1..6], [])
    else Deal(my, t[..DrawCount(g, my)], [])
  }

  lemma SliceOfSlice(a: seq<Card>, lo: nat, hi: nat, i: nat, j: nat)
    requires lo <= hi <= |a| && i <= j <= hi - lo
    ensures a[lo..hi][i..j] == a[lo + i..lo + j]
  {
    assert forall k :: 0 <= k < j - i ==> a[lo..hi][i..j][k] == a[lo + i + k];
  }

  /**
   * The array contents before (a0), between (a1) and after (a2) the two
   * draws of DrawmahaHi.CompleteHand: together they are one partial
   * shuffle of six cards of the window.
   */
  lemma TwoDraws(a0: seq<Card>, a1: seq<Card>, a2: seq<Card>, lo: nat, hi: nat, m: nat, draws: Draws, pos: nat)
    requires lo <= hi <= |a0| && |a1| == |a0| && |a2| == |a0| && 1 + m <= hi - lo
    requires a1[..lo] == a0[..lo] && a1[hi..] == a0[hi..]
    requires a1[lo..hi] == Shuffle(a0[lo..hi], 1, draws, pos)
    requires a2[..lo + 1] == a1[..lo + 1] && a2[hi..] == a1[hi..]
    requires a2[lo + 1..hi] == Shuffle(a1[lo + 1..hi], m, draws, pos + 1)
    ensures a2[..lo] == a0[..lo] && a2[hi..] == a0[hi..]
    ensures a2[lo..hi] == Shuffle(a0[lo..hi], 1 + m, draws, pos)
    ensures a1[lo..lo + 1] == a2[lo..hi][..1]
  {
    var t := a1[lo..hi];
    assert a2[..lo] == a0[..lo] by {
      assert a2[..lo] == a2[..lo + 1][..lo] && a1[..lo] == a1[..lo + 1][..lo];
    }
    assert a2[lo] == t[0] by {
      assert a2[..lo + 1][lo] == a1[..lo + 1][lo];
    }
    SliceOfSlice(a1, lo, hi, 1, hi - lo);
    SliceOfSlice(a2, lo, hi, 1, hi - lo);
    assert a2[lo..hi] == [a2[lo..hi][0]] + a2[lo..hi][1..];
    DrawOneThenMore(a0[lo..hi], m, draws, pos);
    SliceOfSlice(a1, lo, hi, 0, 1);
    SliceOfSlice(a2, lo, hi, 0, 1);
  }

  /**
   * DrawmahaHi.CompleteHand on the deck window deck[lo..hi]: one card for
   * the hero, then five for the opponent from deck[1:], which is the same
   * array one position further on.
   */
  method DealDrawmaha(my: seq<Card>, deck: array<Card>, lo: nat, hi: nat, draws: Draws, pos: nat)
    returns (mine: seq<Card>, opp: seq<Card>, restLo: nat)
    requires lo <= hi <= deck.Length && 6 <= hi - lo
    modifies deck
    ensures deck[..lo] == old(deck[..lo]) && deck[hi..] == old(deck[hi..])
    ensures deck[lo..hi] == Shuffle(old(deck[lo..hi]), 6, draws, pos)
    ensures mine == my + deck[lo..hi][..1] && opp == deck[lo..hi][1..6] && restLo == lo + 6
  {
    ghost var a0 := deck[..];
    var drawn, rest := DrawRandom(deck, lo, hi, 1, draws, pos);
    ghost var a1 := deck[..];
    mine := my + drawn;
    opp, restLo := DrawRandom(deck, rest, hi, 5, draws, pos + 1);
    TwoDraws(a0, a1, deck[..], lo, hi, 5, draws, pos);
    SliceOfSlice(deck[..], lo, hi, 1, 6);
  }

  /** Game.CompleteHand on the deck window deck[lo..hi], the slice it is given. */
  method CompleteHand(g: Game, my: seq<Card>, deck: array<Card>, lo: nat, hi: nat, draws: Draws, pos: nat)
    returns (mine: seq<Card>, opp: seq<Card>, board: seq<Card>, restLo: nat, pos': nat)
    requires lo <= hi <= deck.Length && DrawCount(g, my) <= hi - lo
    modifies deck
    ensures deck[..lo] == old(deck[..lo]) && deck[hi..] == old(deck[hi..])
    ensures deck[lo..hi] == Shuffle(old(deck[lo..hi]), DrawCount(g, my), draws, pos)
    ensures Deal(mine, opp, board) == DealFrom(g, my, old(deck[lo..hi]), draws, pos)
    ensures restLo == lo + DrawCount(g, my) && pos' == pos + DrawCount(g, my)
  {
    board := [];
    var n := DrawCount(g, my);
    if g.DrawmahaHi? {
      mine, opp, restLo := DealDrawmaha(my, deck, lo, hi, draws, pos);
    } else {
      mine := my;
      opp, restLo := DrawRandom(deck, lo, hi, n, draws, pos);
      assert opp == deck[lo..hi][..n];
    }
    pos' := pos + n;
  }

  /** The cards a partial shuffle of a duplicate-free deck puts in positions [a, b) are different cards of the deck. */
  lemma DrawnCards(s: seq<Card>, n: nat, draws: Draws, pos: nat, a: nat, b: nat)
    requires n <= |s| && Distinct(s) && a <= b <= |s|
    ensures var t := Shuffle(s, n, draws, pos);
      Distinct(t[a..b]) && forall c :: c in t[a..b] ==> c in s
  {
    var t := Shuffle(s, n, draws, pos);
    ShufflePermutes(s, 0, n, draws, pos);
    ShuffleKeepsDistinct(s, 0, n, draws, pos);
    forall c | c in t[a..b]
      ensures c in s
    {
      assert c in multiset(t);
    }
  }

  /**
   * A completed deal from a duplicate-free deck that holds none of the
   * hero's cards: the opponent's cards and the hero's drawn card come from
   * the deck, are different cards, and none is one the hero already held.
   */
  lemma DealCards(g: Game, my: seq<Card>, s: seq<Card>, draws: Draws, pos: nat)
    requires DrawCount(g, my) <= |s| && Distinct(s)
    requires forall c :: c in s ==> c !in my
    ensures Distinct(DealFrom(g, my, s, draws, pos).opp)
    ensures forall c :: c in DealFrom(g, my, s, draws, pos).opp ==>
      c in s && c !in DealFrom(g, my, s, draws, pos).mine
    ensures g.DrawmahaHi? ==>
      (DealFrom(g, my, s, draws, pos).mine[|my|] in s && DealFrom(g, my, s, draws, pos).mine[|my|] !in my)
  {
    var n := DrawCount(g, my);
    var t := Shuffle(s, n, draws, pos);
    var d := DealFrom(g, my, s, draws, pos);
    if g.DrawmahaHi? {
      DrawnCards(s, n, draws, pos, 0, 6);
      assert d.opp == t[0..6][1..] && d.mine == my + [t[0..6][0]];
      forall c | c in d.opp
        ensures c !in d.mine
      {
        var k :| 0 <= k < 5 && d.opp[k] == c;
        assert c == t[0..6][1 + k];
      }
    } else {
      DrawnCards(s, n, draws, pos, 0, n);
      assert d.opp == t[0..n];
    }
  }

  // ---------------------------------------------------------------------
  // Scores
  // ---------------------------------------------------------------------

  /** The hands a variant's Evaluate accepts without panicking. */
  predicate Evaluable(g: Game, hand: seq<Card>)
  {
    match g
    case DrawmahaHi => |hand| == 5
    case HiDuGiGame => |hand| == 4
    case _ => true
  }

  /** The HiDuGi bonus added to an 8-or-better hand. */
  const QualifierBonus: int := 10000000

  /**
   * HiDuGiGame.Evaluate: an 8-or-better Badugi adds the normalised Badugi
   * score and a bonus of ten million to the 4-card high score; otherwise a
   * high category of 6 or more triples the high score, and a tenth of the
   * normalised Badugi score is added. Every operand is positive, so Go's
   * truncating division agrees with Dafny's.
   */
  function HiDuGiScore(hand: seq<Card>): int
    requires |hand| == 4
  {
    var high := HighScore4(hand);
    var normalized := BadugiScore(hand) / 1000000000000;
    if EightOrBetter(hand) then high + normalized + QualifierBonus
    else if high / Weight4 >= 6 then high * 3 + normalized / 10
    else high + normalized / 10
  }

  /** Game.Evaluate: the score of a completed hand; the board is unused by every variant. */
  function Score(g: Game, hand: seq<Card>): int
    requires Evaluable(g, hand)
  {
    match g
    case DrawmahaHi => HighScore5(hand)
    case BadugiGame => BadugiScore(hand)
    case HiDuGiGame => HiDuGiScore(hand)
    case StubGame(_) => 0
  }

  /** HiDuGiGame.Evaluate, game.go:57-89, calling the evaluators. */
  method EvaluateHiDuGiGame(hand: seq<Card>) returns (score: int)
    requires |hand| == 4
    ensures score == HiDuGiScore(hand)
  {
    var highScore, badugiScore := EvaluateHiDuGi(hand);
    var has8Badugi := IsBadugi8OrBetter(hand);
    var highCategory := highScore / (13 * 13 * 13 * 13);
    var normalizedBadugi := badugiScore / 1000000000000;
    if has8Badugi {
      return highScore + normalizedBadugi + 10000000;
    }
    if highCategory >= 6 {
      return highScore * 3 + normalizedBadugi / 10;
    }
    return highScore + normalizedBadugi / 10;
  }

  /** Game.Evaluate for each variant. */
  method Evaluate(g: Game, hand: seq<Card>, board: seq<Card>) returns (score: int)
    requires Evaluable(g, hand)
    ensures score == Score(g, hand)
  {
    match g {
      case DrawmahaHi => score := Evaluate5CardHigh(hand);
      case BadugiGame => score := EvaluateBadugi(hand);
      case HiDuGiGame => score := EvaluateHiDuGiGame(hand);
      case StubGame(_) => score := 0;
    }
  }

  /** The normalised Badugi score, badugiScore / 10^12, is the same number for every hand. */
  lemma NormalizedBadugiConstant(hand: seq<Card>)
    ensures BadugiScore(hand) / 1000000000000 == 4611686
  {
    BadugiScoreRange(hand);
  }

  /** An 8-or-better hand scores its high score plus 14611686. */
  lemma QualifierScore(hand: seq<Card>)
    requires |hand| == 4 && EightOrBetter(hand)
    ensures HiDuGiScore(hand) == HighScore4(hand) + 4611686 + QualifierBonus
  {
    NormalizedBadugiConstant(hand);
  }

  /** A hand that does not qualify scores at most 3 * (9 * 13^4 - 1) + 461168. */
  lemma NonQualifierBound(hand: seq<Card>)
    requires |hand| == 4 && !EightOrBetter(hand)
    ensures 0 < HiDuGiScore(hand) <= 3 * (9 * Weight4 - 1) + 461168
  {
    NormalizedBadugiConstant(hand);
    Score4Band(hand);
  }

  /** Every 8-or-better hand outscores every hand that does not qualify. */
  lemma QualifierWins(h1: seq<Card>, h2: seq<Card>)
    requires |h1| == 4 && |h2| == 4 && EightOrBetter(h1) && !EightOrBetter(h2)
    ensures HiDuGiScore(h1) > HiDuGiScore(h2)
  {
    QualifierScore(h1);
    NonQualifierBound(h2);
  }

  /** Among hands that do not qualify, a high category of 6 or more beats every lower one. */
  lemma BoostedHighWins(h1: seq<Card>, h2: seq<Card>)
    requires |h1| == 4 && |h2| == 4 && !EightOrBetter(h1) && !EightOrBetter(h2)
    requires Category4Of(h1) >= 6 > Category4Of(h2)
    ensures HiDuGiScore(h1) > HiDuGiScore(h2)
  {
    NormalizedBadugiConstant(h1);
    NormalizedBadugiConstant(h2);
    Score4Band(h1);
    Score4Band(h2);
    Score4Split(h1);
    Score4Split(h2);
  }
}
