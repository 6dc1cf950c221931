/**
 * The Badugi side of pkg/poker/evaluator.go: the greedy selection of a
 * Badugi hand shared by EvaluateBadugi and IsBadugi8OrBetter, the score
 * EvaluateBadugi derives from it, the 8-or-better qualifier, and
 * EvaluateHiDuGi, which pairs the 4-card high score with the Badugi score.
 */
module Badugi {
  import opened Cards
  import opened Base13
  import opened HighHand

  /** math.MaxInt64 / 2, the offset the Badugi score is subtracted from. */
  const HalfMaxInt64: int := 4611686018427387903

  /** No card of cs has suit s. */
  predicate SuitFree(cs: seq<Card>, s: nat)
  {
    forall i :: 0 <= i < |cs| ==> Suit(cs[i]) != s
  }

  /** No card of cs has rank r. */
  predicate RankFree(cs: seq<Card>, r: nat)
  {
    forall i :: 0 <= i < |cs| ==> Rank(cs[i]) != r
  }

  /**
   * The selection loops of evaluator.go:111-127 from card number c on. The
   * loops visit the cards in the order r*4 + s, that is by card number, and
   * take a card when fewer than four are chosen, the hand holds it and its
   * suit and rank are both still unused.
   */
  function Select(hand: seq<Card>, c: nat, chosen: seq<Card>): (r: seq<Card>)
    requires c <= 52 && |chosen| <= 4
    decreases 52 - c
    ensures |chosen| <= |r| <= 4
  {
    if c == 52 then chosen
    else if |chosen| < 4 && (c as Card) in hand && SuitFree(chosen, Suit(c)) && RankFree(chosen, Rank(c))
    then Select(hand, c + 1, chosen + [c as Card])
    else Select(hand, c + 1, chosen)
  }

  /** The cards the greedy selection keeps. */
  function BadugiHand(hand: seq<Card>): seq<Card>
  {
    Select(hand, 0, [])
  }

  /** A Badugi: at most four cards, ascending, no two sharing a suit or a rank. */
  predicate IsBadugi(cs: seq<Card>)
  {
    && |cs| <= 4
    && (forall i, j :: 0 <= i < j < |cs| ==> cs[i] < cs[j])
    && (forall i, j :: 0 <= i < j < |cs| ==> Suit(cs[i]) != Suit(cs[j]) && Rank(cs[i]) != Rank(cs[j]))
  }

  function RankSeq(cs: seq<Card>): (v: seq<nat>)
    ensures |v| == |cs| && forall i :: 0 <= i < |cs| ==> v[i] == Rank(cs[i])
  {
    seq(|cs|, i requires 0 <= i < |cs| => Rank(cs[i]))
  }

  /**
   * The value of `score` after the loop of evaluator.go:130-134: the base
   * (4 - n) * 100000 shifted by one base-13 digit per chosen card, plus the
   * chosen ranks packed in base 13.
   */
  function RawScore(cs: seq<Card>): nat
    requires |cs| <= 4
  {
    (4 - |cs|) * 100000 * Pow13(|cs|) + Pack(RankSeq(cs))
  }

  /** What EvaluateBadugi returns. */
  function BadugiScore(hand: seq<Card>): int
  {
    HalfMaxInt64 - RawScore(BadugiHand(hand))
  }

  /** The rank IsBadugi8OrBetter compares: the Ace counts as -1, below the deuce. */
  function LowRank(c: Card): (r: int)
    ensures Rank(c) == 12 ==> r == -1
    ensures Rank(c) < 12 ==> r == Rank(c)
  {
    if Rank(c) == 12 then -1 else Rank(c)
  }

  /** What IsBadugi8OrBetter returns: four cards chosen, each an Ace or at most an 8. */
  predicate EightOrBetter(hand: seq<Card>)
  {
    var b := BadugiHand(hand);
    |b| == 4 && forall i :: 0 <= i < 4 ==> Rank(b[i]) <= 6 || Rank(b[i]) == 12
  }

  // ---------------------------------------------------------------------
  // The loops
  // ---------------------------------------------------------------------

  lemma {:induction false} SelectFull(hand: seq<Card>, c: nat, chosen: seq<Card>)
    requires c <= 52 && |chosen| == 4
    decreases 52 - c
    ensures Select(hand, c, chosen) == chosen
  {
    if c < 52 {
      SelectFull(hand, c + 1, chosen);
    }
  }

  /** The `for _, h := range hand` search of evaluator.go:117-124, without the update it guards. */
  method Take(hand: seq<Card>, c: Card, free: bool) returns (take: bool)
    ensures take <==> free && c in hand
  {
    take := false;
    for j := 0 to |hand|
      invariant !take && !(free && c in hand[..j])
    {
      if hand[j] == c && free {
        take := true;
        break;
      }
    }
  }

  /** usedSuit and usedRank mark exactly the suits and ranks of the chosen cards. */
  predicate Marks(usedSuit: seq<bool>, usedRank: seq<bool>, chosen: seq<Card>)
  {
    && |usedSuit| == 4 && |usedRank| == 13
    && (forall q :: 0 <= q < 4 ==> usedSuit[q] == !SuitFree(chosen, q))
    && (forall q :: 0 <= q < 13 ==> usedRank[q] == !RankFree(chosen, q))
  }

  lemma MarksAppend(usedSuit: seq<bool>, usedRank: seq<bool>, chosen: seq<Card>, c: Card)
    requires Marks(usedSuit, usedRank, chosen)
    ensures Marks(usedSuit[Suit(c) := true], usedRank[Rank(c) := true], chosen + [c])
  {
    var next := chosen + [c];
    forall q | 0 <= q < 4
      ensures SuitFree(next, q) == (SuitFree(chosen, q) && Suit(c) != q)
    {
      if SuitFree(chosen, q) && Suit(c) != q {
        forall i | 0 <= i < |next|
          ensures Suit(next[i]) != q
        {
          if i < |chosen| {
            assert next[i] == chosen[i];
          }
        }
      } else if !SuitFree(chosen, q) {
        var i :| 0 <= i < |chosen| && Suit(chosen[i]) == q;
        assert next[i] == chosen[i];
      } else {
        assert next[|chosen|] == c;
      }
    }
    forall q | 0 <= q < 13
      ensures RankFree(next, q) == (RankFree(chosen, q) && Rank(c) != q)
    {
      if RankFree(chosen, q) && Rank(c) != q {
        forall i | 0 <= i < |next|
          ensures Rank(next[i]) != q
        {
          if i < |chosen| {
            assert next[i] == chosen[i];
          }
        }
      } else if !RankFree(chosen, q) {
        var i :| 0 <= i < |chosen| && Rank(chosen[i]) == q;
        assert next[i] == chosen[i];
      } else {
        assert next[|chosen|] == c;
      }
    }
  }

  /** One pass of the innermost loop: card c is taken or passed over. */
  method Consider(hand: seq<Card>, c: Card, chosen: seq<Card>, usedSuit: seq<bool>, usedRank: seq<bool>)
    returns (chosen': seq<Card>, usedSuit': seq<bool>, usedRank': seq<bool>)
    requires |chosen| < 4 && Marks(usedSuit, usedRank, chosen)
    ensures Marks(usedSuit', usedRank', chosen') && |chosen'| <= 4
    ensures Select(hand, c, chosen) == Select(hand, c + 1, chosen')
  {
    chosen', usedSuit', usedRank' := chosen, usedSuit, usedRank;
    var take := Take(hand, c, !usedSuit[Suit(c)] && !usedRank[Rank(c)]);
    if take {
      MarksAppend(usedSuit, usedRank, chosen, c);
      chosen' := chosen + [c];
      usedSuit' := usedSuit[Suit(c) := true];
      usedRank' := usedRank[Rank(c) := true];
    }
  }

  /** The suit loop of evaluator.go:115-126 for one rank r. */
  method ConsiderRank(hand: seq<Card>, r: nat, chosen: seq<Card>, usedSuit: seq<bool>, usedRank: seq<bool>)
    returns (chosen': seq<Card>, usedSuit': seq<bool>, usedRank': seq<bool>)
    requires r < 13 && |chosen| < 4 && Marks(usedSuit, usedRank, chosen)
    ensures Marks(usedSuit', usedRank', chosen') && |chosen'| <= 4
    ensures Select(hand, r * 4, chosen) == Select(hand, r * 4 + 4, chosen')
  {
    chosen', usedSuit', usedRank' := chosen, usedSuit, usedRank;
    var s := 0;
    while s < 4 && |chosen'| < 4
      invariant 0 <= s <= 4 && |chosen'| <= 4 && Marks(usedSuit', usedRank', chosen')
      invariant Select(hand, r * 4, chosen) == Select(hand, r * 4 + s, chosen')
    {
      var c: Card := r * 4 + s;
      chosen', usedSuit', usedRank' := Consider(hand, c, chosen', usedSuit', usedRank');
      s := s + 1;
    }
    if |chosen'| == 4 {
      SelectFull(hand, r * 4 + s, chosen');
      SelectFull(hand, r * 4 + 4, chosen');
    }
  }

  /**
   * The selection loops of evaluator.go:111-127 (repeated as 236-252).
   * usedSuit and usedRank are Go arrays, that is values, so they are
   * sequences here.
   */
  method ChooseBadugi(hand: seq<Card>) returns (chosen: seq<Card>)
    ensures chosen == BadugiHand(hand)
  {
    chosen := [];
    var usedSuit := seq(4, _ => false);
    var usedRank := seq(13, _ => false);
    var r := 0;
    while r < 13 && |chosen| < 4
      invariant 0 <= r <= 13 && |chosen| <= 4 && Marks(usedSuit, usedRank, chosen)
      invariant Select(hand, r * 4, chosen) == BadugiHand(hand)
    {
      chosen, usedSuit, usedRank := ConsiderRank(hand, r, chosen, usedSuit, usedRank);
      r := r + 1;
    }
    if |chosen| == 4 {
      SelectFull(hand, r * 4, chosen);
    }
  }

  lemma ShiftStep(base: int, p: int, packed: int, x: int)
    ensures (base * p + packed) * 13 + x == base * (13 * p) + (packed * 13 + x)
  {
  }

  /** EvaluateBadugi, evaluator.go:109-137. */
  method EvaluateBadugi(hand: seq<Card>) returns (score: int)
    ensures score == BadugiScore(hand)
  {
    var chosen := ChooseBadugi(hand);
    var raw: int := (4 - |chosen|) * 100000;
    ghost var base := raw;
    ghost var ranks := RankSeq(chosen);
    assert Pow13(0) == 1 && ranks[..0] == [];
    for i := 0 to |chosen|
      invariant raw == base * Pow13(i) + Pack(ranks[..i])
    {
      assert ranks[..i + 1][..i] == ranks[..i];
      ShiftStep(base, Pow13(i), Pack(ranks[..i]), ranks[i]);
      raw := raw * 13 + Rank(chosen[i]);
    }
    assert ranks[..|chosen|] == ranks;
    score := HalfMaxInt64 - raw;
  }

  /** IsBadugi8OrBetter, evaluator.go:234-272. */
  method IsBadugi8OrBetter(hand: seq<Card>) returns (ok: bool)
    ensures ok == EightOrBetter(hand)
  {
    var chosen := ChooseBadugi(hand);
    if |chosen| == 4 {
      var maxRank := -1;
      for i := 0 to 4
        invariant forall k :: 0 <= k < i ==> LowRank(chosen[k]) <= maxRank
        invariant maxRank == -1 || exists k :: 0 <= k < i && LowRank(chosen[k]) == maxRank
      {
        var rank: int := Rank(chosen[i]);
        if rank == 12 {
          rank := -1;
        }
        if rank > maxRank {
          maxRank := rank;
        }
      }
      ok := maxRank <= 6;
      if !ok {
        var k :| 0 <= k < 4 && LowRank(chosen[k]) == maxRank;
        assert !(Rank(chosen[k]) <= 6 || Rank(chosen[k]) == 12);
      }
    } else {
      ok := false;
    }
  }

  /** EvaluateHiDuGi, evaluator.go:227-231: the 4-card high score and the Badugi score. */
  method EvaluateHiDuGi(hand: seq<Card>) returns (high: int, badugi: int)
    requires |hand| == 4
    ensures high == HighScore4(hand) && badugi == BadugiScore(hand)
  {
    high := Evaluate4CardHigh(hand);
    badugi := EvaluateBadugi(hand);
  }

  // ---------------------------------------------------------------------
  // What the selection keeps
  // ---------------------------------------------------------------------

  /** Every card of cs is one of the hand's. */
  predicate Within(cs: seq<Card>, hand: seq<Card>)
  {
    forall i :: 0 <= i < |cs| ==> cs[i] in hand
  }

  lemma BadugiAppend(chosen: seq<Card>, c: Card)
    requires IsBadugi(chosen) && |chosen| < 4 && SuitFree(chosen, Suit(c)) && RankFree(chosen, Rank(c))
    requires forall i :: 0 <= i < |chosen| ==> chosen[i] < c
    ensures IsBadugi(chosen + [c])
  {
    var next := chosen + [c];
    forall i, j | 0 <= i < j < |next|
      ensures next[i] < next[j] && Suit(next[i]) != Suit(next[j]) && Rank(next[i]) != Rank(next[j])
    {
      assert next[i] == chosen[i];
      if j < |chosen| {
        assert next[j] == chosen[j];
      }
    }
  }

  lemma {:induction false} SelectValid(hand: seq<Card>, c: nat, chosen: seq<Card>)
    requires c <= 52 && IsBadugi(chosen) && Within(chosen, hand)
    requires forall i :: 0 <= i < |chosen| ==> chosen[i] < c
    decreases 52 - c
    ensures IsBadugi(Select(hand, c, chosen)) && Within(Select(hand, c, chosen), hand)
  {
    if c < 52 {
      if |chosen| < 4 && (c as Card) in hand && SuitFree(chosen, Suit(c)) && RankFree(chosen, Rank(c)) {
        var next := chosen + [c as Card];
        BadugiAppend(chosen, c);
        assert forall i :: 0 <= i < |next| ==> next[i] < c + 1 && next[i] in hand;
        SelectValid(hand, c + 1, next);
      } else {
        SelectValid(hand, c + 1, chosen);
      }
    }
  }

  /**
   * The selection is a Badugi drawn from the hand: at most four of its
   * cards, in card order, no two of one suit or one rank.
   */
  lemma BadugiHandValid(hand: seq<Card>)
    ensures IsBadugi(BadugiHand(hand)) && Within(BadugiHand(hand), hand)
  {
    SelectValid(hand, 0, []);
  }

  lemma {:induction false} SelectExtends(hand: seq<Card>, c: nat, chosen: seq<Card>)
    requires c <= 52 && |chosen| <= 4
    decreases 52 - c
    ensures chosen <= Select(hand, c, chosen)
  {
    if c < 52 {
      if |chosen| < 4 && (c as Card) in hand && SuitFree(chosen, Suit(c)) && RankFree(chosen, Rank(c)) {
        SelectExtends(hand, c + 1, chosen + [c as Card]);
      } else {
        SelectExtends(hand, c + 1, chosen);
      }
    }
  }

  /** Whatever a prefix blocks, the whole list blocks. */
  lemma PrefixBlocks(p: seq<Card>, r: seq<Card>, x: Card)
    requires p <= r
    ensures !SuitFree(p, Suit(x)) ==> !SuitFree(r, Suit(x))
    ensures !RankFree(p, Rank(x)) ==> !RankFree(r, Rank(x))
    ensures x in p ==> x in r
  {
    if !SuitFree(p, Suit(x)) {
      var i :| 0 <= i < |p| && Suit(p[i]) == Suit(x);
      assert r[i] == p[i];
    }
    if !RankFree(p, Rank(x)) {
      var i :| 0 <= i < |p| && Rank(p[i]) == Rank(x);
      assert r[i] == p[i];
    }
    if x in p {
      var i :| 0 <= i < |p| && p[i] == x;
      assert r[i] == p[i];
    }
  }

  /** Card x of the hand, visited at or after c, is kept or blocked. */
  lemma {:induction false} SelectMaximal(hand: seq<Card>, c: nat, chosen: seq<Card>, x: Card)
    requires c <= x && |chosen| <= 4 && x in hand
    decreases 52 - c
    ensures var r := Select(hand, c, chosen);
      x in r || |r| == 4 || !SuitFree(r, Suit(x)) || !RankFree(r, Rank(x))
  {
    var r := Select(hand, c, chosen);
    if c < x {
      if |chosen| < 4 && (c as Card) in hand && SuitFree(chosen, Suit(c)) && RankFree(chosen, Rank(c)) {
        SelectMaximal(hand, c + 1, chosen + [c as Card], x);
      } else {
        SelectMaximal(hand, c + 1, chosen, x);
      }
    } else if |chosen| < 4 && SuitFree(chosen, Suit(x)) && RankFree(chosen, Rank(x)) {
      var next := chosen + [x];
      SelectExtends(hand, c + 1, next);
      assert next[|chosen|] == x;
      PrefixBlocks(next, r, x);
    } else if |chosen| == 4 {
      SelectFull(hand, c, chosen);
    } else {
      SelectExtends(hand, c, chosen);
      PrefixBlocks(chosen, r, x);
    }
  }

  /**
   * The selection is maximal: every card of the hand that it leaves out
   * shares a suit or a rank with a kept card, or four cards are kept.
   */
  lemma BadugiHandMaximal(hand: seq<Card>, x: Card)
    requires x in hand
    ensures var b := BadugiHand(hand);
      x in b || |b| == 4 || !SuitFree(b, Suit(x)) || !RankFree(b, Rank(x))
  {
    SelectMaximal(hand, 0, [], x);
  }

  lemma {:induction false} SelectSameCards(h1: seq<Card>, h2: seq<Card>, c: nat, chosen: seq<Card>)
    requires c <= 52 && |chosen| <= 4
    requires forall x: Card :: x in h1 <==> x in h2
    decreases 52 - c
    ensures Select(h1, c, chosen) == Select(h2, c, chosen)
  {
    if c < 52 {
      SelectSameCards(h1, h2, c + 1, chosen);
      if |chosen| < 4 {
        SelectSameCards(h1, h2, c + 1, chosen + [c as Card]);
      }
    }
  }

  /** The selection, and so the score, depends only on which cards the hand holds. */
  lemma BadugiIgnoresOrder(h1: seq<Card>, h2: seq<Card>)
    requires forall x: Card :: x in h1 <==> x in h2
    ensures BadugiHand(h1) == BadugiHand(h2) && BadugiScore(h1) == BadugiScore(h2)
  {
    SelectSameCards(h1, h2, 0, []);
  }

  // ---------------------------------------------------------------------
  // What the score means
  // ---------------------------------------------------------------------

  /** The raw score of a selection of each size lies in its own band. */
  lemma RawScoreBands(cs: seq<Card>)
    requires |cs| <= 4
    ensures |cs| == 0 ==> RawScore(cs) == 400000
    ensures |cs| == 1 ==> 3900000 <= RawScore(cs) < 3900013
    ensures |cs| == 2 ==> 33800000 <= RawScore(cs) < 33800169
    ensures |cs| == 3 ==> 219700000 <= RawScore(cs) < 219702197
    ensures |cs| == 4 ==> RawScore(cs) == Pack(RankSeq(cs)) < 28561
  {
    PackBound(RankSeq(cs));
    assert Pow13(1) == 13 && Pow13(2) == 169 && Pow13(3) == 2197 && Pow13(4) == 28561;
  }

  /** A four-card Badugi outscores every selection of fewer cards. */
  lemma FourCardsWin(h1: seq<Card>, h2: seq<Card>)
    requires |BadugiHand(h1)| == 4 && |BadugiHand(h2)| < 4
    ensures BadugiScore(h1) > BadugiScore(h2)
  {
    RawScoreBands(BadugiHand(h1));
    RawScoreBands(BadugiHand(h2));
  }

  /**
   * Below four cards the order is reversed: a selection of fewer cards
   * scores higher, so an empty selection beats one, two or three cards.
   */
  lemma FewerCardsScoreHigher(h1: seq<Card>, h2: seq<Card>)
    requires |BadugiHand(h1)| < |BadugiHand(h2)| < 4
    ensures BadugiScore(h1) > BadugiScore(h2)
  {
    RawScoreBands(BadugiHand(h1));
    RawScoreBands(BadugiHand(h2));
  }

  /**
   * Between four-card Badugis the one whose ranks, lowest first, come first
   * in lexicographic order scores higher; the Ace ranks as the highest card.
   */
  lemma FourCardOrder(h1: seq<Card>, h2: seq<Card>)
    requires |BadugiHand(h1)| == 4 && |BadugiHand(h2)| == 4
    ensures BadugiScore(h1) > BadugiScore(h2) <==> LexLess(RankSeq(BadugiHand(h1)), RankSeq(BadugiHand(h2)))
  {
    RawScoreBands(BadugiHand(h1));
    RawScoreBands(BadugiHand(h2));
    PackOrder(RankSeq(BadugiHand(h1)), RankSeq(BadugiHand(h2)));
  }

  /** Every Badugi score lies just below math.MaxInt64 / 2. */
  lemma BadugiScoreRange(hand: seq<Card>)
    ensures HalfMaxInt64 - 219702197 < BadugiScore(hand) <= HalfMaxInt64
  {
    RawScoreBands(BadugiHand(hand));
  }

  /** An 8-or-better qualifier is a four-card Badugi, so it scores in the top band. */
  lemma EightOrBetterTopBand(hand: seq<Card>)
    requires EightOrBetter(hand)
    ensures BadugiScore(hand) > HalfMaxInt64 - 28561
  {
    RawScoreBands(BadugiHand(hand));
  }
}
