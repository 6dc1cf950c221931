/**
 * The high-hand evaluators of pkg/poker/evaluator.go, Evaluate5CardHigh and
 * Evaluate4CardHigh. Each builds rank and suit histograms, looks for a flush
 * and for a straight (with the Ace-low wheel as a special case), counts
 * pairs, trips and quads, picks a category by a fixed switch order, and adds
 * a kicker that packs every rank of the hand, highest first, in base 13.
 *
 * The methods keep the loops of the source; the functions below them say
 * what each loop computes, and the lemmas say what the scores mean.
 */
module HighHand {
  import opened Cards
  import opened Base13

  // The hand categories of evaluator.go:8-18 (the 5-card scale).
  const HighCard: nat := 0
  const OnePair: nat := 1
  const TwoPair: nat := 2
  const Trips: nat := 3
  const Straight: nat := 4
  const Flush: nat := 5
  const FullHouse: nat := 6
  const Quads: nat := 7
  const StraightFlush: nat := 8

  /** The category weights: 13^5 for five cards, 13^4 for four. */
  const Weight5: nat := 13 * 13 * 13 * 13 * 13
  const Weight4: nat := 13 * 13 * 13 * 13

  /** Number of cards of the hand that satisfy p. */
  function CountWhere(hand: seq<Card>, p: Card -> bool): nat
  {
    if hand == [] then 0
    else CountWhere(hand[..|hand| - 1], p) + (if p(hand[|hand| - 1]) then 1 else 0)
  }

  function RankIs(r: nat): Card -> bool
  {
    (c: Card) => Rank(c) == r
  }

  function SuitIs(s: nat): Card -> bool
  {
    (c: Card) => Suit(c) == s
  }

  function RankAtLeast(lo: nat): Card -> bool
  {
    (c: Card) => Rank(c) >= lo
  }

  /** Number of cards of the hand with rank r. */
  function RankCount(hand: seq<Card>, r: nat): nat
  {
    CountWhere(hand, RankIs(r))
  }

  /** Number of cards of the hand with suit s. */
  function SuitCount(hand: seq<Card>, s: nat): nat
  {
    CountWhere(hand, SuitIs(s))
  }

  /** The `ranks` slice after the histogram loop. */
  function RankHist(hand: seq<Card>): (h: seq<nat>)
    ensures |h| == 13
  {
    seq(13, r requires 0 <= r => RankCount(hand, r))
  }

  /** The `suits` slice after the histogram loop. */
  function SuitHist(hand: seq<Card>): (h: seq<nat>)
    ensures |h| == 4
  {
    seq(4, s requires 0 <= s => SuitCount(hand, s))
  }

  /** Some suit holds all n cards. */
  predicate IsFlush(suits: seq<nat>, n: nat)
  {
    exists s :: 0 <= s < |suits| && suits[s] == n
  }

  /** The n ranks lo, lo + 1, ..., lo + n - 1 are all present. */
  predicate RunAt(ranks: seq<nat>, lo: nat, n: nat)
    requires lo + n <= |ranks|
  {
    forall r :: lo <= r < lo + n ==> ranks[r] > 0
  }

  /** n consecutive ranks are present. */
  predicate HasRun(ranks: seq<nat>, n: nat)
    requires |ranks| == 13
  {
    exists lo :: 0 <= lo && lo + n <= 13 && RunAt(ranks, lo, n)
  }

  /** The Ace-low straight of n cards: the Ace and the n - 1 lowest ranks. */
  predicate IsWheel(ranks: seq<nat>, n: nat)
    requires |ranks| == 13 && 1 <= n <= 13
  {
    ranks[12] > 0 && RunAt(ranks, 0, n - 1)
  }

  predicate IsStraight(ranks: seq<nat>, n: nat)
    requires |ranks| == 13 && 1 <= n <= 13
  {
    HasRun(ranks, n) || IsWheel(ranks, n)
  }

  /** How many present ranks follow each other upwards from rank lo. */
  function RunUp(ranks: seq<nat>, lo: nat): (n: nat)
    requires |ranks| == 13 && lo <= 13
    decreases 13 - lo
    ensures lo + n <= 13
  {
    if lo == 13 || ranks[lo] == 0 then 0 else 1 + RunUp(ranks, lo + 1)
  }

  lemma {:induction false} RunUpAtLeast(ranks: seq<nat>, lo: nat, n: nat)
    requires |ranks| == 13 && lo + n <= 13
    decreases n
    ensures RunUp(ranks, lo) >= n <==> RunAt(ranks, lo, n)
  {
    if n > 0 {
      RunUpAtLeast(ranks, lo + 1, n - 1);
    }
  }

  /** Number of entries equal to k: the pairs, trips and quads counters. */
  function CountEq(xs: seq<nat>, k: nat): nat
  {
    if xs == [] then 0 else CountEq(xs[..|xs| - 1], k) + (if xs[|xs| - 1] == k then 1 else 0)
  }

  /** The switch of evaluator.go:71-91. */
  function Category5(straight: bool, flush: bool, pairs: nat, trips: nat, quads: nat): (cat: nat)
    ensures cat <= StraightFlush
  {
    if straight && flush then StraightFlush
    else if quads > 0 then Quads
    else if trips > 0 && pairs > 0 then FullHouse
    else if flush then Flush
    else if straight then Straight
    else if trips > 0 then Trips
    else if pairs >= 2 then TwoPair
    else if pairs > 0 then OnePair
    else HighCard
  }

  /** The switch of evaluator.go:192-210: trips above the flush, no full house, from 1 up. */
  function Category4(straight: bool, flush: bool, pairs: nat, trips: nat, quads: nat): (cat: nat)
    ensures 1 <= cat <= 8
  {
    if straight && flush then 8
    else if quads > 0 then 7
    else if trips > 0 then 6
    else if flush then 5
    else if straight then 4
    else if pairs >= 2 then 3
    else if pairs > 0 then 2
    else 1
  }

  function Repeat(x: nat, n: nat): (s: seq<nat>)
    ensures |s| == n && forall i :: 0 <= i < n ==> s[i] == x
  {
    seq(n, _ => x)
  }

  /** The `vals` list: every rank from 12 down to lo, each as often as it occurs. */
  function ValsFrom(ranks: seq<nat>, lo: nat): seq<nat>
    requires |ranks| == 13 && lo <= 13
    decreases 13 - lo
  {
    if lo == 13 then [] else ValsFrom(ranks, lo + 1) + Repeat(lo, ranks[lo])
  }

  function Kicker(ranks: seq<nat>): nat
    requires |ranks| == 13
  {
    Pack(ValsFrom(ranks, 0))
  }

  function Category5Of(hand: seq<Card>): nat
  {
    var ranks := RankHist(hand);
    Category5(IsStraight(ranks, 5), IsFlush(SuitHist(hand), 5),
              CountEq(ranks, 2), CountEq(ranks, 3), CountEq(ranks, 4))
  }

  function Category4Of(hand: seq<Card>): nat
  {
    var ranks := RankHist(hand);
    Category4(IsStraight(ranks, 4), IsFlush(SuitHist(hand), 4),
              CountEq(ranks, 2), CountEq(ranks, 3), CountEq(ranks, 4))
  }

  /** What Evaluate5CardHigh returns: category * 13^5 + kicker. */
  function HighScore5(hand: seq<Card>): nat
  {
    Category5Of(hand) * Weight5 + Kicker(RankHist(hand))
  }

  /** What Evaluate4CardHigh returns: category * 13^4 + kicker. */
  function HighScore4(hand: seq<Card>): nat
  {
    Category4Of(hand) * Weight4 + Kicker(RankHist(hand))
  }

  // ---------------------------------------------------------------------
  // The loops of the evaluators
  // ---------------------------------------------------------------------

  /** The histogram loop of evaluator.go:25-30 and 144-149. */
  method Histograms(hand: seq<Card>) returns (ranks: array<nat>, suits: array<nat>)
    ensures fresh(ranks) && fresh(suits)
    ensures ranks[..] == RankHist(hand) && suits[..] == SuitHist(hand)
  {
    ranks := new nat[13](_ => 0);
    suits := new nat[4](_ => 0);
    for i := 0 to |hand|
      invariant forall r :: 0 <= r < 13 ==> ranks[r] == RankCount(hand[..i], r)
      invariant forall s :: 0 <= s < 4 ==> suits[s] == SuitCount(hand[..i], s)
    {
      assert hand[..i + 1][..i] == hand[..i];
      var c := hand[i];
      ranks[Rank(c)] := ranks[Rank(c)] + 1;
      suits[Suit(c)] := suits[Suit(c)] + 1;
    }
    assert hand[..|hand|] == hand;
  }

  /** The flush loop: some suit counter equals n. */
  method FindFlush(suits: array<nat>, n: nat) returns (isFlush: bool)
    ensures isFlush == IsFlush(suits[..], n)
  {
    isFlush := false;
    for s := 0 to suits.Length
      invariant forall t :: 0 <= t < s ==> suits[t] != n
    {
      if suits[s] == n {
        isFlush := true;
        break;
      }
    }
  }

  /** The pairs/trips/quads loop of evaluator.go:59-69 and 180-190. */
  method Frequencies(ranks: array<nat>) returns (pairs: nat, trips: nat, quads: nat)
    ensures pairs == CountEq(ranks[..], 2) && trips == CountEq(ranks[..], 3)
    ensures quads == CountEq(ranks[..], 4)
  {
    pairs, trips, quads := 0, 0, 0;
    for r := 0 to ranks.Length
      invariant pairs == CountEq(ranks[..r], 2) && trips == CountEq(ranks[..r], 3)
      invariant quads == CountEq(ranks[..r], 4)
    {
      assert ranks[..r + 1][..r] == ranks[..r];
      var cnt := ranks[r];
      if cnt == 2 {
        pairs := pairs + 1;
      } else if cnt == 3 {
        trips := trips + 1;
      } else if cnt == 4 {
        quads := quads + 1;
      }
    }
    assert ranks[..ranks.Length] == ranks[..];
  }

  /** The kicker loops of evaluator.go:94-103 and 213-222. */
  method KickerOf(ranks: array<nat>) returns (kicker: nat)
    requires ranks.Length == 13
    ensures kicker == Kicker(ranks[..])
  {
    ghost var hist := ranks[..];
    var vals: seq<nat> := [];
    var r := 12;
    while r >= 0
      invariant -1 <= r <= 12 && vals == ValsFrom(hist, r + 1)
      decreases r + 1
    {
      var i := 0;
      while i < ranks[r]
        invariant i <= ranks[r] && vals == ValsFrom(hist, r + 1) + Repeat(r, i)
      {
        assert Repeat(r, i + 1) == Repeat(r, i) + [r];
        vals := vals + [r];
        i := i + 1;
      }
      r := r - 1;
    }
    kicker := 0;
    for i := 0 to |vals|
      invariant kicker == Pack(vals[..i])
    {
      assert vals[..i + 1][..i] == vals[..i];
      kicker := kicker * 13 + vals[i];
    }
    assert vals[..|vals|] == vals;
  }

  /**
   * The straight scan of evaluator.go:39-56: ranks from the Ace down,
   * counting consecutive present ranks until five, then the wheel check.
   */
  method Straight5(ranks: array<nat>) returns (isStraight: bool)
    requires ranks.Length == 13
    ensures isStraight == IsStraight(ranks[..], 5)
  {
    ghost var hist := ranks[..];
    var top := -1;
    var consec := 0;
    var r := 12;
    while r >= 0
      invariant -1 <= r <= 12 && top == -1
      invariant consec == RunUp(hist, r + 1) && consec < 5
      invariant forall q :: r < q < 13 ==> RunUp(hist, q) < 5
      decreases r + 1
    {
      if ranks[r] > 0 {
        consec := consec + 1;
        if consec == 5 {
          RunUpAtLeast(hist, r, 5);
          top := r + 4; // highest rank of the straight
          break;
        }
      } else {
        consec := 0;
      }
      r := r - 1;
    }
    if top == -1 {
      forall lo | 0 <= lo && lo + 5 <= 13
        ensures !RunAt(hist, lo, 5)
      {
        RunUpAtLeast(hist, lo, 5);
      }
      RunUpAtLeast(hist, 0, 4);
    }
    if consec == 4 && ranks[12] > 0 && ranks[3] > 0 && ranks[2] > 0 && ranks[1] > 0 && ranks[0] > 0 {
      top := 3; // straight to 5
    }
    isStraight := top != -1;
  }

  /**
   * The straight scan of evaluator.go:161-177: four consecutive present
   * ranks, or else Ace, 2, 3 and 4.
   */
  method Straight4(ranks: array<nat>) returns (isStraight: bool)
    requires ranks.Length == 13
    ensures isStraight == IsStraight(ranks[..], 4)
  {
    ghost var hist := ranks[..];
    isStraight := false;
    var consec := 0;
    var r := 12;
    while r >= 0
      invariant -1 <= r <= 12 && !isStraight
      invariant consec == RunUp(hist, r + 1) && consec < 4
      invariant forall q :: r < q < 13 ==> RunUp(hist, q) < 4
      decreases r + 1
    {
      if ranks[r] > 0 {
        consec := consec + 1;
        if consec == 4 {
          RunUpAtLeast(hist, r, 4);
          isStraight := true;
          break;
        }
      } else {
        consec := 0;
      }
      r := r - 1;
    }
    if !isStraight {
      forall lo | 0 <= lo && lo + 4 <= 13
        ensures !RunAt(hist, lo, 4)
      {
        RunUpAtLeast(hist, lo, 4);
      }
    }
    if !isStraight && ranks[12] > 0 && ranks[0] > 0 && ranks[1] > 0 && ranks[2] > 0 {
      isStraight := true;
    }
  }

  lemma CategoryFromHistograms5(hand: seq<Card>, ranks: seq<nat>, suits: seq<nat>, cat: nat)
    requires ranks == RankHist(hand) && suits == SuitHist(hand)
    requires cat == Category5(IsStraight(ranks, 5), IsFlush(suits, 5),
                              CountEq(ranks, 2), CountEq(ranks, 3), CountEq(ranks, 4))
    ensures cat == Category5Of(hand)
  {
  }

  lemma CategoryFromHistograms4(hand: seq<Card>, ranks: seq<nat>, suits: seq<nat>, cat: nat)
    requires ranks == RankHist(hand) && suits == SuitHist(hand)
    requires cat == Category4(IsStraight(ranks, 4), IsFlush(suits, 4),
                              CountEq(ranks, 2), CountEq(ranks, 3), CountEq(ranks, 4))
    ensures cat == Category4Of(hand)
  {
  }

  method Evaluate5CardHigh(hand: seq<Card>) returns (score: int)
    requires |hand| == 5
    ensures score == HighScore5(hand)
  {
    var ranks, suits := Histograms(hand);
    var isFlush := FindFlush(suits, 5);
    var isStraight := Straight5(ranks);
    var pairs, trips, quads := Frequencies(ranks);
    var cat := Category5(isStraight, isFlush, pairs, trips, quads);
    CategoryFromHistograms5(hand, ranks[..], suits[..], cat);
    var kicker := KickerOf(ranks);
    score := cat * Weight5 + kicker;
  }

  method Evaluate4CardHigh(hand: seq<Card>) returns (score: int)
    requires |hand| == 4
    ensures score == HighScore4(hand)
  {
    var ranks, suits := Histograms(hand);
    var isFlush := FindFlush(suits, 4);
    var isStraight := Straight4(ranks);
    var pairs, trips, quads := Frequencies(ranks);
    var cat := Category4(isStraight, isFlush, pairs, trips, quads);
    CategoryFromHistograms4(hand, ranks[..], suits[..], cat);
    var kicker := KickerOf(ranks);
    score := cat * Weight4 + kicker;
  }

  // ---------------------------------------------------------------------
  // What the scores mean
  // ---------------------------------------------------------------------

  lemma {:induction false} CountWhereAppend(u: seq<Card>, w: seq<Card>, p: Card -> bool)
    ensures CountWhere(u + w, p) == CountWhere(u, p) + CountWhere(w, p)
  {
    if w == [] {
      assert u + w == u;
    } else {
      var init := w[..|w| - 1];
      CountWhereAppend(u, init, p);
      assert (u + w)[..|u + w| - 1] == u + init;
    }
  }

  /** Counting over a list with its i-th card taken out. */
  lemma CountWhereRemove(b: seq<Card>, i: nat, p: Card -> bool)
    requires i < |b|
    ensures CountWhere(b, p) == CountWhere(b[..i] + b[i + 1..], p) + (if p(b[i]) then 1 else 0)
  {
    var pre, x, post := b[..i], b[i], b[i + 1..];
    assert b == (pre + [x]) + post;
    CountWhereAppend(pre + [x], post, p);
    CountWhereAppend(pre, [x], p);
    CountWhereAppend(pre, post, p);
    CountWhereOne(x, p);
  }

  lemma CountWhereOne(x: Card, p: Card -> bool)
    ensures CountWhere([x], p) == (if p(x) then 1 else 0)
  {
    assert [x][..0] == [];
  }

  lemma MultisetRemove(a: seq<Card>, b: seq<Card>, i: nat)
    requires multiset(a) == multiset(b) && a != [] && i < |b| && b[i] == a[|a| - 1]
    ensures multiset(b[..i] + b[i + 1..]) == multiset(a[..|a| - 1])
  {
    var x, rest, init := b[i], b[..i] + b[i + 1..], a[..|a| - 1];
    assert b == b[..i] + [x] + b[i + 1..];
    assert a == init + [x];
    assert multiset(b) == multiset(rest) + multiset{x};
    assert multiset(a) == multiset(init) + multiset{x};
    forall y
      ensures multiset(rest)[y] == multiset(init)[y]
    {
      assert multiset(b)[y] == multiset(rest)[y] + multiset{x}[y];
      assert multiset(a)[y] == multiset(init)[y] + multiset{x}[y];
    }
  }

  /** Counting depends only on which cards the hand holds, not on their order. */
  lemma {:induction false} CountWherePermutation(a: seq<Card>, b: seq<Card>, p: Card -> bool)
    requires multiset(a) == multiset(b)
    decreases |a|
    ensures CountWhere(a, p) == CountWhere(b, p)
  {
    if a == [] {
      assert |b| == |multiset(b)| == 0;
    } else {
      var x := a[|a| - 1];
      assert x in multiset(b);
      var i :| 0 <= i < |b| && b[i] == x;
      MultisetRemove(a, b, i);
      CountWherePermutation(a[..|a| - 1], b[..i] + b[i + 1..], p);
      CountWhereRemove(b, i, p);
    }
  }

  /** Both histograms, and so both scores, depend only on the cards and not on their order. */
  lemma ScoresIgnoreOrder(h1: seq<Card>, h2: seq<Card>)
    requires multiset(h1) == multiset(h2)
    ensures RankHist(h1) == RankHist(h2) && SuitHist(h1) == SuitHist(h2)
    ensures HighScore5(h1) == HighScore5(h2) && HighScore4(h1) == HighScore4(h2)
  {
    forall r | 0 <= r < 13
      ensures RankHist(h1)[r] == RankHist(h2)[r]
    {
      CountWherePermutation(h1, h2, RankIs(r));
    }
    forall s | 0 <= s < 4
      ensures SuitHist(h1)[s] == SuitHist(h2)[s]
    {
      CountWherePermutation(h1, h2, SuitIs(s));
    }
  }

  lemma {:induction false} RankSplit(hand: seq<Card>, lo: nat)
    ensures CountWhere(hand, RankAtLeast(lo)) == RankCount(hand, lo) + CountWhere(hand, RankAtLeast(lo + 1))
  {
    if hand != [] {
      RankSplit(hand[..|hand| - 1], lo);
    }
  }

  lemma {:induction false} RankAtLeastBounds(hand: seq<Card>)
    ensures CountWhere(hand, RankAtLeast(0)) == |hand| && CountWhere(hand, RankAtLeast(13)) == 0
  {
    if hand != [] {
      RankAtLeastBounds(hand[..|hand| - 1]);
    }
  }

  lemma {:induction false} ValsLength(hand: seq<Card>, lo: nat)
    requires lo <= 13
    decreases 13 - lo
    ensures |ValsFrom(RankHist(hand), lo)| == CountWhere(hand, RankAtLeast(lo))
  {
    if lo < 13 {
      ValsLength(hand, lo + 1);
      RankSplit(hand, lo);
    } else {
      RankAtLeastBounds(hand);
    }
  }

  lemma {:induction false} RepeatCount(x: nat, n: nat)
    ensures forall y: nat :: multiset(Repeat(x, n))[y] == if y == x then n else 0
  {
    if n > 0 {
      RepeatCount(x, n - 1);
      assert Repeat(x, n) == Repeat(x, n - 1) + [x];
    }
  }

  /** The kicker list from lo holds only ranks from lo up that are present. */
  lemma {:induction false} ValsRange(ranks: seq<nat>, lo: nat)
    requires |ranks| == 13 && lo <= 13
    decreases 13 - lo
    ensures forall i :: 0 <= i < |ValsFrom(ranks, lo)| ==>
      lo <= ValsFrom(ranks, lo)[i] < 13 && ranks[ValsFrom(ranks, lo)[i]] > 0
  {
    if lo < 13 {
      ValsRange(ranks, lo + 1);
      var u, w := ValsFrom(ranks, lo + 1), Repeat(lo, ranks[lo]);
      assert ValsFrom(ranks, lo) == u + w;
      forall i | 0 <= i < |u + w|
        ensures lo <= (u + w)[i] < 13 && ranks[(u + w)[i]] > 0
      {
        if i < |u| {
          assert (u + w)[i] == u[i];
        } else {
          assert (u + w)[i] == w[i - |u|] == lo;
        }
      }
    }
  }

  /** The kicker list runs from the highest rank down. */
  lemma {:induction false} ValsDescending(ranks: seq<nat>, lo: nat)
    requires |ranks| == 13 && lo <= 13
    decreases 13 - lo
    ensures forall i, j :: 0 <= i < j < |ValsFrom(ranks, lo)| ==> ValsFrom(ranks, lo)[i] >= ValsFrom(ranks, lo)[j]
  {
    if lo < 13 {
      ValsDescending(ranks, lo + 1);
      ValsRange(ranks, lo + 1);
      var u := ValsFrom(ranks, lo + 1);
      var v := u + Repeat(lo, ranks[lo]);
      assert ValsFrom(ranks, lo) == v;
      forall i, j | 0 <= i < j < |v|
        ensures v[i] >= v[j]
      {
        if j >= |u| {
          assert v[j] == lo;
          if i < |u| {
            assert v[i] == u[i] >= lo + 1;
          } else {
            assert v[i] == lo;
          }
        } else {
          assert v[i] == u[i] && v[j] == u[j];
        }
      }
    }
  }

  /** The kicker list holds each rank from lo up exactly as often as the hand does. */
  lemma {:induction false} ValsCount(ranks: seq<nat>, lo: nat)
    requires |ranks| == 13 && lo <= 13
    decreases 13 - lo
    ensures forall x: nat :: multiset(ValsFrom(ranks, lo))[x] == if lo <= x < 13 then ranks[x] else 0
  {
    if lo < 13 {
      ValsCount(ranks, lo + 1);
      RepeatCount(lo, ranks[lo]);
      assert ValsFrom(ranks, lo) == ValsFrom(ranks, lo + 1) + Repeat(lo, ranks[lo]);
    }
  }

  /** Each packed kicker list has one digit per card. */
  lemma KickerBound(hand: seq<Card>)
    ensures var v := ValsFrom(RankHist(hand), 0);
      |v| == |hand| && Digits(v) && Kicker(RankHist(hand)) < Pow13(|hand|)
  {
    var v := ValsFrom(RankHist(hand), 0);
    ValsLength(hand, 0);
    RankAtLeastBounds(hand);
    ValsRange(RankHist(hand), 0);
    PackBound(v);
  }

  /** The 5-card score is category * 13^5 + kicker with the kicker below 13^5. */
  lemma Score5Split(hand: seq<Card>)
    requires |hand| == 5
    ensures HighScore5(hand) / Weight5 == Category5Of(hand)
    ensures HighScore5(hand) % Weight5 == Kicker(RankHist(hand))
  {
    KickerBound(hand);
    assert Pow13(5) == Weight5;
    ShiftedSplit(Category5Of(hand), Weight5, Kicker(RankHist(hand)));
  }

  /** The 4-card score is category * 13^4 + kicker, category 1..8, so every score is positive. */
  lemma Score4Split(hand: seq<Card>)
    requires |hand| == 4
    ensures HighScore4(hand) / Weight4 == Category4Of(hand)
    ensures HighScore4(hand) % Weight4 == Kicker(RankHist(hand))
    ensures 1 <= Category4Of(hand) <= 8 && HighScore4(hand) > 0
  {
    KickerBound(hand);
    assert Pow13(4) == Weight4;
    ShiftedSplit(Category4Of(hand), Weight4, Kicker(RankHist(hand)));
  }

  /** Every 4-card score lies in the band of its category; categories 6 to 8 are the scores from 6 * 13^4 up. */
  lemma Score4Band(hand: seq<Card>)
    requires |hand| == 4
    ensures Weight4 <= HighScore4(hand) < 9 * Weight4
    ensures Category4Of(hand) >= 6 <==> HighScore4(hand) >= 6 * Weight4
  {
    var c, k := Category4Of(hand), Kicker(RankHist(hand));
    KickerBound(hand);
    assert Pow13(4) == Weight4;
    ShiftedLess(c, 9, Weight4, k, 0);
    if c > 1 {
      ShiftedLess(1, c, Weight4, 0, k);
    }
    if c > 6 {
      ShiftedLess(6, c, Weight4, 0, k);
    } else if c < 6 {
      ShiftedLess(c, 6, Weight4, k, 0);
    }
  }

  /** A higher category always wins, whatever the kickers. */
  lemma CategoryDecides5(h1: seq<Card>, h2: seq<Card>)
    requires |h1| == 5 && |h2| == 5 && Category5Of(h1) > Category5Of(h2)
    ensures HighScore5(h1) > HighScore5(h2)
  {
    KickerBound(h2);
    assert Pow13(5) == Weight5;
    ShiftedLess(Category5Of(h2), Category5Of(h1), Weight5, Kicker(RankHist(h2)), Kicker(RankHist(h1)));
  }

  lemma CategoryDecides4(h1: seq<Card>, h2: seq<Card>)
    requires |h1| == 4 && |h2| == 4 && Category4Of(h1) > Category4Of(h2)
    ensures HighScore4(h1) > HighScore4(h2)
  {
    KickerBound(h2);
    assert Pow13(4) == Weight4;
    ShiftedLess(Category4Of(h2), Category4Of(h1), Weight4, Kicker(RankHist(h2)), Kicker(RankHist(h1)));
  }

  /** t is the highest rank present. */
  predicate IsTopRank(ranks: seq<nat>, t: nat)
    requires |ranks| == 13
  {
    t < 13 && ranks[t] > 0 && forall r :: t < r < 13 ==> ranks[r] == 0
  }

  lemma {:induction false} ValsHas(ranks: seq<nat>, lo: nat, x: nat)
    requires |ranks| == 13 && lo <= x < 13 && ranks[x] > 0
    decreases 13 - lo
    ensures x in ValsFrom(ranks, lo)
  {
    if lo == x {
      assert Repeat(x, ranks[x])[0] == x;
    } else {
      ValsHas(ranks, lo + 1, x);
    }
  }

  /** The kicker list starts with the highest rank present. */
  lemma ValsTop(ranks: seq<nat>, t: nat)
    requires |ranks| == 13 && IsTopRank(ranks, t)
    ensures ValsFrom(ranks, 0) != [] && ValsFrom(ranks, 0)[0] == t
  {
    var v := ValsFrom(ranks, 0);
    ValsHas(ranks, 0, t);
    var k :| 0 <= k < |v| && v[k] == t;
    ValsRange(ranks, 0);
    assert ranks[v[0]] > 0;
    ValsDescending(ranks, 0);
    assert v[0] >= v[k];
  }

  /**
   * Among hands of one size, the highest card decides the kicker before any
   * pair does: the kicker is not ordered by multiplicity.
   */
  lemma HigherTopCardHigherKicker(h1: seq<Card>, h2: seq<Card>, t1: nat, t2: nat)
    requires |h1| == |h2| && t2 < t1
    requires IsTopRank(RankHist(h1), t1) && IsTopRank(RankHist(h2), t2)
    ensures Kicker(RankHist(h1)) > Kicker(RankHist(h2))
  {
    var v1, v2 := ValsFrom(RankHist(h1), 0), ValsFrom(RankHist(h2), 0);
    KickerBound(h1);
    KickerBound(h2);
    ValsTop(RankHist(h1), t1);
    ValsTop(RankHist(h2), t2);
    assert v2[..0] == v1[..0];
    PackLexLess(v2, v1);
  }

  /**
   * Within one category the hand with the higher top card scores higher; so
   * a straight holding an Ace, the wheel A-2-3-4-5 included, outscores every
   * straight without one.
   */
  lemma HigherTopCardWins5(h1: seq<Card>, h2: seq<Card>, t1: nat, t2: nat)
    requires |h1| == 5 && |h2| == 5 && Category5Of(h1) == Category5Of(h2) && t2 < t1
    requires IsTopRank(RankHist(h1), t1) && IsTopRank(RankHist(h2), t2)
    ensures HighScore5(h1) > HighScore5(h2)
  {
    HigherTopCardHigherKicker(h1, h2, t1, t2);
  }

  lemma HigherTopCardWins4(h1: seq<Card>, h2: seq<Card>, t1: nat, t2: nat)
    requires |h1| == 4 && |h2| == 4 && Category4Of(h1) == Category4Of(h2) && t2 < t1
    requires IsTopRank(RankHist(h1), t1) && IsTopRank(RankHist(h2), t2)
    ensures HighScore4(h1) > HighScore4(h2)
  {
    HigherTopCardHigherKicker(h1, h2, t1, t2);
  }
}
