/**
 * The deck of pkg/poker/deck.go: the full 52-card deck, the order-preserving
 * removal of a set of cards, and the draw of n cards by an in-place partial
 * Fisher-Yates shuffle.
 *
 * A Go slice handed to DrawRandom is modelled as a window [lo, hi) of an
 * array, so that a draw from the rest of a deck (deck[n:]) swaps inside the
 * same array, as it does in Go. The global random generator is a
 * caller-supplied stream `draws`: the t-th call of rng.Intn(k) answers
 * draws(t) % k, and every sequence of in-range answers is such a stream.
 */
module Decks {
  import opened Cards

  type Draws = nat -> nat

  /** Elements of a slice as a set: the key set of the map that ToSet builds. */
  function Elems(cards: seq<Card>): set<Card>
  {
    set c | c in cards
  }

  predicate Ascending(s: seq<Card>)
  {
    forall i, j :: 0 <= i < j < |s| ==> s[i] < s[j]
  }

  predicate Distinct(s: seq<Card>)
  {
    forall i, j :: 0 <= i < j < |s| ==> s[i] != s[j]
  }

  /** The content of FullDeck: card i at position i. */
  function AllCards(): (d: seq<Card>)
    ensures |d| == 52 && forall i :: 0 <= i < 52 ==> d[i] == i
  {
    seq(52, i requires 0 <= i < 52 => i as Card)
  }

  /** The full deck holds every card exactly once, in ascending order. */
  lemma AllCardsComplete()
    ensures Ascending(AllCards()) && Distinct(AllCards())
    ensures forall c: Card :: c in AllCards()
  {
    forall c: Card
      ensures c in AllCards()
    {
      assert AllCards()[c] == c;
    }
  }

  method FullDeck() returns (d: array<Card>)
    ensures fresh(d) && d[..] == AllCards()
  {
    d := new Card[52];
    for i := 0 to 52
      invariant forall k :: 0 <= k < i ==> d[k] == k
    {
      d[i] := i;
    }
  }

  /** The cards of `deck` that are not in `toRemove`, in their original order. */
  function Filter(deck: seq<Card>, toRemove: set<Card>): seq<Card>
  {
    if deck == [] then []
    else
      var last := deck[|deck| - 1];
      Filter(deck[..|deck| - 1], toRemove) + (if last in toRemove then [] else [last])
  }

  method RemoveCards(deck: array<Card>, toRemove: set<Card>) returns (out: array<Card>, n: nat)
    ensures fresh(out) && out.Length == deck.Length && n <= out.Length
    ensures out[..n] == Filter(deck[..], toRemove)
  {
    // make([]Card, 0, len(deck)): capacity len(deck), length n
    out := new Card[deck.Length];
    n := 0;
    for i := 0 to deck.Length
      invariant n <= i
      invariant out[..n] == Filter(deck[..i], toRemove)
    {
      assert deck[..i + 1][..i] == deck[..i];
      if deck[i] !in toRemove {
        out[n] := deck[i];
        n := n + 1;
      }
    }
    assert deck[..deck.Length] == deck[..];
  }

  /** RemoveCards keeps exactly the cards of the deck that are not removed. */
  lemma {:induction false} FilterMembers(deck: seq<Card>, toRemove: set<Card>)
    ensures forall c :: c in Filter(deck, toRemove) <==> c in deck && c !in toRemove
  {
    if deck != [] {
      var init := deck[..|deck| - 1];
      FilterMembers(init, toRemove);
      assert deck == init + [deck[|deck| - 1]];
    }
  }

  /** RemoveCards keeps the order of the deck. */
  lemma {:induction false} FilterAscending(deck: seq<Card>, toRemove: set<Card>)
    requires Ascending(deck)
    ensures Ascending(Filter(deck, toRemove))
  {
    if deck != [] {
      var init, last := deck[..|deck| - 1], deck[|deck| - 1];
      FilterAscending(init, toRemove);
      FilterMembers(init, toRemove);
      var f := Filter(init, toRemove);
      forall k | 0 <= k < |f|
        ensures f[k] < last
      {
        assert f[k] in init;
      }
    }
  }

  lemma AscendingDistinct(s: seq<Card>)
    requires Ascending(s)
    ensures Distinct(s)
  {
  }

  /** A duplicate-free sequence has as many elements as its set. */
  lemma {:induction false} DistinctCard(s: seq<Card>)
    requires Distinct(s)
    ensures |Elems(s)| == |s|
  {
    if s != [] {
      var init, last := s[..|s| - 1], s[|s| - 1];
      DistinctCard(init);
      assert Elems(s) == Elems(init) + {last};
      assert last !in Elems(init);
    }
  }

  lemma {:induction false} ElemsBound(s: seq<Card>)
    ensures |Elems(s)| <= |s|
  {
    if s != [] {
      var init := s[..|s| - 1];
      ElemsBound(init);
      assert Elems(s) == Elems(init) + {s[|s| - 1]};
    }
  }

  /** The deck of a simulation round: RemoveCards(FullDeck(), ToSet(h)). */
  function RoundDeck(h: seq<Card>): seq<Card>
  {
    Filter(AllCards(), Elems(h))
  }

  /** A round deck keeps at least 52 - |h| cards. */
  lemma RoundDeckSize(h: seq<Card>)
    ensures 52 - |h| <= |RoundDeck(h)| == 52 - |Elems(h)|
  {
    RemainingDeck(h);
    ElemsBound(h);
  }

  /**
   * The deck of a simulation round, RemoveCards(FullDeck(), ToSet(h)): every
   * card not in h, once each, ascending, and 52 - |distinct cards of h| long.
   */
  lemma RemainingDeck(h: seq<Card>)
    ensures var d := Filter(AllCards(), Elems(h));
      && Ascending(d) && Distinct(d)
      && (forall c: Card :: c in d <==> c !in h)
      && |d| == 52 - |Elems(h)|
  {
    var d := Filter(AllCards(), Elems(h));
    AllCardsComplete();
    FilterMembers(AllCards(), Elems(h));
    FilterAscending(AllCards(), Elems(h));
    DistinctCard(d);
    var all := Elems(AllCards());
    assert Elems(d) == all - Elems(h);
    assert Elems(h) <= all;
    assert |all| == 52 by { DistinctCard(AllCards()); }
    assert |all - Elems(h)| == |all| - |Elems(h)| by {
      assert all == (all - Elems(h)) + Elems(h);
    }
  }

  method ToSet(cards: seq<Card>) returns (m: set<Card>)
    ensures m == Elems(cards)
  {
    m := {};
    for i := 0 to |cards|
      invariant m == Elems(cards[..i])
    {
      assert cards[..i + 1] == cards[..i] + [cards[i]];
      m := m + {cards[i]};
    }
    assert cards[..|cards|] == cards;
  }

  /** rng.Intn(k) as the t-th call answers it. */
  function Intn(draws: Draws, t: nat, k: nat): (v: nat)
    requires k > 0
    ensures v < k
  {
    draws(t) % k
  }

  /** The position DrawRandom swaps with position i: rng.Intn(len - i) + i. */
  function SwapIndex(len: nat, i: nat, draws: Draws, t: nat): (j: nat)
    requires i < len
    ensures i <= j < len
  {
    Intn(draws, t, len - i) + i
  }

  function Swap(s: seq<Card>, i: nat, j: nat): (t: seq<Card>)
    requires i < |s| && j < |s|
    ensures |t| == |s| && t[i] == s[j] && t[j] == s[i]
    ensures forall k :: 0 <= k < |s| && k != i && k != j ==> t[k] == s[k]
  {
    s[i := s[j]][j := s[i]]
  }

  /** A swap is a permutation. */
  lemma SwapPermutes(s: seq<Card>, i: nat, j: nat)
    requires i < |s| && j < |s|
    ensures multiset(Swap(s, i, j)) == multiset(s)
  {
    if i != j {
      var u := s[i := s[j]];
      assert multiset(u) == multiset(s) - multiset{s[i]} + multiset{s[j]};
      assert multiset(Swap(s, i, j)) == multiset(u) - multiset{s[j]} + multiset{s[i]};
    }
  }

  /** A swap keeps a duplicate-free sequence duplicate-free. */
  lemma SwapKeepsDistinct(s: seq<Card>, i: nat, j: nat)
    requires i < |s| && j < |s| && Distinct(s)
    ensures Distinct(Swap(s, i, j))
  {
    var t := Swap(s, i, j);
    forall k, l | 0 <= k < l < |t|
      ensures t[k] != t[l]
    {
      var k' := if k == i then j else if k == j then i else k;
      var l' := if l == i then j else if l == j then i else l;
      assert t[k] == s[k'] && t[l] == s[l'] && k' != l';
    }
  }

  /** Steps i .. n-1 of the partial shuffle; step k reads the stream at pos + k. */
  function ShuffleFrom(s: seq<Card>, i: nat, n: nat, draws: Draws, pos: nat): (t: seq<Card>)
    requires i <= n <= |s|
    decreases n - i
    ensures |t| == |s|
  {
    if i == n then s
    else ShuffleFrom(Swap(s, i, SwapIndex(|s|, i, draws, pos + i)), i + 1, n, draws, pos)
  }

  /** The shuffle only swaps: it is a permutation. */
  lemma {:induction false} ShufflePermutes(s: seq<Card>, i: nat, n: nat, draws: Draws, pos: nat)
    requires i <= n <= |s|
    decreases n - i
    ensures multiset(ShuffleFrom(s, i, n, draws, pos)) == multiset(s)
  {
    if i < n {
      var j := SwapIndex(|s|, i, draws, pos + i);
      SwapPermutes(s, i, j);
      ShufflePermutes(Swap(s, i, j), i + 1, n, draws, pos);
    }
  }

  /** A position below the current step is never touched again. */
  lemma {:induction false} ShuffleKeepsPrefix(s: seq<Card>, i: nat, n: nat, draws: Draws, pos: nat)
    requires i <= n <= |s|
    decreases n - i
    ensures ShuffleFrom(s, i, n, draws, pos)[..i] == s[..i]
  {
    if i < n {
      var s' := Swap(s, i, SwapIndex(|s|, i, draws, pos + i));
      ShuffleKeepsPrefix(s', i + 1, n, draws, pos);
      assert ShuffleFrom(s', i + 1, n, draws, pos)[..i] == ShuffleFrom(s', i + 1, n, draws, pos)[..i + 1][..i];
      assert s'[..i] == s[..i];
    }
  }

  /** A duplicate-free deck stays duplicate-free. */
  lemma {:induction false} ShuffleKeepsDistinct(s: seq<Card>, i: nat, n: nat, draws: Draws, pos: nat)
    requires i <= n <= |s| && Distinct(s)
    decreases n - i
    ensures Distinct(ShuffleFrom(s, i, n, draws, pos))
  {
    if i < n {
      var j := SwapIndex(|s|, i, draws, pos + i);
      SwapKeepsDistinct(s, i, j);
      ShuffleKeepsDistinct(Swap(s, i, j), i + 1, n, draws, pos);
    }
  }

  /** What DrawRandom leaves in its window after drawing n cards. */
  function Shuffle(s: seq<Card>, n: nat, draws: Draws, pos: nat): (t: seq<Card>)
    requires n <= |s|
  {
    ShuffleFrom(s, 0, n, draws, pos)
  }

  /** The two parts of a duplicate-free sequence share no card. */
  lemma SplitDisjoint(t: seq<Card>, n: nat)
    requires n <= |t| && Distinct(t)
    ensures forall a, b :: a in t[..n] && b in t[n..] ==> a != b
  {
    forall a, b | a in t[..n] && b in t[n..]
      ensures a != b
    {
      var k :| 0 <= k < n && t[..n][k] == a;
      var l :| 0 <= l < |t| - n && t[n..][l] == b;
      assert t[k] == a && t[n + l] == b;
    }
  }

  /**
   * The two results of DrawRandom, deck[:n] and deck[n:], together hold what
   * the window held before; when it held no duplicates they share no card.
   */
  lemma DrawSplits(s: seq<Card>, n: nat, draws: Draws, pos: nat)
    requires n <= |s|
    ensures var t := Shuffle(s, n, draws, pos);
      && |t[..n]| == n && |t[n..]| == |s| - n
      && multiset(t[..n]) + multiset(t[n..]) == multiset(s)
      && (Distinct(s) ==> Distinct(t) && forall a, b :: a in t[..n] && b in t[n..] ==> a != b)
  {
    var t := Shuffle(s, n, draws, pos);
    ShufflePermutes(s, 0, n, draws, pos);
    assert t == t[..n] + t[n..];
    if Distinct(s) {
      ShuffleKeepsDistinct(s, 0, n, draws, pos);
      SplitDisjoint(t, n);
    }
  }

  /**
   * Dropping the first card of a window does not change the later steps of
   * the shuffle when the stream is shifted by one: a draw on deck[1:] after
   * a first draw on deck continues the same shuffle.
   */
  lemma {:induction false} ShuffleShift(s: seq<Card>, i: nat, n: nat, draws: Draws, pos: nat)
    requires 1 <= i <= n <= |s|
    decreases n - i
    ensures ShuffleFrom(s, i, n, draws, pos) == [s[0]] + ShuffleFrom(s[1..], i - 1, n - 1, draws, pos + 1)
  {
    if i < n {
      var j := SwapIndex(|s|, i, draws, pos + i);
      SwapIndexShift(|s|, i, draws, pos);
      var u := Swap(s, i, j);
      SwapShift(s, i, j);
      assert ShuffleFrom(s, i, n, draws, pos) == ShuffleFrom(u, i + 1, n, draws, pos);
      assert ShuffleFrom(s[1..], i - 1, n - 1, draws, pos + 1) == ShuffleFrom(u[1..], i, n - 1, draws, pos + 1);
      ShuffleShift(u, i + 1, n, draws, pos);
    } else {
      assert s == [s[0]] + s[1..];
    }
  }

  /** The swap index of step i, read one position later on a window one card shorter. */
  lemma SwapIndexShift(len: nat, i: nat, draws: Draws, pos: nat)
    requires 1 <= i < len
    ensures SwapIndex(len - 1, i - 1, draws, pos + 1 + (i - 1)) == SwapIndex(len, i, draws, pos + i) - 1
  {
  }

  /** A swap that leaves the first card alone is a swap of the rest. */
  lemma SwapShift(s: seq<Card>, i: nat, j: nat)
    requires 1 <= i < |s| && 1 <= j < |s|
    ensures Swap(s, i, j)[0] == s[0]
    ensures Swap(s, i, j)[1..] == Swap(s[1..], i - 1, j - 1)
  {
    var u, v := Swap(s, i, j), Swap(s[1..], i - 1, j - 1);
    assert forall k :: 0 <= k < |v| ==> u[1..][k] == v[k];
  }

  /**
   * Drawing one card and then m more from the rest of the window is one
   * draw of 1 + m cards.
   */
  lemma DrawOneThenMore(s: seq<Card>, m: nat, draws: Draws, pos: nat)
    requires 1 + m <= |s|
    ensures var t := Shuffle(s, 1, draws, pos);
      [t[0]] + Shuffle(t[1..], m, draws, pos + 1) == Shuffle(s, 1 + m, draws, pos)
  {
    var t := Shuffle(s, 1, draws, pos);
    var j := SwapIndex(|s|, 0, draws, pos);
    assert t == Swap(s, 0, j);
    assert Shuffle(s, 1 + m, draws, pos) == ShuffleFrom(t, 1, 1 + m, draws, pos);
    ShuffleShift(t, 1, 1 + m, draws, pos);
  }

  /** `deck[i], deck[j] = deck[j], deck[i]` inside the window [lo, hi). */
  method SwapInWindow(deck: array<Card>, lo: nat, hi: nat, i: nat, j: nat)
    requires lo <= hi <= deck.Length && i < hi - lo && j < hi - lo
    modifies deck
    ensures deck[..lo] == old(deck[..lo]) && deck[hi..] == old(deck[hi..])
    ensures deck[lo..hi] == Swap(old(deck[lo..hi]), i, j)
  {
    deck[lo + i], deck[lo + j] := deck[lo + j], deck[lo + i];
    assert forall k :: 0 <= k < hi - lo ==> deck[lo..hi][k] == Swap(old(deck[lo..hi]), i, j)[k];
  }

  /**
   * DrawRandom on the slice deck[lo:hi]. The source panics when n exceeds the
   * slice length; the draws are deck[lo:lo+n] and the rest starts at lo + n.
   */
  method DrawRandom(deck: array<Card>, lo: nat, hi: nat, n: nat, draws: Draws, pos: nat)
    returns (drawn: seq<Card>, restLo: nat)
    requires lo <= hi <= deck.Length
    requires n <= hi - lo
    modifies deck
    ensures deck[..lo] == old(deck[..lo]) && deck[hi..] == old(deck[hi..])
    ensures deck[lo..hi] == Shuffle(old(deck[lo..hi]), n, draws, pos)
    ensures restLo == lo + n && drawn == deck[lo..restLo]
  {
    ghost var s0 := deck[lo..hi];
    var len := hi - lo;
    for i := 0 to n
      invariant deck[..lo] == old(deck[..lo]) && deck[hi..] == old(deck[hi..])
      invariant Shuffle(s0, n, draws, pos) == ShuffleFrom(deck[lo..hi], i, n, draws, pos)
    {
      var j := Intn(draws, pos + i, len - i) + i;
      SwapInWindow(deck, lo, hi, i, j);
    }
    drawn, restLo := deck[lo..lo + n], lo + n;
  }
}
