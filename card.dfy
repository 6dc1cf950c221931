/**
 * The card encoding of pkg/poker/card.go: a card is an integer 0..51 with
 * rank = c / 4 (0 = deuce .. 12 = ace) and suit = c % 4 (clubs, diamonds,
 * hearts, spades), its two-character rendering and its parser.
 */
module Cards {
  import opened Wrappers

  type Card = c: int | 0 <= c < 52

  /** The rendering tables, indexed by rank and by suit. */
  const RankChars: string := "23456789TJQKA"
  const SuitChars: string := "cdhs"

  function Rank(c: Card): (r: nat)
    ensures r < 13 && c == 4 * r + Suit(c)
  {
    c / 4
  }

  function Suit(c: Card): (s: nat)
    ensures s < 4
  {
    c % 4
  }

  /** The card with the given rank and suit. */
  function MakeCard(rank: nat, suit: nat): (c: Card)
    requires rank < 13 && suit < 4
    ensures Rank(c) == rank && Suit(c) == suit
  {
    rank * 4 + suit
  }

  /** `Card.String`: rank character followed by suit character. */
  function CardString(c: Card): (s: string)
    ensures |s| == 2 && s[0] == RankChars[Rank(c)] && s[1] == SuitChars[Suit(c)]
  {
    [RankChars[Rank(c)], SuitChars[Suit(c)]]
  }

  /*
   * Go measures a string in bytes of its UTF-8 encoding; the model keeps
   * strings as sequences of Unicode scalar values and computes that length.
   */
  function Utf8Width(ch: char): (w: nat)
    ensures 1 <= w <= 4 && (w == 1 <==> ch as int < 0x80)
  {
    if ch as int < 0x80 then 1
    else if ch as int < 0x800 then 2
    else if ch as int < 0x1_0000 then 3
    else 4
  }

  function ByteLength(s: string): nat
  {
    if s == [] then 0 else ByteLength(s[..|s| - 1]) + Utf8Width(s[|s| - 1])
  }

  /*
   * strings.ToUpper / strings.ToLower / strings.EqualFold restricted to the
   * one-byte characters CardFromString ever compares: when the byte length
   * is 2 and there are two characters, both are ASCII.
   */
  function ToUpper(ch: char): char
  {
    if 'a' <= ch <= 'z' then (ch as int - 32) as char else ch
  }

  function ToLower(ch: char): char
  {
    if 'A' <= ch <= 'Z' then (ch as int + 32) as char else ch
  }

  predicate EqualFold(a: char, b: char)
  {
    ToLower(a) == ToLower(b)
  }

  /** Index of the first rank character at or after `i` that equals `ch` ignoring case, or -1. */
  function RankIndexFrom(ch: char, i: nat): (k: int)
    requires i <= |RankChars|
    decreases |RankChars| - i
    ensures k == -1 || (i <= k < |RankChars| && EqualFold(RankChars[k], ch))
    ensures k == -1 <==> forall j :: i <= j < |RankChars| ==> !EqualFold(RankChars[j], ch)
  {
    if i == |RankChars| then -1
    else if EqualFold(RankChars[i], ch) then i
    else RankIndexFrom(ch, i + 1)
  }

  /** Index of the first suit character at or after `i` equal to `ch`, or -1. */
  function SuitIndexFrom(ch: char, i: nat): (k: int)
    requires i <= |SuitChars|
    decreases |SuitChars| - i
    ensures k == -1 || (i <= k < |SuitChars| && SuitChars[k] == ch)
    ensures k == -1 <==> ch !in SuitChars[i..]
  {
    if i == |SuitChars| then -1
    else if SuitChars[i] == ch then i
    else SuitIndexFrom(ch, i + 1)
  }

  datatype CardError =
    | BadLength(token: string)   // "invalid card string %q"
    | BadCard(token: string)     // "invalid card %q"

  /** What CardFromString returns for `s`. */
  function ParseCard(s: string): Result<Card, CardError>
  {
    if ByteLength(s) != 2 then Err(BadLength(s))
    // one two-byte character: neither of its bytes is in either table
    else if |s| != 2 then Err(BadCard(s))
    else
      var rank := RankIndexFrom(ToUpper(s[0]), 0);
      var suit := SuitIndexFrom(ToLower(s[1]), 0);
      if rank == -1 || suit == -1 then Err(BadCard(s)) else Ok(MakeCard(rank, suit))
  }

  /** `CardFromString`: the two table searches are loops, as in the source. */
  method CardFromString(s: string) returns (r: Result<Card, CardError>)
    ensures r == ParseCard(s)
  {
    if ByteLength(s) != 2 {
      return Err(BadLength(s));
    }
    if |s| != 2 {
      return Err(BadCard(s));
    }
    var up, low := ToUpper(s[0]), ToLower(s[1]);
    var rank, suit := -1, -1;
    var i := 0;
    while i < |RankChars|
      invariant 0 <= i <= |RankChars|
      invariant rank == -1 && RankIndexFrom(up, 0) == RankIndexFrom(up, i)
    {
      if EqualFold(RankChars[i], up) {
        rank := i;
        break;
      }
      i := i + 1;
    }
    assert rank == RankIndexFrom(up, 0);
    i := 0;
    while i < |SuitChars|
      invariant 0 <= i <= |SuitChars|
      invariant suit == -1 && SuitIndexFrom(low, 0) == SuitIndexFrom(low, i)
    {
      if SuitChars[i] == low {
        suit := i;
        break;
      }
      i := i + 1;
    }
    assert suit == SuitIndexFrom(low, 0);
    if rank == -1 || suit == -1 {
      return Err(BadCard(s));
    }
    return Ok(MakeCard(rank, suit));
  }

  /** A string has at least as many bytes as characters. */
  lemma {:induction false} ByteLengthAtLeast(s: string)
    ensures ByteLength(s) >= |s|
    ensures ByteLength(s) == |s| <==> forall i :: 0 <= i < |s| ==> s[i] as int < 0x80
  {
    if s != [] {
      var init := s[..|s| - 1];
      ByteLengthAtLeast(init);
      assert forall i :: 0 <= i < |init| ==> init[i] == s[i];
    }
  }

  /** Every rank character is found at its own index, whatever its case. */
  lemma RankCharFound(r: nat)
    requires r < 13
    ensures RankIndexFrom(RankChars[r], 0) == r
    ensures RankIndexFrom(ToUpper(ToLower(RankChars[r])), 0) == r
    ensures RankChars[r] as int < 0x80 && ToUpper(RankChars[r]) == RankChars[r]
  {
    assert RankChars == ['2', '3', '4', '5', '6', '7', '8', '9', 'T', 'J', 'Q', 'K', 'A'];
    var ch := RankChars[r];
    assert ToUpper(ToLower(ch)) == ch;
    forall j | 0 <= j < r
      ensures !EqualFold(RankChars[j], ch)
    {
    }
    RankIndexSkips(ch, 0, r);
  }

  /** The search passes over entries that do not match. */
  lemma {:induction false} RankIndexSkips(ch: char, i: nat, k: nat)
    requires i <= k < |RankChars| && EqualFold(RankChars[k], ch)
    requires forall j :: i <= j < k ==> !EqualFold(RankChars[j], ch)
    ensures RankIndexFrom(ch, i) == k
    decreases k - i
  {
    if i < k {
      RankIndexSkips(ch, i + 1, k);
    }
  }

  /** Every suit character is found at its own index. */
  lemma SuitCharFound(s: nat)
    requires s < 4
    ensures SuitIndexFrom(SuitChars[s], 0) == s
    ensures SuitChars[s] as int < 0x80 && ToLower(SuitChars[s]) == SuitChars[s]
  {
    assert SuitChars == ['c', 'd', 'h', 's'];
  }

  /** Parsing the rendering of any card gives that card back. */
  lemma RoundTrip(c: Card)
    ensures ParseCard(CardString(c)) == Ok(c)
  {
    var s := CardString(c);
    var r, t := Rank(c), Suit(c);
    RankCharFound(r);
    SuitCharFound(t);
    assert ByteLength(s) == 2 by {
      assert s[..1][..0] == [];
      assert ByteLength(s[..1]) == 1;
    }
    assert RankIndexFrom(ToUpper(s[0]), 0) == r;
    assert SuitIndexFrom(ToLower(s[1]), 0) == t;
    assert MakeCard(r, t) == c;
  }

  /** Only inputs of exactly two characters can parse. */
  lemma LengthNotTwoRejected(s: string)
    requires |s| != 2
    ensures ParseCard(s).Err?
  {
    ByteLengthAtLeast(s);
  }

  /**
   * A token parses exactly when it has two characters, the first an entry of
   * the rank table once upper-cased and the second an entry of the suit table
   * once lower-cased; the card parsed then renders as that canonical form.
   */
  lemma ParseCardAccepts(s: string)
    ensures ParseCard(s).Ok? <==>
      |s| == 2 && ToUpper(s[0]) in RankChars && ToLower(s[1]) in SuitChars
    ensures ParseCard(s).Ok? ==> CardString(ParseCard(s).value) == [ToUpper(s[0]), ToLower(s[1])]
  {
    if |s| != 2 {
      LengthNotTwoRejected(s);
      return;
    }
    var up, low := ToUpper(s[0]), ToLower(s[1]);
    if up in RankChars && low in SuitChars {
      var r :| 0 <= r < 13 && RankChars[r] == up;
      var t :| 0 <= t < 4 && SuitChars[t] == low;
      RankCharFound(r);
      SuitCharFound(t);
      assert s[0] as int < 0x80 && s[1] as int < 0x80;
      assert ByteLength(s) == 2 by {
        assert s[..1][..0] == [];
        assert ByteLength(s[..1]) == 1;
      }
      assert ParseCard(s) == Ok(MakeCard(r, t));
    }
    if ParseCard(s).Ok? {
      var rank := RankIndexFrom(up, 0);
      RankCharFound(rank);
      assert RankChars[rank] == up;
    }
  }

  /**
   * Both characters are case-insensitive: changing the case of either never
   * changes whether the token parses nor the card it gives.
   */
  lemma CaseInsensitive(a: char, b: char, a': char, b': char)
    requires ToUpper(a) == ToUpper(a') && ToLower(b) == ToLower(b')
    ensures ParseCard([a, b]).Ok? == ParseCard([a', b']).Ok?
    ensures ParseCard([a, b]).Ok? ==> ParseCard([a, b]).value == ParseCard([a', b']).value
  {
    ParseCardAccepts([a, b]);
    ParseCardAccepts([a', b']);
    if ParseCard([a, b]).Ok? {
      var c, c' := ParseCard([a, b]).value, ParseCard([a', b']).value;
      RoundTrip(c);
      RoundTrip(c');
    }
  }
}
