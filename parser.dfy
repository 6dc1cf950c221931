/**
 * The hand parser of pkg/poker/parser.go: an argument is split into
 * whitespace-separated fields (or, when there is a single field, into
 * comma-separated pieces of the whole argument), there must be exactly four
 * tokens, and each trimmed token must be a card not seen before.
 *
 * The string functions it calls (strings.Fields, strings.Split,
 * strings.TrimSpace) are written out as functions over Unicode code points,
 * with Go's unicode.IsSpace as the notion of white space.
 */
module Parser {
  import opened Wrappers
  import opened Cards
  import Decks

  /** ch lies in one of the inclusive code-point ranges, as Go's unicode range tables are read. */
  predicate InRanges(ch: char, ranges: seq<(char, char)>)
  {
    ranges != [] && ((ranges[0].0 <= ch <= ranges[0].1) || InRanges(ch, ranges[1..]))
  }

  /** The White_Space property: the ranges of Go's unicode.White_Space table. */
  const WhiteSpace: seq<(char, char)> := [
    ('\t', '\r'), (' ', ' '), ('\U{0085}', '\U{0085}'), ('\U{00A0}', '\U{00A0}'), ('\U{1680}', '\U{1680}'),
    ('\U{2000}', '\U{200A}'), ('\U{2028}', '\U{2029}'), ('\U{202F}', '\U{202F}'), ('\U{205F}', '\U{205F}'),
    ('\U{3000}', '\U{3000}')]

  /**
   * unicode.IsSpace: the Latin-1 spaces are listed in Go separately, but
   * they are exactly the White_Space code points below U+0100.
   */
  predicate IsSpace(ch: char)
  {
    InRanges(ch, WhiteSpace)
  }

  predicate NoSpace(s: string)
  {
    forall i :: 0 <= i < |s| ==> !IsSpace(s[i])
  }

  /** The input after its leading white space. */
  function SkipSpaces(s: string): (t: string)
    ensures |t| <= |s| && t == s[|s| - |t|..]
    ensures forall i :: 0 <= i < |s| - |t| ==> IsSpace(s[i])
    ensures t == [] || !IsSpace(t[0])
  {
    if s != [] && IsSpace(s[0]) then
      var t := SkipSpaces(s[1..]);
      assert s[1..][|s| - 1 - |t|..] == s[|s| - |t|..];
      assert forall i :: 1 <= i < |s| ==> s[1..][i - 1] == s[i];
      t
    else s
  }

  /** Length of the longest prefix without white space. */
  function WordLength(s: string): (k: nat)
    ensures k <= |s| && NoSpace(s[..k])
    ensures k == |s| || IsSpace(s[k])
  {
    if s == [] || IsSpace(s[0]) then 0 else 1 + WordLength(s[1..])
  }

  /** strings.Fields: the maximal runs of non-space characters, in order. */
  function Fields(s: string): seq<string>
    decreases |s|
  {
    var t := SkipSpaces(s);
    if t == [] then [] else [t[..WordLength(t)]] + Fields(t[WordLength(t)..])
  }

  /** Every field is a non-empty word without white space. */
  lemma {:induction false} FieldsAreWords(s: string)
    decreases |s|
    ensures forall k :: 0 <= k < |Fields(s)| ==> Fields(s)[k] != [] && NoSpace(Fields(s)[k])
  {
    var t := SkipSpaces(s);
    if t != [] {
      var k := WordLength(t);
      var rest := Fields(t[k..]);
      FieldsAreWords(t[k..]);
      assert Fields(s) == [t[..k]] + rest;
      forall j | 0 <= j < |Fields(s)|
        ensures Fields(s)[j] != [] && NoSpace(Fields(s)[j])
      {
        if j > 0 {
          assert Fields(s)[j] == rest[j - 1];
        }
      }
    }
  }

  /** Position of the first `sep` in `s`, or |s| when there is none. */
  function IndexOf(s: string, sep: char): (k: nat)
    ensures k <= |s| && (k < |s| ==> s[k] == sep)
    ensures forall i :: 0 <= i < k ==> s[i] != sep
  {
    if s == [] || s[0] == sep then 0 else 1 + IndexOf(s[1..], sep)
  }

  /** strings.Split with a one-character separator. */
  function Split(s: string, sep: char): (parts: seq<string>)
    decreases |s|
    ensures |parts| >= 1
  {
    var k := IndexOf(s, sep);
    if k == |s| then [s] else [s[..k]] + Split(s[k + 1..], sep)
  }

  /** No piece of a split contains the separator. */
  lemma {:induction false} SplitPieces(s: string, sep: char)
    decreases |s|
    ensures forall k :: 0 <= k < |Split(s, sep)| ==> sep !in Split(s, sep)[k]
  {
    var k := IndexOf(s, sep);
    if k < |s| {
      var rest := Split(s[k + 1..], sep);
      SplitPieces(s[k + 1..], sep);
      assert Split(s, sep) == [s[..k]] + rest;
      forall j | 0 <= j < |Split(s, sep)|
        ensures sep !in Split(s, sep)[j]
      {
        if j > 0 {
          assert Split(s, sep)[j] == rest[j - 1];
        }
      }
    }
  }

  /** strings.Join, the inverse of Split. */
  function Join(parts: seq<string>, sep: char): string
    requires |parts| >= 1
  {
    if |parts| == 1 then parts[0] else parts[0] + [sep] + Join(parts[1..], sep)
  }

  function Occurrences(s: string, ch: char): nat
  {
    if s == [] then 0 else (if s[0] == ch then 1 else 0) + Occurrences(s[1..], ch)
  }

  /** Splitting and joining again gives back the input. */
  lemma {:induction false} SplitJoin(s: string, sep: char)
    decreases |s|
    ensures Join(Split(s, sep), sep) == s
  {
    var k := IndexOf(s, sep);
    if k < |s| {
      var parts, rest := Split(s, sep), Split(s[k + 1..], sep);
      SplitJoin(s[k + 1..], sep);
      assert parts == [s[..k]] + rest;
      assert parts[0] == s[..k] && parts[1..] == rest;
      assert Join(parts, sep) == s[..k] + [sep] + Join(rest, sep);
      assert s == s[..k] + [sep] + s[k + 1..];
    }
  }

  /** There is one piece more than there are separators. */
  lemma {:induction false} SplitCount(s: string, sep: char)
    decreases |s|
    ensures |Split(s, sep)| == 1 + Occurrences(s, sep)
  {
    var k := IndexOf(s, sep);
    OccurrencesSkip(s, sep, k);
    if k < |s| {
      SplitCount(s[k + 1..], sep);
      assert Split(s, sep) == [s[..k]] + Split(s[k + 1..], sep);
      assert s[k..][1..] == s[k + 1..];
      assert Occurrences(s[k..], sep) == 1 + Occurrences(s[k + 1..], sep);
    } else {
      assert Split(s, sep) == [s];
      assert s[k..] == [];
    }
  }

  lemma {:induction false} OccurrencesSkip(s: string, ch: char, k: nat)
    requires k <= |s| && forall i :: 0 <= i < k ==> s[i] != ch
    ensures Occurrences(s, ch) == Occurrences(s[k..], ch)
  {
    if k > 0 {
      OccurrencesSkip(s[1..], ch, k - 1);
      assert s[1..][k - 1..] == s[k..];
    }
  }

  function TrimRight(s: string): (t: string)
    ensures |t| <= |s| && t == s[..|t|]
    ensures forall i :: |t| <= i < |s| ==> IsSpace(s[i])
    ensures t == [] || !IsSpace(t[|t| - 1])
  {
    if s != [] && IsSpace(s[|s| - 1]) then TrimRight(s[..|s| - 1]) else s
  }

  /** strings.TrimSpace: the input without leading and trailing white space. */
  function TrimSpace(s: string): string
  {
    TrimRight(SkipSpaces(s))
  }

  /** Number of leading white-space characters. */
  function LeadingSpaces(s: string): nat
  {
    |s| - |SkipSpaces(s)|
  }

  /**
   * TrimSpace cuts white space only, from both ends, and leaves a string
   * that neither starts nor ends with white space.
   */
  lemma TrimSpaceInfix(s: string)
    ensures var t, a := TrimSpace(s), LeadingSpaces(s);
      a + |t| <= |s| && t == s[a..a + |t|]
      && (forall i :: 0 <= i < a ==> IsSpace(s[i]))
      && (forall i :: a + |t| <= i < |s| ==> IsSpace(s[i]))
      && (t == [] || (!IsSpace(t[0]) && !IsSpace(t[|t| - 1])))
  {
    TrimSpaceSlice(s);
    TrimSpaceTrailing(s);
  }

  /** The trimmed string is the slice of s after the leading white space. */
  lemma TrimSpaceSlice(s: string)
    ensures LeadingSpaces(s) + |TrimSpace(s)| <= |s|
    ensures TrimSpace(s) == s[LeadingSpaces(s)..LeadingSpaces(s) + |TrimSpace(s)|]
    ensures TrimSpace(s) == [] || (!IsSpace(TrimSpace(s)[0]) && !IsSpace(TrimSpace(s)[|TrimSpace(s)| - 1]))
  {
    var u := SkipSpaces(s);
    TrimmedSlice(s, u, TrimRight(u));
  }

  /** The facts of TrimSpaceSlice, for a suffix u of s and a prefix t of u. */
  lemma TrimmedSlice(s: string, u: string, t: string)
    requires |u| <= |s| && u == s[|s| - |u|..] && (u == [] || !IsSpace(u[0]))
    requires |t| <= |u| && t == u[..|t|] && (t == [] || !IsSpace(t[|t| - 1]))
    ensures |s| - |u| + |t| <= |s| && t == s[|s| - |u|..|s| - |u| + |t|]
    ensures t == [] || (!IsSpace(t[0]) && !IsSpace(t[|t| - 1]))
  {
    PrefixOfSuffix(s, u, t);
    if t != [] {
      assert t[0] == u[0];
    }
  }

  /** Everything after the trimmed string is white space. */
  lemma TrimSpaceTrailing(s: string)
    ensures forall i :: LeadingSpaces(s) + |TrimSpace(s)| <= i < |s| ==> IsSpace(s[i])
  {
    var u := SkipSpaces(s);
    var t := TrimRight(u);
    var a := |s| - |u|;
    forall i | a + |t| <= i < |s|
      ensures IsSpace(s[i])
    {
      SuffixAt(s, u, i);
      assert IsSpace(u[i - a]);
    }
  }

  /** A prefix t of a suffix u of s sits in s right where u starts. */
  lemma PrefixOfSuffix(s: string, u: string, t: string)
    requires |u| <= |s| && u == s[|s| - |u|..] && |t| <= |u| && t == u[..|t|]
    ensures t == s[|s| - |u|..|s| - |u| + |t|]
  {
  }

  /** Position i of s, read in its suffix u. */
  lemma SuffixAt(s: string, u: string, i: nat)
    requires |u| <= |s| && u == s[|s| - |u|..] && |s| - |u| <= i < |s|
    ensures s[i] == u[i - (|s| - |u|)]
  {
  }

  /** A token without white space is left as it is by TrimSpace. */
  lemma TrimSpaceNoSpace(s: string)
    requires NoSpace(s)
    ensures TrimSpace(s) == s
  {
    if s != [] {
      assert !IsSpace(s[0]) && !IsSpace(s[|s| - 1]);
    }
  }

  /** A non-empty word without white space is a single field. */
  lemma FieldsOfWord(s: string)
    requires s != [] && NoSpace(s)
    ensures Fields(s) == [s]
  {
    assert SkipSpaces(s) == s;
    var k := WordLength(s);
    assert k == |s|;
    assert s[..k] == s && s[k..] == [];
  }

  /**
   * The tokens of parser.go:10-14: the fields, or the comma-separated pieces
   * of the whole argument when there is exactly one field.
   */
  function Tokens(arg: string): (ts: seq<string>)
    ensures |Fields(arg)| != 1 ==> ts == Fields(arg)
    ensures |Fields(arg)| == 1 ==> ts == Split(arg, ',') && Join(ts, ',') == arg
  {
    SplitJoin(arg, ',');
    var fs := Fields(arg);
    if |fs| == 1 then Split(arg, ',') else fs
  }

  /** A word of a joined string: non-empty and without white space. */
  predicate Words(ws: seq<string>)
  {
    forall k :: 0 <= k < |ws| ==> ws[k] != [] && NoSpace(ws[k])
  }

  /** A word runs up to the first white space after it. */
  lemma WordLengthOfWord(w: string, rest: string)
    requires NoSpace(w) && rest != [] && IsSpace(rest[0])
    ensures WordLength(w + rest) == |w|
    decreases |w|
  {
    if w != [] {
      assert (w + rest)[1..] == w[1..] + rest;
      WordLengthOfWord(w[1..], rest);
    } else {
      assert (w + rest)[0] == rest[0];
    }
  }

  /** Leading white space does not change the fields. */
  lemma FieldsAfterSpace(ch: char, s: string)
    requires IsSpace(ch)
    ensures Fields([ch] + s) == Fields(s)
  {
    assert ([ch] + s)[1..] == s;
    assert SkipSpaces([ch] + s) == SkipSpaces(s);
  }

  /**
   * strings.Fields undoes a join with a white-space separator: the fields of
   * words joined by white space are those words, in order.
   */
  lemma {:induction false} FieldsJoin(ws: seq<string>, sep: char)
    requires |ws| >= 1 && Words(ws) && IsSpace(sep)
    decreases |ws|
    ensures Fields(Join(ws, sep)) == ws
  {
    if |ws| == 1 {
      FieldsOfWord(ws[0]);
      assert Join(ws, sep) == ws[0];
      assert ws == [ws[0]];
    } else {
      var tail := ws[1..];
      assert Words(tail);
      var r := Join(tail, sep);
      FieldsJoin(tail, sep);
      FieldsJoinStep(ws[0], sep, r, tail);
      assert Join(ws, sep) == ws[0] + [sep] + r;
      HeadTail(ws);
    }
  }

  lemma HeadTail(ws: seq<string>)
    requires ws != []
    ensures ws == [ws[0]] + ws[1..]
  {
  }

  /** The step of FieldsJoin: a word, a white-space separator, then the rest. */
  lemma FieldsJoinStep(w: string, sep: char, rest: string, tail: seq<string>)
    requires w != [] && NoSpace(w) && IsSpace(sep) && Fields(rest) == tail
    ensures Fields(w + [sep] + rest) == [w] + tail
  {
    assert w + [sep] + rest == w + ([sep] + rest);
    FieldsOfWordThen(w, [sep] + rest);
    FieldsAfterSpace(sep, rest);
  }

  /** A word followed by white space is the first field. */
  lemma FieldsOfWordThen(w: string, rest: string)
    requires w != [] && NoSpace(w) && rest != [] && IsSpace(rest[0])
    ensures Fields(w + rest) == [w] + Fields(rest)
  {
    var s := w + rest;
    assert s[0] == w[0];
    assert SkipSpaces(s) == s;
    WordLengthOfWord(w, rest);
    assert s[..|w|] == w && s[|w|..] == rest;
  }

  /** IndexOf finds the separator right after a separator-free piece. */
  lemma IndexOfPiece(w: string, rest: string, sep: char)
    requires sep !in w && rest != [] && rest[0] == sep
    ensures IndexOf(w + rest, sep) == |w|
    decreases |w|
  {
    if w != [] {
      assert (w + rest)[1..] == w[1..] + rest;
      assert w[0] in w;
      assert forall x :: x in w[1..] ==> x in w;
      IndexOfPiece(w[1..], rest, sep);
    } else {
      assert (w + rest)[0] == rest[0];
    }
  }

  /** Split undoes Join when no piece holds the separator. */
  lemma {:induction false} SplitOfJoin(ws: seq<string>, sep: char)
    requires |ws| >= 1 && forall k :: 0 <= k < |ws| ==> sep !in ws[k]
    decreases |ws|
    ensures Split(Join(ws, sep), sep) == ws
  {
    var s := Join(ws, sep);
    if |ws| == 1 {
      assert s == ws[0];
    } else {
      var w, rest := ws[0], Join(ws[1..], sep);
      assert s == w + ([sep] + rest);
      IndexOfPiece(w, [sep] + rest, sep);
      assert s[..|w|] == w && s[|w| + 1..] == rest;
      SplitOfJoin(ws[1..], sep);
    }
  }

  /** A join of white-space-free words with a character that is not white space has none either. */
  lemma {:induction false} JoinNoSpace(ws: seq<string>, sep: char)
    requires |ws| >= 1 && Words(ws) && !IsSpace(sep)
    decreases |ws|
    ensures Join(ws, sep) != [] && NoSpace(Join(ws, sep))
  {
    if |ws| > 1 {
      JoinNoSpace(ws[1..], sep);
      var s, rest := Join(ws, sep), Join(ws[1..], sep);
      assert s == ws[0] + [sep] + rest;
      forall i | 0 <= i < |s|
        ensures !IsSpace(s[i])
      {
        if i < |ws[0]| {
          assert s[i] == ws[0][i];
        } else if i > |ws[0]| {
          assert s[i] == rest[i - |ws[0]| - 1];
        }
      }
    }
  }

  /**
   * Both forms of argument tokenize as intended: two or more words separated
   * by white space give those words, and one or more comma-separated pieces
   * without white space give those pieces.
   */
  lemma TokensOfWords(ws: seq<string>, sep: char)
    requires |ws| >= 2 && Words(ws) && IsSpace(sep)
    ensures Tokens(Join(ws, sep)) == ws
  {
    FieldsJoin(ws, sep);
  }

  /** See TokensOfWords: the comma-separated form. */
  lemma TokensOfCommaPieces(ws: seq<string>)
    requires |ws| >= 1 && Words(ws) && forall k :: 0 <= k < |ws| ==> ',' !in ws[k]
    ensures Tokens(Join(ws, ',')) == ws
  {
    assert !IsSpace(',');
    JoinNoSpace(ws, ',');
    FieldsOfWord(Join(ws, ','));
    SplitOfJoin(ws, ',');
  }

  datatype ParseError =
    | WrongCount(got: nat)       // "need exactly 4 cards, got %d"
    | BadToken(cause: CardError) // the error of CardFromString
    | Duplicate(card: Card)      // "duplicate card %s"

  /** The outcome of CardFromString(strings.TrimSpace(p)) for each token p. */
  function Parsed(parts: seq<string>): (rs: seq<Result<Card, CardError>>)
    ensures |rs| == |parts|
  {
    seq(|parts|, k requires 0 <= k < |parts| => ParseCard(TrimSpace(parts[k])))
  }

  /** Prefixes the cards already accepted to the outcome of the rest. */
  function Prepend(hand: seq<Card>, r: Result<seq<Card>, ParseError>): Result<seq<Card>, ParseError>
  {
    match r
    case Ok(rest) => Ok(hand + rest)
    case Err(e) => Err(e)
  }

  /**
   * The loop of parser.go:20-30 over the parse outcomes of the tokens, having
   * seen the cards `seen`: the first failing token or repeated card ends it.
   */
  function Collect(rs: seq<Result<Card, CardError>>, seen: set<Card>): Result<seq<Card>, ParseError>
  {
    if rs == [] then Ok([])
    else
      match rs[0]
      case Err(e) => Err(BadToken(e))
      case Ok(c) =>
        if c in seen then Err(Duplicate(c))
        else Prepend([c], Collect(rs[1..], seen + {c}))
  }

  function ParseHandSpec(arg: string): Result<seq<Card>, ParseError>
  {
    ParseParts(Tokens(arg))
  }

  /** ParseHand after the split, on the tokens parts. */
  function ParseParts(parts: seq<string>): Result<seq<Card>, ParseError>
  {
    if |parts| != 4 then Err(WrongCount(|parts|)) else Collect(Parsed(parts), {})
  }

  lemma PrependAssoc(h: seq<Card>, c: Card, r: Result<seq<Card>, ParseError>)
    ensures Prepend(h, Prepend([c], r)) == Prepend(h + [c], r)
  {
    if r.Ok? {
      assert h + ([c] + r.value) == (h + [c]) + r.value;
    }
  }

  lemma PrependNothing(r: Result<seq<Card>, ParseError>)
    ensures Prepend([], r) == r
  {
    if r.Ok? {
      assert [] + r.value == r.value;
    }
  }

  /** One turn of the loop of ParseHand, on the outcome `rs[i]` of token i. */
  lemma CollectStep(rs: seq<Result<Card, CardError>>, i: nat, hand: seq<Card>, seen: set<Card>,
                    spec: Result<seq<Card>, ParseError>)
    requires i < |rs| && spec == Prepend(hand, Collect(rs[i..], seen))
    ensures rs[i].Err? ==> spec == Err(BadToken(rs[i].error))
    ensures rs[i].Ok? && rs[i].value in seen ==> spec == Err(Duplicate(rs[i].value))
    ensures rs[i].Ok? && rs[i].value !in seen ==>
      spec == Prepend(hand + [rs[i].value], Collect(rs[i + 1..], seen + {rs[i].value}))
  {
    assert rs[i..][1..] == rs[i + 1..];
    if rs[i].Ok? && rs[i].value !in seen {
      PrependAssoc(hand, rs[i].value, Collect(rs[i + 1..], seen + {rs[i].value}));
    }
  }

  /** ParseHand, parser.go:9-32: split the argument into tokens, then read the four cards. */
  method ParseHand(arg: string) returns (r: Result<seq<Card>, ParseError>)
    ensures r == ParseHandSpec(arg)
  {
    var parts := Tokens(arg);
    if |parts| != 4 {
      return Err(WrongCount(|parts|));
    }
    r := CollectCards(parts);
  }

  /**
   * The loop of parser.go:18-31: read each trimmed token as a card, stop at
   * the first error or repeated card, else return the cards in order.
   */
  method CollectCards(parts: seq<string>) returns (r: Result<seq<Card>, ParseError>)
    ensures r == Collect(Parsed(parts), {})
  {
    ghost var rs := Parsed(parts);
    ghost var spec := Collect(rs, {});
    assert rs[0..] == rs;
    PrependNothing(spec);
    var hand: seq<Card> := [];
    var seen: set<Card> := {};
    for i := 0 to |parts|
      invariant spec == Prepend(hand, Collect(rs[i..], seen))
    {
      CollectStep(rs, i, hand, seen, spec);
      var c := CardFromString(TrimSpace(parts[i]));
      assert c == rs[i];
      if c.Err? {
        return Err(BadToken(c.error));
      }
      if c.value in seen {
        return Err(Duplicate(c.value));
      }
      seen := seen + {c.value};
      hand := hand + [c.value];
    }
    assert rs[|parts|..] == [];
    assert hand + [] == hand;
    return Ok(hand);
  }

  /**
   * The loop succeeds exactly when every token is a card, the cards are
   * pairwise distinct and none was seen before; it then returns them in
   * token order.
   */
  lemma {:induction false} CollectOk(rs: seq<Result<Card, CardError>>, seen: set<Card>)
    ensures Collect(rs, seen).Ok? <==>
      (forall k :: 0 <= k < |rs| ==> rs[k].Ok? && rs[k].value !in seen)
      && (forall k, l :: 0 <= k < l < |rs| ==> rs[k] != rs[l])
    ensures Collect(rs, seen).Ok? ==>
      var h := Collect(rs, seen).value;
      |h| == |rs| && forall k :: 0 <= k < |rs| ==> rs[k] == Ok(h[k])
  {
    if rs != [] {
      var rest := rs[1..];
      assert forall k :: 1 <= k < |rs| ==> rs[k] == rest[k - 1];
      match rs[0]
      case Err(e) =>
      case Ok(c) =>
        CollectOk(rest, seen + {c});
    }
  }

  /**
   * ParseHand succeeds exactly when there are four tokens that are four
   * different cards; the hand is then those cards in token order.
   */
  lemma ParseHandOk(arg: string)
    ensures var rs := Parsed(Tokens(arg));
      ParseHandSpec(arg).Ok? <==>
        |rs| == 4 && (forall k :: 0 <= k < 4 ==> rs[k].Ok?)
        && forall k, l :: 0 <= k < l < 4 ==> rs[k] != rs[l]
    ensures var rs := Parsed(Tokens(arg));
      ParseHandSpec(arg).Ok? ==>
        var h := ParseHandSpec(arg).value;
        |h| == 4 && Decks.Distinct(h)
        && forall k :: 0 <= k < 4 ==> ParseCard(TrimSpace(Tokens(arg)[k])) == Ok(h[k])
  {
    PartsOk(Tokens(arg));
  }

  lemma PartsOk(parts: seq<string>)
    ensures var rs := Parsed(parts);
      ParseParts(parts).Ok? <==>
        |rs| == 4 && (forall k :: 0 <= k < 4 ==> rs[k].Ok?)
        && forall k, l :: 0 <= k < l < 4 ==> rs[k] != rs[l]
    ensures var rs := Parsed(parts);
      ParseParts(parts).Ok? ==>
        var h := ParseParts(parts).value;
        |h| == 4 && Decks.Distinct(h)
        && forall k :: 0 <= k < 4 ==> ParseCard(TrimSpace(parts[k])) == Ok(h[k])
  {
    var rs := Parsed(parts);
    CollectOk(rs, {});
    if |parts| == 4 {
      assert ParseParts(parts) == Collect(rs, {});
      if Collect(rs, {}).Ok? {
        var h := Collect(rs, {}).value;
        forall i, j | 0 <= i < j < 4
          ensures h[i] != h[j]
        {
          assert rs[i] == Ok(h[i]) && rs[j] == Ok(h[j]);
        }
      }
    }
  }

  /** Outcomes that are all cards, pairwise different and not seen before, collect to those cards. */
  lemma {:induction false} CollectCardsOk(rs: seq<Result<Card, CardError>>, h: seq<Card>, seen: set<Card>)
    requires |rs| == |h| && Decks.Distinct(h)
    requires forall k :: 0 <= k < |h| ==> rs[k] == Ok(h[k]) && h[k] !in seen
    decreases |h|
    ensures Collect(rs, seen) == Ok(h)
  {
    if h != [] {
      CollectCardsOk(rs[1..], h[1..], seen + {h[0]});
      assert [h[0]] + h[1..] == h;
    }
  }

  /** The renderings of a hand's cards, as Card.String gives them. */
  function Rendered(h: seq<Card>): (ws: seq<string>)
    ensures |ws| == |h| && forall k :: 0 <= k < |h| ==> ws[k] == CardString(h[k])
  {
    seq(|h|, k requires 0 <= k < |h| => CardString(h[k]))
  }

  /** No printable ASCII character other than the blank is white space. */
  lemma {:induction false} PrintableNotSpace(ch: char, ranges: seq<(char, char)>)
    requires '!' <= ch <= '~'
    requires forall k :: 0 <= k < |ranges| ==> ranges[k].1 < '!' || '~' < ranges[k].0
    ensures !InRanges(ch, ranges)
  {
    if ranges != [] {
      PrintableNotSpace(ch, ranges[1..]);
    }
  }

  /** A card's rendering is a word without white space or commas. */
  lemma CardStringWord(c: Card)
    ensures CardString(c) != [] && NoSpace(CardString(c)) && ',' !in CardString(c)
  {
    var s := CardString(c);
    assert forall i :: 0 <= i < 13 ==> '2' <= RankChars[i] <= 'A' || RankChars[i] in "JKQT";
    assert forall i :: 0 <= i < 4 ==> 'c' <= SuitChars[i] <= 's';
    forall i | 0 <= i < 2
      ensures !IsSpace(s[i])
    {
      PrintableNotSpace(s[i], WhiteSpace);
    }
  }

  /**
   * A hand of four different cards, rendered and joined by white space or
   * by commas, parses back to that hand.
   */
  lemma ParseRendered(h: seq<Card>, sep: char)
    requires |h| == 4 && Decks.Distinct(h) && (IsSpace(sep) || sep == ',')
    ensures ParseHandSpec(Join(Rendered(h), sep)) == Ok(h)
  {
    RenderedTokens(h, sep);
    PartsRendered(h);
  }

  /** The renderings joined by white space or commas split back into the renderings. */
  lemma RenderedTokens(h: seq<Card>, sep: char)
    requires |h| >= 2 && (IsSpace(sep) || sep == ',')
    ensures Tokens(Join(Rendered(h), sep)) == Rendered(h)
  {
    var ws := Rendered(h);
    forall k | 0 <= k < |h|
      ensures ws[k] != [] && NoSpace(ws[k]) && ',' !in ws[k]
    {
      CardStringWord(h[k]);
    }
    if IsSpace(sep) {
      TokensOfWords(ws, sep);
    } else {
      TokensOfCommaPieces(ws);
    }
  }

  /** The rendered tokens of four different cards are accepted, in order. */
  lemma PartsRendered(h: seq<Card>)
    requires |h| == 4 && Decks.Distinct(h)
    ensures ParseParts(Rendered(h)) == Ok(h)
  {
    var ws := Rendered(h);
    var rs := Parsed(ws);
    forall k | 0 <= k < 4
      ensures rs[k] == Ok(h[k])
    {
      CardStringWord(h[k]);
      TrimSpaceNoSpace(ws[k]);
      RoundTrip(h[k]);
    }
    CollectCardsOk(rs, h, {});
  }

  /** A token count other than four is reported with the count. */
  lemma ParseHandCount(arg: string)
    ensures |Tokens(arg)| != 4 <==> ParseHandSpec(arg) == Err(WrongCount(|Tokens(arg)|))
  {
    if |Tokens(arg)| == 4 {
      CollectNoCount(Parsed(Tokens(arg)), {});
    }
  }

  /** The loop itself never reports a count error. */
  lemma {:induction false} CollectNoCount(rs: seq<Result<Card, CardError>>, seen: set<Card>)
    ensures !Collect(rs, seen).Err? || !Collect(rs, seen).error.WrongCount?
  {
    if rs != [] && rs[0].Ok? && rs[0].value !in seen {
      CollectNoCount(rs[1..], seen + {rs[0].value});
    }
  }

  /**
   * The first token, in order, that is not a card decides the error when the
   * cards before it are all different.
   */
  lemma {:induction false} CollectBadToken(rs: seq<Result<Card, CardError>>, seen: set<Card>, k: nat)
    requires k < |rs| && rs[k].Err?
    requires forall j :: 0 <= j < k ==> rs[j].Ok? && rs[j].value !in seen
    requires forall i, j :: 0 <= i < j < k ==> rs[i] != rs[j]
    ensures Collect(rs, seen) == Err(BadToken(rs[k].error))
  {
    if k > 0 {
      var rest := rs[1..];
      assert forall j :: 1 <= j < |rs| ==> rs[j] == rest[j - 1];
      CollectBadToken(rest, seen + {rs[0].value}, k - 1);
    }
  }

  /**
   * A card equal to an earlier one, with all cards before it different, is
   * reported as a duplicate.
   */
  lemma {:induction false} CollectDuplicate(rs: seq<Result<Card, CardError>>, seen: set<Card>, i: nat, k: nat)
    requires i < k < |rs|
    requires forall j :: 0 <= j <= k ==> rs[j].Ok?
    requires forall j :: 0 <= j < k ==> rs[j].value !in seen
    requires forall a, b :: 0 <= a < b < k ==> rs[a] != rs[b]
    requires rs[i] == rs[k]
    ensures Collect(rs, seen) == Err(Duplicate(rs[k].value))
  {
    var rest := rs[1..];
    assert forall j :: 1 <= j < |rs| ==> rs[j] == rest[j - 1];
    if i > 0 {
      CollectDuplicate(rest, seen + {rs[0].value}, i - 1, k - 1);
    } else {
      CollectSeen(rest, seen + {rs[0].value}, k - 1);
    }
  }

  lemma {:induction false} CollectSeen(rs: seq<Result<Card, CardError>>, seen: set<Card>, k: nat)
    requires k < |rs|
    requires forall j :: 0 <= j <= k ==> rs[j].Ok?
    requires forall j :: 0 <= j < k ==> rs[j].value !in seen
    requires forall a, b :: 0 <= a < b < k ==> rs[a] != rs[b]
    requires rs[k].value in seen
    ensures Collect(rs, seen) == Err(Duplicate(rs[k].value))
  {
    if k > 0 {
      var rest := rs[1..];
      assert forall j :: 1 <= j < |rs| ==> rs[j] == rest[j - 1];
      CollectSeen(rest, seen + {rs[0].value}, k - 1);
    }
  }
}
