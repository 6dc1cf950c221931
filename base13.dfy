/**
 * Base-13 packing, the encoding both evaluators of pkg/poker/evaluator.go
 * use for their tie-breaks: a list of ranks (digits 0..12) is folded left
 * to right as `acc = acc*13 + v`.
 */
module Base13 {
  function Pow13(n: nat): (p: nat)
    ensures p >= 1
  {
    if n == 0 then 1 else 13 * Pow13(n - 1)
  }

  predicate Digits(v: seq<nat>)
  {
    forall i :: 0 <= i < |v| ==> v[i] < 13
  }

  /** The fold `acc = acc*13 + v` over the list, from the left. */
  function Pack(v: seq<nat>): nat
  {
    if v == [] then 0 else Pack(v[..|v| - 1]) * 13 + v[|v| - 1]
  }

  /** A packed list of n digits is below 13^n. */
  lemma {:induction false} PackBound(v: seq<nat>)
    requires Digits(v)
    ensures Pack(v) < Pow13(|v|)
  {
    if v != [] {
      var init := v[..|v| - 1];
      PackBound(init);
      assert Pack(init) + 1 <= Pow13(|init|);
      assert Pack(init) * 13 + 13 <= Pow13(|init|) * 13;
    }
  }

  /** Packing a concatenation: the left part is shifted by the length of the right part. */
  lemma {:induction false} PackAppend(u: seq<nat>, v: seq<nat>)
    ensures Pack(u + v) == Pack(u) * Pow13(|v|) + Pack(v)
  {
    if v == [] {
      assert u + v == u;
    } else {
      var init, last := v[..|v| - 1], v[|v| - 1];
      PackAppend(u, init);
      assert (u + v)[..|u + v| - 1] == u + init;
      calc {
        Pack(u + v);
        Pack(u + init) * 13 + last;
        (Pack(u) * Pow13(|init|) + Pack(init)) * 13 + last;
        { assert (Pack(u) * Pow13(|init|)) * 13 == Pack(u) * (13 * Pow13(|init|)); }
        Pack(u) * Pow13(|v|) + (Pack(init) * 13 + last);
      }
    }
  }

  /** u comes strictly before v in lexicographic order. */
  predicate LexLess(u: seq<nat>, v: seq<nat>)
  {
    exists k :: 0 <= k < |u| && k < |v| && u[..k] == v[..k] && u[k] < v[k]
  }

  /** Packing a list split at k. */
  lemma PackSplit(u: seq<nat>, k: nat)
    requires k <= |u|
    ensures Pack(u) == Pack(u[..k]) * Pow13(|u| - k) + Pack(u[k..])
  {
    assert u == u[..k] + u[k..];
    PackAppend(u[..k], u[k..]);
  }

  lemma ShiftedLess(a: nat, b: nat, p: nat, x: nat, y: nat)
    requires a < b && x < p
    ensures a * p + x < b * p + y
  {
    var d: nat := b - a - 1;
    calc {
      b * p;
      (a + 1 + d) * p;
      a * p + p + d * p;
    }
    assert d * p >= 0;
  }

  /** A value shifted by p plus a remainder below p splits back into both. */
  lemma ShiftedSplit(a: nat, p: nat, x: nat)
    requires x < p
    ensures (a * p + x) / p == a && (a * p + x) % p == x
  {
    var q, r := (a * p + x) / p, (a * p + x) % p;
    assert q * p + r == a * p + x;
    if q > a {
      ShiftedLess(a, q, p, x, r);
    } else if q < a {
      ShiftedLess(q, a, p, r, x);
    }
  }

  /** For lists of the same length, packing preserves lexicographic order. */
  lemma PackLexLess(u: seq<nat>, v: seq<nat>)
    requires |u| == |v| && Digits(u) && Digits(v) && LexLess(u, v)
    ensures Pack(u) < Pack(v)
  {
    var k :| 0 <= k < |u| && u[..k] == v[..k] && u[k] < v[k];
    PackSplit(u, k + 1);
    PackSplit(v, k + 1);
    assert Pack(u[..k + 1]) < Pack(v[..k + 1]) by {
      assert u[..k + 1][..k] == u[..k] && v[..k + 1][..k] == v[..k];
    }
    assert Digits(u[k + 1..]);
    PackBound(u[k + 1..]);
    ShiftedLess(Pack(u[..k + 1]), Pack(v[..k + 1]), Pow13(|u| - (k + 1)), Pack(u[k + 1..]), Pack(v[k + 1..]));
  }

  /** Two different lists of the same length are ordered one way or the other. */
  lemma LexTotal(u: seq<nat>, v: seq<nat>)
    requires |u| == |v| && u != v
    ensures LexLess(u, v) || LexLess(v, u)
  {
    var k := 0;
    while k < |u| && u[k] == v[k]
      invariant k <= |u| && u[..k] == v[..k]
    {
      assert u[..k + 1] == u[..k] + [u[k]] && v[..k + 1] == v[..k] + [v[k]];
      k := k + 1;
    }
  }

  /** Packing orders lists of digits of one length exactly as lexicographic order does. */
  lemma PackOrder(u: seq<nat>, v: seq<nat>)
    requires |u| == |v| && Digits(u) && Digits(v)
    ensures Pack(u) < Pack(v) <==> LexLess(u, v)
  {
    if LexLess(u, v) {
      PackLexLess(u, v);
    } else if u != v {
      LexTotal(u, v);
      PackLexLess(v, u);
    }
  }
}
