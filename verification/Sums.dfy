/** Totals of sequences under a weight. */
module Sums {

  function TotalOf<T>(shard: seq<T>, w: T -> nat): nat {
    if shard == [] then 0 else TotalOf(shard[..|shard| - 1], w) + w(shard[|shard| - 1])
  }

  lemma {:induction false} TotalWithout<T>(s: seq<T>, i: nat, w: T -> nat)
    requires i < |s|
    ensures TotalOf(s, w) == TotalOf(s[..i] + s[i + 1..], w) + w(s[i])
  {
    var n := |s| - 1;
    var t := s[..i] + s[i + 1..];
    if i == n {
      assert t == s[..n];
    } else {
      TotalWithout(s[..n], i, w);
      assert t[..n - 1] == s[..n][..i] + s[..n][i + 1..];
    }
  }

  /** A total does not depend on the order. */
  lemma {:induction false} TotalPermutes<T>(a: seq<T>, b: seq<T>, w: T -> nat)
    requires multiset(a) == multiset(b)
    ensures TotalOf(a, w) == TotalOf(b, w)
    decreases |a|
  {
    assert |multiset(a)| == |a| && |multiset(b)| == |b|;
    if a == [] {
    } else {
      var n := |a| - 1;
      assert a == a[..n] + [a[n]];
      assert a[n] in multiset(b);
      var i :| 0 <= i < |b| && b[i] == a[n];
      assert b == b[..i] + [b[i]] + b[i + 1..];
      assert multiset(a[..n]) == multiset(a) - multiset{a[n]};
      assert multiset(b[..i] + b[i + 1..]) == multiset(b) - multiset{b[i]};
      TotalPermutes(a[..n], b[..i] + b[i + 1..], w);
      TotalWithout(b, i, w);
    }
  }
}
