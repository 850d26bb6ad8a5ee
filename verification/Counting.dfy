/** Counting occurrences in sequences, to state that something is conserved. */
module Counting {

  /** How often x occurs in s. */
  function Count<T(==)>(s: seq<T>, x: T): nat {
    if s == [] then 0 else (if s[0] == x then 1 else 0) + Count(s[1..], x)
  }

  ghost predicate Distinct<T>(s: seq<T>) {
    forall i, j :: 0 <= i < j < |s| ==> s[i] != s[j]
  }

  /** 0, 1, ..., n-1. */
  function Range(n: nat): (r: seq<int>)
    ensures |r| == n && forall i :: 0 <= i < n ==> r[i] == i
  {
    seq(n, i => i)
  }

  lemma {:induction false} CountAppend<T>(a: seq<T>, b: seq<T>, x: T)
    ensures Count(a + b, x) == Count(a, x) + Count(b, x)
  {
    if a == [] {
      assert a + b == b;
    } else {
      CountAppend(a[1..], b, x);
      assert (a + b)[1..] == a[1..] + b;
    }
  }

  lemma {:induction false} CountedIffIn<T>(s: seq<T>, x: T)
    ensures Count(s, x) > 0 <==> x in s
  {
    if s != [] { CountedIffIn(s[1..], x); }
  }

  lemma CountSplit<T>(s: seq<T>, i: nat, x: T)
    requires i < |s|
    ensures Count(s, x) == Count(s[..i] + s[i + 1..], x) + if s[i] == x then 1 else 0
  {
    assert s == s[..i] + ([s[i]] + s[i + 1..]);
    CountAppend(s[..i], [s[i]] + s[i + 1..], x);
    CountAppend(s[..i], s[i + 1..], x);
    assert ([s[i]] + s[i + 1..])[1..] == s[i + 1..];
  }

  lemma {:induction false} CountRange(n: nat, x: int)
    ensures Count(Range(n), x) == if 0 <= x < n then 1 else 0
  {
    if n > 0 {
      CountRange(n - 1, x);
      assert Range(n) == Range(n - 1) + [n - 1];
      CountAppend(Range(n - 1), [n - 1], x);
    }
  }

  /** A sequence in which nothing is counted twice has distinct elements. */
  lemma CountedOnce<T>(s: seq<T>)
    requires forall x :: Count(s, x) <= 1
    ensures Distinct(s)
  {
    forall i, j | 0 <= i < j < |s| ensures s[i] != s[j] {
      CountSplit(s, i, s[i]);
      CountedIffIn(s[..i] + s[i + 1..], s[i]);
      assert (s[..i] + s[i + 1..])[j - 1] == s[j];
    }
  }
}
