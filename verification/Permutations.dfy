/** Permutations of 0 .. n, kept together with their inverses. */
module Permutations {
  import opened Base

  datatype Perm = Perm(fwd: seq<nat>, bwd: seq<nat>) {
    ghost predicate Permutes(n: nat) {
      && |fwd| == n == |bwd|
      && (forall i :: 0 <= i < n ==> fwd[i] < n && bwd[fwd[i]] == i)
      && (forall j :: 0 <= j < n ==> bwd[j] < n && fwd[bwd[j]] == j)
    }

    /** Where index i goes. */
    function P(i: nat): nat {
      if i < |fwd| then fwd[i] else i
    }

    /** Which index goes to j. */
    function D(j: nat): nat {
      if j < |bwd| then bwd[j] else j
    }
  }

  function Identity(n: nat): (p: Perm)
    ensures p.Permutes(n) && forall i :: 0 <= i < n ==> p.P(i) == i
  {
    Perm(seq(n, i => i), seq(n, i => i))
  }

  /** What takes things from where old puts them to where new puts them. */
  function Repermutation(n: nat, from: Perm, to: Perm): (p: Perm)
    requires from.Permutes(n) && to.Permutes(n)
    ensures p.Permutes(n)
    ensures forall i :: 0 <= i < n ==> p.P(from.P(i)) == to.P(i)
  {
    Perm(seq(n, j requires 0 <= j < n => to.fwd[from.bwd[j]]), seq(n, j requires 0 <= j < n => from.fwd[to.bwd[j]]))
  }

  /** n increasing numbers below n are 0, 1, ..., n-1. */
  lemma {:induction false} IncreasingIsIdentity(t: seq<int>, lo: int, j: nat)
    requires j < |t| && (forall i :: 0 <= i < |t| ==> lo <= t[i] < lo + |t|)
    requires forall i, k :: 0 <= i < k < |t| ==> t[i] < t[k]
    ensures t[j] == lo + j
    decreases |t|
  {
    var last := |t| - 1;
    AtLeastIndex(t, lo, j);
    if j == last {
    } else {
      AtLeastIndex(t, lo, last);
      IncreasingIsIdentity(t[..last], lo, j);
    }
  }

  lemma {:induction false} AtLeastIndex(t: seq<int>, lo: int, j: nat)
    requires j < |t| && (forall i :: 0 <= i < |t| ==> lo <= t[i])
    requires forall i, k :: 0 <= i < k < |t| ==> t[i] < t[k]
    ensures t[j] >= lo + j
    decreases j
  {
    if j > 0 { AtLeastIndex(t, lo, j - 1); }
  }

  lemma {:induction false} DistinctOnce<T>(s: seq<T>, x: T)
    requires Distinct(s)
    ensures multiset(s)[x] <= 1
  {
    if s != [] {
      var front, last := s[..|s| - 1], s[|s| - 1];
      assert s == front + [last];
      DistinctOnce(front, x);
      assert last !in front;
      assert last !in multiset(front);
    }
  }

  lemma OnceIsDistinct<T>(s: seq<T>)
    requires forall x :: multiset(s)[x] <= 1
    ensures Distinct(s)
  {
    forall i, j | 0 <= i < j < |s|
      ensures s[i] != s[j]
    {
      assert s == s[..j] + s[j..];
      assert multiset(s) == multiset(s[..j]) + multiset(s[j..]);
      assert s[..j][i] in multiset(s[..j]) && s[j..][0] in multiset(s[j..]);
      assert s[i] == s[..j][i] && s[j] == s[j..][0];
      assert s[i] == s[j] ==> multiset(s)[s[i]] >= 2;
    }
  }
}
