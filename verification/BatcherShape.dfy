/** The shape of Batcher's network: what its passes consist of, how the network cut off at n wires
    sits inside the one for the next power of two, and what both cost. */
module BatcherShape {
  import opened Base
  import opened Network
  import opened BatcherSort

  // ---------------------------------------------------------------- passes

  /** Pass k of the sorters below 2^d. */
  lemma {:induction false} SortersAt(n: nat, d: nat, k: nat)
    requires k < d
    ensures Sorters(n, d)[k] == Pass(n, Pow2(d - 1 - k), false)
    decreases d
  {
    if k > 0 { SortersAt(n, d - 1, k - 1); }
  }

  /** Every pass of the network is one of half-cleaners with groups no wider than 2^L. */
  lemma {:induction false} MergersAt(n: nat, e: nat, k: nat) returns (d: nat, inverted: bool)
    requires k < |Mergers(n, e)|
    ensures d < e && Mergers(n, e)[k] == Pass(n, Pow2(d), inverted)
    decreases e
  {
    var before := |Mergers(n, e - 1)|;
    if k < before {
      d, inverted := MergersAt(n, e - 1, k);
    } else if k == before {
      d, inverted := e - 1, true;
    } else {
      SortersAt(n, e - 1, k - before - 1);
      d, inverted := e - 1 - (k - before), false;
    }
  }

  /** Within every pass all comparators have their wires in range and in order, and no wire occurs
      twice. */
  lemma BatcherPassesDisjoint(n: nat, k: nat)
    requires k < |Batcher(n)|
    ensures InRange(Batcher(n)[k], n) && Distinct(Wires(Batcher(n)[k]))
  {
    var d, inverted := MergersAt(n, LgCeil(n), k);
    var cs := Pass(n, Pow2(d), inverted);
    PassShape(n, Pow2(d), inverted, n, cs);
    PassDisjoint(n, Pow2(d), inverted, n);
    DisjointIsDistinct(cs, n);
  }

  // ---------------------------------------------------------------- cutting off missing wires

  /** The comparators of cs whose bottom wire is below n, in the same order. */
  ghost function Restrict(cs: seq<Comp>, n: nat): seq<Comp> {
    if cs == [] then [] else
      var last := cs[|cs| - 1];
      Restrict(cs[..|cs| - 1], n) + if last.b < n then [last] else []
  }

  ghost function RestrictPasses(passes: seq<seq<Comp>>, n: nat): (r: seq<seq<Comp>>)
    ensures |r| == |passes| && forall k :: 0 <= k < |r| ==> r[k] == Restrict(passes[k], n)
  {
    seq(|passes|, k requires 0 <= k < |passes| => Restrict(passes[k], n))
  }

  lemma RestrictSnoc(cs: seq<Comp>, c: Comp, n: nat)
    ensures Restrict(cs + [c], n) == Restrict(cs, n) + if c.b < n then [c] else []
  {
    assert (cs + [c])[..|cs|] == cs;
  }

  lemma {:induction false} PassUpToRestricted(n: nat, w: nat, h: nat, inverted: bool, k: nat)
    requires h >= 1 && n <= w
    ensures PassUpTo(n, h, inverted, k) == Restrict(PassUpTo(w, h, inverted, k), n)
    decreases k
  {
    if k > 0 {
      var a := k - 1;
      var b := Mate(a, h, inverted);
      var cs := PassUpTo(w, h, inverted, a);
      PassUpToRestricted(n, w, h, inverted, a);
      PassUpToStep(n, h, inverted, a, b, k);
      PassUpToStep(w, h, inverted, a, b, k);
      if a < b < w { RestrictSnoc(cs, Comp(a, b), n); } else { assert cs + [] == cs; }
    }
  }

  /** Wires that bring no comparator do not lengthen the pass. */
  lemma {:induction false} NoComparator(n: nat, h: nat, inverted: bool, x: nat, y: nat)
    requires h >= 1 && x <= y
    requires forall a: nat :: x <= a < y ==> !(a < Mate(a, h, inverted) < n)
    ensures PassUpTo(n, h, inverted, y) == PassUpTo(n, h, inverted, x)
    decreases y - x
  {
    if x < y {
      NoComparator(n, h, inverted, x, y - 1);
      PassUpToStep(n, h, inverted, y - 1, Mate(y - 1, h, inverted), y);
    }
  }

  lemma PassRestricted(n: nat, w: nat, h: nat, inverted: bool)
    requires h >= 1 && n <= w
    ensures Pass(n, h, inverted) == Restrict(Pass(w, h, inverted), n)
  {
    PassUpToRestricted(n, w, h, inverted, w);
    NoComparator(n, h, inverted, n, w);
  }

  lemma RestrictPassesAppend(ps: seq<seq<Comp>>, qs: seq<seq<Comp>>, n: nat)
    ensures RestrictPasses(ps + qs, n) == RestrictPasses(ps, n) + RestrictPasses(qs, n)
  {
  }

  lemma {:induction false} SortersRestricted(n: nat, w: nat, d: nat)
    requires n <= w
    ensures Sorters(n, d) == RestrictPasses(Sorters(w, d), n)
    decreases d
  {
    if d > 0 {
      PassRestricted(n, w, Pow2(d - 1), false);
      SortersRestricted(n, w, d - 1);
      RestrictPassesAppend([Pass(w, Pow2(d - 1), false)], Sorters(w, d - 1), n);
    }
  }

  lemma MergerRestricted(n: nat, w: nat, e: nat)
    requires n <= w && e >= 1
    ensures Merger(n, e) == RestrictPasses(Merger(w, e), n)
  {
    PassRestricted(n, w, Pow2(e - 1), true);
    SortersRestricted(n, w, e - 1);
    RestrictPassesAppend([Pass(w, Pow2(e - 1), true)], Sorters(w, e - 1), n);
  }

  lemma {:induction false} MergersRestricted(n: nat, w: nat, e: nat)
    requires n <= w
    ensures Mergers(n, e) == RestrictPasses(Mergers(w, e), n)
    decreases e
  {
    if e > 0 {
      MergersRestricted(n, w, e - 1);
      MergerRestricted(n, w, e);
      RestrictPassesAppend(Mergers(w, e - 1), Merger(w, e), n);
    }
  }

  lemma LgCeilOfPow2(e: nat)
    ensures LgCeil(Pow2(e)) == e
  {
    LgCeilLeast(Pow2(e), e);
    if e > 0 { LgCeilLeast(Pow2(e), e - 1); }
  }

  /** The network on n wires is the network on the next power of two with every comparator that has
      a missing wire left out: same passes, same order. */
  lemma BatcherRestricted(n: nat, w: nat)
    requires w == Pow2(LgCeil(n))
    ensures n <= w && Batcher(n) == RestrictPasses(Batcher(w), n)
  {
    LgCeilOfPow2(LgCeil(n));
    MergersRestricted(n, w, LgCeil(n));
  }

  /** Nothing on the wires of s exceeds top, and every further wire holds exactly top. */
  ghost predicate Topped<T>(key: T -> int, s: seq<T>, tops: seq<T>, top: int) {
    && (forall i :: 0 <= i < |s| ==> key(s[i]) <= top)
    && (forall i :: 0 <= i < |tops| ==> key(tops[i]) == top)
  }

  lemma ExchangeTopped<T>(key: T -> int, s: seq<T>, tops: seq<T>, c: Comp, top: int)
    requires Topped(key, s, tops, top)
    ensures var r := if c.b < |s| then Exchange(key, s, c) else s;
            Exchange(key, s + tops, c) == r + tops && Topped(key, r, tops, top)
  {
    var all := s + tops;
    assert c.a < |s| ==> all[c.a] == s[c.a];
    assert c.b < |s| ==> all[c.b] == s[c.b];
    assert |s| <= c.b < |all| ==> all[c.b] == tops[c.b - |s|];
    assert |s| <= c.a < |all| ==> all[c.a] == tops[c.a - |s|];
  }

  /** With top values on the missing wires, the comparators that were left out do nothing. */
  lemma {:induction false} TopStaysOut<T>(key: T -> int, s: seq<T>, tops: seq<T>, cs: seq<Comp>, top: int)
    requires Topped(key, s, tops, top)
    ensures var r := Run(key, s, Restrict(cs, |s|));
            Run(key, s + tops, cs) == r + tops && Topped(key, r, tops, top)
  {
    if cs != [] {
      var front, last := cs[..|cs| - 1], cs[|cs| - 1];
      assert cs == front + [last];
      TopStaysOut(key, s, tops, front, top);
      RestrictSnoc(front, last, |s|);
      var kept := Restrict(front, |s|);
      ExchangeTopped(key, Run(key, s, kept), tops, last, top);
      if last.b < |s| { RunSnoc(key, s, kept, last); } else { assert kept + [] == kept; }
    }
  }

  lemma {:induction false} TopStaysOutPasses<T>(key: T -> int, s: seq<T>, tops: seq<T>, ps: seq<seq<Comp>>, top: int)
    requires Topped(key, s, tops, top)
    ensures var r := RunPasses(key, s, RestrictPasses(ps, |s|));
            RunPasses(key, s + tops, ps) == r + tops && Topped(key, r, tops, top)
  {
    if ps != [] {
      var front := ps[..|ps| - 1];
      TopStaysOutPasses(key, s, tops, front, top);
      var r := RestrictPasses(ps, |s|);
      assert r[..|r| - 1] == RestrictPasses(front, |s|);
      TopStaysOut(key, RunPasses(key, s, RestrictPasses(front, |s|)), tops, ps[|ps| - 1], top);
    }
  }

  /** Cutting the network off at |s| wires computes what the full network on w wires computes on those
      wires when the missing ones hold a top value, and that value never moves. */
  lemma {:induction false} CutOffIsFull<T>(key: T -> int, s: seq<T>, tops: seq<T>, top: int, w: nat)
    requires w == |s| + |tops| == Pow2(LgCeil(|s|)) && Topped(key, s, tops, top)
    ensures RunPasses(key, s + tops, Batcher(w)) == RunPasses(key, s, Batcher(|s|)) + tops
  {
    BatcherRestricted(|s|, w);
    TopStaysOutPasses(key, s, tops, Batcher(w), top);
  }

  // ---------------------------------------------------------------- cost

  /** A pass has at most one comparator for every two wires. */
  lemma PassCost(n: nat, h: nat, inverted: bool)
    requires h >= 1
    ensures 2 * |Pass(n, h, inverted)| <= n
  {
    var cs := Pass(n, h, inverted);
    PassDisjoint(n, h, inverted, n);
    DisjointIsDistinct(cs, n);
    Pigeonhole(Wires(cs), n);
  }

  /** Within a group the tops come first, so the first h wires bring one comparator each. */
  lemma {:induction false} GroupCost(n: nat, h: nat, inverted: bool, g: nat, i: nat)
    requires h >= 1 && Rem(g, 2 * h) == 0 && g <= i <= g + 2 * h <= n
    ensures |PassUpTo(n, h, inverted, i)| == |PassUpTo(n, h, inverted, g)| + Min(i - g, h)
    decreases i
  {
    if i > g {
      var a := i - 1;
      GroupCost(n, h, inverted, g, a);
      MateInGroup(g, h, inverted, a);
      PassUpToStep(n, h, inverted, a, Mate(a, h, inverted), i);
    }
  }

  lemma {:induction false} FullPassCost(n: nat, h: nat, inverted: bool, g: nat)
    requires h >= 1 && Rem(g, 2 * h) == 0 && g <= n
    ensures 2 * |PassUpTo(n, h, inverted, g)| == g
    decreases g
  {
    if g > 0 {
      FullPassCost(n, h, inverted, g - 2 * h);
      GroupCost(n, h, inverted, g - 2 * h, g);
    }
  }

  ghost function Total(passes: seq<seq<Comp>>): nat {
    if passes == [] then 0 else Total(passes[..|passes| - 1]) + |passes[|passes| - 1]|
  }

  lemma {:induction false} TotalOfEqual(passes: seq<seq<Comp>>, m: nat)
    requires forall k :: 0 <= k < |passes| ==> |passes[k]| == m
    ensures Total(passes) == |passes| * m
  {
    if passes != [] {
      TotalOfEqual(passes[..|passes| - 1], m);
      assert (|passes| - 1) * m + m == |passes| * m;
    }
  }

  lemma {:induction false} PassCount(n: nat, e: nat)
    ensures 2 * |Mergers(n, e)| == e * (e + 1)
    decreases e
  {
    if e > 0 {
      PassCount(n, e - 1);
      assert (e - 1) * e + 2 * e == e * (e + 1);
    }
  }

  /** On n wires the network has L(L+1)/2 passes, L the binary logarithm of n rounded up, each with
      at most n/2 comparators. */
  lemma BatcherCost(n: nat)
    ensures 2 * |Batcher(n)| == LgCeil(n) * (LgCeil(n) + 1)
    ensures forall k :: 0 <= k < |Batcher(n)| ==> 2 * |Batcher(n)[k]| <= n
  {
    PassCount(n, LgCeil(n));
    forall k | 0 <= k < |Batcher(n)|
      ensures 2 * |Batcher(n)[k]| <= n
    {
      var d, inverted := MergersAt(n, LgCeil(n), k);
      PassCost(n, Pow2(d), inverted);
    }
  }

  /** On n = 2^e wires it has n * e(e+1)/4 comparators in all. */
  lemma {:induction false} FullNetworkCost(e: nat, n: nat)
    requires n == Pow2(e)
    ensures 4 * Total(Batcher(n)) == n * (e * (e + 1))
  {
    LgCeilOfPow2(e);
    PassCount(n, e);
    var passes := Batcher(n);
    if e > 0 {
      var half := Pow2(e - 1);
      forall k | 0 <= k < |passes|
        ensures |passes[k]| == half
      {
        var d, inverted := MergersAt(n, e, k);
        Pow2Divides(d + 1, e);
        assert 2 * Pow2(d) == Pow2(d + 1);
        FullPassCost(n, Pow2(d), inverted, n);
      }
      TotalOfEqual(passes, half);
      Regroup(|passes|, half);
    }
  }

  lemma Regroup(x: int, y: int)
    ensures 4 * (x * y) == (2 * y) * (2 * x)
  {
  }
}
