/** Comparator networks on values, and the passes of Batcher's bitonic network. */
module Network {
  import opened Base

  /** A comparator: afterwards wire a carries the smaller and wire b the larger of the two. */
  datatype Comp = Comp(a: nat, b: nat)

  /** Both wires exist, the top one first. */
  ghost predicate InRange(cs: seq<Comp>, n: nat) {
    forall k :: 0 <= k < |cs| ==> cs[k].a < cs[k].b < n
  }

  function Exchange<T>(key: T -> int, s: seq<T>, c: Comp): (r: seq<T>)
    ensures |r| == |s|
  {
    if c.a < c.b < |s| && key(s[c.b]) < key(s[c.a]) then s[c.a := s[c.b]][c.b := s[c.a]] else s
  }

  /** The comparators of cs applied one after the other. */
  ghost function Run<T>(key: T -> int, s: seq<T>, cs: seq<Comp>): (r: seq<T>)
    ensures |r| == |s|
  {
    if cs == [] then s else Exchange(key, Run(key, s, cs[..|cs| - 1]), cs[|cs| - 1])
  }

  /** One comparator list per pass. */
  ghost function RunPasses<T>(key: T -> int, s: seq<T>, passes: seq<seq<Comp>>): (r: seq<T>)
    ensures |r| == |s|
  {
    if passes == [] then s else Run(key, RunPasses(key, s, passes[..|passes| - 1]), passes[|passes| - 1])
  }

  lemma RunSnoc<T>(key: T -> int, s: seq<T>, cs: seq<Comp>, c: Comp)
    ensures Run(key, s, cs + [c]) == Exchange(key, Run(key, s, cs), c)
  {
    assert (cs + [c])[..|cs|] == cs;
  }

  lemma {:induction false} RunAppend<T>(key: T -> int, s: seq<T>, cs: seq<Comp>, ds: seq<Comp>)
    ensures Run(key, s, cs + ds) == Run(key, Run(key, s, cs), ds)
  {
    if ds == [] {
      assert cs + ds == cs;
    } else {
      var front := ds[..|ds| - 1];
      RunAppend(key, s, cs, front);
      assert (cs + ds)[..|cs + ds| - 1] == cs + front;
    }
  }

  lemma {:induction false} RunPassesAppend<T>(key: T -> int, s: seq<T>, ps: seq<seq<Comp>>, qs: seq<seq<Comp>>)
    ensures RunPasses(key, s, ps + qs) == RunPasses(key, RunPasses(key, s, ps), qs)
  {
    if qs == [] {
      assert ps + qs == ps;
    } else {
      var front := qs[..|qs| - 1];
      RunPassesAppend(key, s, ps, front);
      assert (ps + qs)[..|ps + qs| - 1] == ps + front;
    }
  }

  lemma RunPassesCons<T>(key: T -> int, s: seq<T>, p: seq<Comp>, qs: seq<seq<Comp>>)
    ensures RunPasses(key, s, [p] + qs) == RunPasses(key, Run(key, s, p), qs)
  {
    RunPassesAppend(key, s, [p], qs);
    assert [p][..0] == [];
  }

  /** Comparators only move elements around. */
  lemma {:induction false} RunPermutes<T>(key: T -> int, s: seq<T>, cs: seq<Comp>)
    ensures multiset(Run(key, s, cs)) == multiset(s)
  {
    if cs != [] { RunPermutes(key, s, cs[..|cs| - 1]); }
  }

  lemma {:induction false} RunPassesPermutes<T>(key: T -> int, s: seq<T>, passes: seq<seq<Comp>>)
    ensures multiset(RunPasses(key, s, passes)) == multiset(s)
  {
    if passes != [] {
      var front := passes[..|passes| - 1];
      RunPassesPermutes(key, s, front);
      RunPermutes(key, RunPasses(key, s, front), passes[|passes| - 1]);
    }
  }

  // ---------------------------------------------------------------- the zero-one principle

  function BitKey(b: bool): int { if b then 1 else 0 }

  /** Which elements reach the threshold t. */
  ghost function Bits<T>(key: T -> int, s: seq<T>, t: int): (r: seq<bool>)
    ensures |r| == |s| && forall i :: 0 <= i < |s| ==> r[i] == (key(s[i]) >= t)
  {
    seq(|s|, i requires 0 <= i < |s| => key(s[i]) >= t)
  }

  /** Taking a threshold commutes with every comparator list. */
  lemma {:induction false} ThresholdCommutes<T>(key: T -> int, s: seq<T>, cs: seq<Comp>, t: int)
    ensures Bits(key, Run(key, s, cs), t) == Run(BitKey, Bits(key, s, t), cs)
  {
    if cs != [] { ThresholdCommutes(key, s, cs[..|cs| - 1], t); }
  }

  lemma {:induction false} ThresholdCommutesPasses<T>(key: T -> int, s: seq<T>, passes: seq<seq<Comp>>, t: int)
    ensures Bits(key, RunPasses(key, s, passes), t) == RunPasses(BitKey, Bits(key, s, t), passes)
  {
    if passes != [] {
      var front := passes[..|passes| - 1];
      ThresholdCommutesPasses(key, s, front, t);
      ThresholdCommutes(key, RunPasses(key, s, front), passes[|passes| - 1], t);
    }
  }

  ghost predicate Sorted<T>(key: T -> int, s: seq<T>) {
    forall i, j :: 0 <= i < j < |s| ==> key(s[i]) <= key(s[j])
  }

  /** Passes that sort every sequence of bits sort every sequence. */
  lemma ZeroOnePrinciple<T>(key: T -> int, s: seq<T>, passes: seq<seq<Comp>>)
    requires forall bits: seq<bool> :: |bits| == |s| ==> Sorted(BitKey, RunPasses(BitKey, bits, passes))
    ensures Sorted(key, RunPasses(key, s, passes))
  {
    var r := RunPasses(key, s, passes);
    forall i, j | 0 <= i < j < |r|
      ensures key(r[i]) <= key(r[j])
    {
      var bits := Bits(key, r, key(r[i]));
      ThresholdCommutesPasses(key, s, passes, key(r[i]));
      assert BitKey(bits[i]) <= BitKey(bits[j]);
    }
  }

  // ---------------------------------------------------------------- one pass

  /** The wire that wire i is compared with in a pass whose groups are 2h wires wide: the mirror
      image inside the group for the first pass of a merger, the wire h away for the others. */
  function Mate(i: nat, h: nat, inverted: bool): (r: nat)
    requires h >= 1
  {
    var k := Rem(i, 2 * h);
    if inverted then i - k + (2 * h - 1 - k) else if k < h then i + h else i - h
  }

  predicate IsTop(i: nat, h: nat)
    requires h >= 1
  {
    Rem(i, 2 * h) < h
  }

  /** The mate of a wire of a group, seen from where the group starts. */
  lemma MateInGroup(g: nat, h: nat, inverted: bool, i: nat)
    requires h >= 1 && Rem(g, 2 * h) == 0 && g <= i < g + 2 * h
    ensures Rem(i, 2 * h) == i - g
    ensures Mate(i, h, inverted)
         == if inverted then 2 * g + 2 * h - 1 - i else if i < g + h then i + h else i - h
  {
    BlockOffset(g, i - g, 2 * h);
  }

  lemma MateFacts(i: nat, h: nat, inverted: bool)
    requires h >= 1
    ensures i - Rem(i, 2 * h) <= Mate(i, h, inverted) < i - Rem(i, 2 * h) + 2 * h
    ensures Mate(Mate(i, h, inverted), h, inverted) == i
    ensures IsTop(i, h) <==> i < Mate(i, h, inverted)
    ensures IsTop(i, h) <==> !IsTop(Mate(i, h, inverted), h)
  {
    BlockStart(i, 2 * h);
    var g, j := i - Rem(i, 2 * h), Mate(i, h, inverted);
    MateInGroup(g, h, inverted, i);
    MateInGroup(g, h, inverted, j);
  }

  /** The comparators of a pass on n wires whose top wire is below k, by ascending top wire. A
      comparator is there when both of its wires are. */
  function PassUpTo(n: nat, h: nat, inverted: bool, k: nat): (r: seq<Comp>)
    requires h >= 1
  {
    if k == 0 then [] else
      var a := k - 1;
      PassUpTo(n, h, inverted, a) +
      if IsTop(a, h) && Mate(a, h, inverted) < n then [Comp(a, Mate(a, h, inverted))] else []
  }

  function Pass(n: nat, h: nat, inverted: bool): (r: seq<Comp>)
    requires h >= 1
  {
    PassUpTo(n, h, inverted, n)
  }

  lemma PassUpToStep(n: nat, h: nat, inverted: bool, a: nat, b: nat, k: nat)
    requires h >= 1 && k == a + 1 && b == Mate(a, h, inverted)
    ensures PassUpTo(n, h, inverted, k) == PassUpTo(n, h, inverted, a) + if a < b < n then [Comp(a, b)] else []
  {
    MateFacts(a, h, inverted);
  }

  /** A top wire and its mate. */
  ghost predicate IsPair(c: Comp, h: nat, inverted: bool)
    requires h >= 1
  {
    IsTop(c.a, h) && c.b == Mate(c.a, h, inverted)
  }

  /** A pass on n wires holds only pairs of a top wire and its mate, both below n, by ascending top
      wire. */
  lemma {:induction false} PassShape(n: nat, h: nat, inverted: bool, k: nat, cs: seq<Comp>)
    requires h >= 1 && cs == PassUpTo(n, h, inverted, k)
    ensures InRange(cs, n)
    ensures forall i :: 0 <= i < |cs| ==> cs[i].a < k && IsPair(cs[i], h, inverted)
    ensures forall i, j :: 0 <= i < j < |cs| ==> cs[i].a < cs[j].a
    decreases k
  {
    if k > 0 {
      var a := k - 1;
      PassShape(n, h, inverted, a, PassUpTo(n, h, inverted, a));
      PassUpToStep(n, h, inverted, a, Mate(a, h, inverted), k);
      MateFacts(a, h, inverted);
    }
  }

  /** And it holds every such pair. */
  lemma {:induction false} PassComplete(n: nat, h: nat, inverted: bool, k: nat, c: Comp)
    requires h >= 1 && IsPair(c, h, inverted) && c.a < k && c.b < n
    ensures c in PassUpTo(n, h, inverted, k)
    decreases k
  {
    var a := k - 1;
    PassUpToStep(n, h, inverted, a, Mate(a, h, inverted), k);
    MateFacts(c.a, h, inverted);
    if c.a < a { PassComplete(n, h, inverted, a, c); }
  }

  // ---------------------------------------------------------------- disjoint wires

  /** The wires of a comparator list, comparator by comparator. */
  function Wires(cs: seq<Comp>): (r: seq<nat>)
    ensures |r| == 2 * |cs|
  {
    if cs == [] then [] else Wires(cs[..|cs| - 1]) + [cs[|cs| - 1].a, cs[|cs| - 1].b]
  }

  /** Comparators on n wires, none of which occurs twice. */
  ghost predicate Disjoint(cs: seq<Comp>, n: nat) {
    cs == [] ||
    var front, last := cs[..|cs| - 1], cs[|cs| - 1];
    Disjoint(front, n) && last.a < last.b < n && last.a !in Wires(front) && last.b !in Wires(front)
  }

  lemma {:induction false} WireOfSome(cs: seq<Comp>, x: nat)
    requires x in Wires(cs)
    ensures exists k :: 0 <= k < |cs| && (cs[k].a == x || cs[k].b == x)
  {
    var front, last := cs[..|cs| - 1], cs[|cs| - 1];
    if x == last.a || x == last.b {
      assert cs[|cs| - 1] == last;
    } else {
      WireOfSome(front, x);
      var k :| 0 <= k < |front| && (front[k].a == x || front[k].b == x);
      assert cs[k] == front[k];
    }
  }

  /** The wires of such a list are pairwise distinct numbers below n. */
  lemma {:induction false} DisjointIsDistinct(cs: seq<Comp>, n: nat)
    requires Disjoint(cs, n)
    ensures Distinct(Wires(cs)) && forall k :: 0 <= k < |Wires(cs)| ==> Wires(cs)[k] < n
  {
    if cs != [] {
      var front, last := cs[..|cs| - 1], cs[|cs| - 1];
      DisjointIsDistinct(front, n);
      var ws := Wires(front);
      assert Wires(cs) == ws + [last.a, last.b];
      assert forall i :: 0 <= i < |ws| ==> ws[i] in ws;
    }
  }

  /** Within a pass no wire occurs twice. */
  lemma {:induction false} PassDisjoint(n: nat, h: nat, inverted: bool, k: nat)
    requires h >= 1
    ensures Disjoint(PassUpTo(n, h, inverted, k), n)
    decreases k
  {
    if k > 0 {
      var a := k - 1;
      var b := Mate(a, h, inverted);
      var before := PassUpTo(n, h, inverted, a);
      PassDisjoint(n, h, inverted, a);
      PassUpToStep(n, h, inverted, a, b, k);
      if a < b < n {
        forall x | x in Wires(before) ensures x != a && x != b { WireOfEarlierPair(n, h, inverted, a, b, x); }
        assert (before + [Comp(a, b)])[..|before|] == before;
      } else {
        assert before + [] == before;
      }
    }
  }

  lemma WireOfEarlierPair(n: nat, h: nat, inverted: bool, a: nat, b: nat, x: nat)
    requires h >= 1 && a < b == Mate(a, h, inverted) && x in Wires(PassUpTo(n, h, inverted, a))
    ensures x != a && x != b
  {
    var cs := PassUpTo(n, h, inverted, a);
    WireOfSome(cs, x);
    var k :| 0 <= k < |cs| && (cs[k].a == x || cs[k].b == x);
    PassShape(n, h, inverted, a, cs);
    MateFacts(a, h, inverted);
    MateFacts(cs[k].a, h, inverted);
  }
}
