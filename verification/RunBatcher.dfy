/** The control loop of Batcher's network, in 32-bit unsigned arithmetic. */
module BatcherLoop {
  import opened Base
  import opened Network
  import opened BatcherSort
  import opened BatcherShape
  import opened Comparators

  /** The widest network whose size fits the signed type that the mirrored groups compute in. */
  const MAX_WIRES := 0x7fff_ffff

  /** The widest group that such a network has; the ends of all groups are at most this. */
  const MAX_GROUP := 0x8000_0000

  /** From the first bottom wire of a group on, the group brings no more comparators. */
  lemma GroupDone(n: nat, h: nat, inverted: bool, g: nat, next: nat) returns (end: nat)
    requires h >= 1 && Rem(g, 2 * h) == 0
    requires next == g + h || (!inverted && g <= next <= g + h && n == next + h)
    ensures end == g + 2 * h && PassUpTo(n, h, inverted, next) == PassUpTo(n, h, inverted, end)
  {
    end := g + 2 * h;
    forall a: nat | next <= a < end ensures !(a < Mate(a, h, inverted) < n) {
      MateInGroup(g, h, inverted, a);
    }
    NoComparator(n, h, inverted, next, end);
  }

  /** The top wires of a mirrored group whose mates are missing bring no comparators. */
  lemma MirroredGroupStart(n: nat, h: nat, g: nat, next: nat)
    requires h >= 1 && Rem(g, 2 * h) == 0 && g <= next <= g + h
    requires next == g || 2 * g + 2 * h - next >= n
    ensures PassUpTo(n, h, true, g) == PassUpTo(n, h, true, next)
  {
    forall a: nat | g <= a < next ensures !(a < Mate(a, h, true) < n) {
      MateInGroup(g, h, true, a);
    }
    NoComparator(n, h, true, g, next);
  }

  /** Groups whose first bottom wire is missing bring no comparators. */
  lemma PassDone(n: nat, h: nat, inverted: bool, g: nat)
    requires h >= 1 && Rem(g, 2 * h) == 0 && n <= g + h
    ensures PassUpTo(n, h, inverted, g) == Pass(n, h, inverted)
  {
    forall a: nat | Min(g, n) <= a < Max(g, n) ensures !(a < Mate(a, h, inverted) < n) {
      if a < n { MateInGroup(g, h, inverted, a); }
    }
    NoComparator(n, h, inverted, Min(g, n), Max(g, n));
  }

  /** Asks for the comparator of wire a, the next one of the pass, and its mate b. */
  method CompareMates(compare: Comparator, a: nat, b: nat, ghost h: nat, ghost inverted: bool, ghost wire: nat)
      returns (ghost next: nat)
    requires compare.Valid() && compare.maxBatch >= 1 && h >= 1 && wire == a < b < compare.n
    requires b == Mate(wire, h, inverted) && compare.Pass() == PassUpTo(compare.n, h, inverted, wire)
    modifies compare, compare.io
    ensures compare.Valid() && compare.passes == old(compare.passes)
    ensures next == wire + 1 && compare.Pass() == PassUpTo(compare.n, h, inverted, next)
  {
    next := wire + 1;
    PassUpToStep(compare.n, h, inverted, wire, b, next);
    PassDisjoint(compare.n, h, inverted, next);
    compare.Compare(a, b);
  }

  /** One group of mirrored half-cleaners, starting at the first comparator that has both wires. */
  method MirroredGroup(N: uint32, M: uint32, g: uint32, ghost h: nat, ghost wire: nat, compare: Comparator)
      returns (ghost next: nat)
    requires compare.Valid() && compare.n == N as nat <= MAX_WIRES && compare.maxBatch >= 1
    requires h >= 1 && M as nat == 2 * h && Rem(MAX_GROUP, 2 * h) == 0 && wire == g as nat && wire + h < N as nat
    requires Rem(wire, 2 * h) == 0 && compare.Pass() == PassUpTo(compare.n, h, true, wire)
    modifies compare, compare.io
    ensures compare.Valid() && compare.passes == old(compare.passes)
    ensures next == wire + 2 * h && compare.Pass() == PassUpTo(compare.n, h, true, next)
  {
    BlockInside(wire, 2 * h, 0, MAX_GROUP);
    var gb := g + (M - 1);
    var sgb: int32, sn: int32 := gb as int, N as int;
    var start: int32 := Max(0, sgb - (sn - 1));
    var c := start as uint32;
    next := wire + c as nat;
    MirroredGroupStart(compare.n, h, wire, next);
    while c < M / 2
      invariant start <= c as int <= h && next == wire + c as nat
      invariant compare.Valid() && compare.passes == old(compare.passes)
      invariant compare.Pass() == PassUpTo(compare.n, h, true, next)
    {
      MateInGroup(wire, h, true, next);
      next := CompareMates(compare, (g + c) as nat, (gb - c) as nat, h, true, next);
      c := c + 1;
    }
    next := GroupDone(compare.n, h, true, wire, next);
  }

  /** One group of half-cleaners, up to the last comparator that has both wires. */
  method SorterGroup(N: uint32, m: uint32, g: uint32, ghost h: nat, ghost wire: nat, compare: Comparator)
      returns (ghost next: nat)
    requires compare.Valid() && compare.n == N as nat <= MAX_WIRES && compare.maxBatch >= 1
    requires h >= 1 && m as nat == 2 * h && wire == g as nat && wire + h < N as nat
    requires Rem(wire, 2 * h) == 0 && compare.Pass() == PassUpTo(compare.n, h, false, wire)
    modifies compare, compare.io
    ensures compare.Valid() && compare.passes == old(compare.passes)
    ensures next == wire + 2 * h && compare.Pass() == PassUpTo(compare.n, h, false, next)
  {
    var kMax := if m / 2 < N - m / 2 - g then m / 2 else N - m / 2 - g;
    assert kMax as nat == Min(h, N as nat - h - wire);
    var k: uint32 := 0;
    next := wire;
    while k < kMax
      invariant k <= kMax && next == wire + k as nat
      invariant compare.Valid() && compare.passes == old(compare.passes)
      invariant compare.Pass() == PassUpTo(compare.n, h, false, next)
    {
      MateInGroup(wire, h, false, next);
      next := CompareMates(compare, (g + k) as nat, (g + k + m / 2) as nat, h, false, next);
      k := k + 1;
    }
    next := GroupDone(compare.n, h, false, wire, next);
  }

  /** The first pass of merger m: mirrored half-cleaners in groups of M wires. */
  method HalfCleaners(N: uint32, M: uint32, ghost h: nat, compare: Comparator)
    requires compare.Valid() && compare.n == N as nat <= MAX_WIRES && compare.maxBatch >= 1
    requires 1 <= h < N as nat && M as nat == 2 * h && Rem(MAX_GROUP, 2 * h) == 0
    requires compare.Pass() == []
    modifies compare, compare.io
    ensures compare.Valid() && compare.passes == old(compare.passes)
    ensures compare.Pass() == Pass(compare.n, h, true)
  {
    var g: uint32 := 0;
    ghost var wire: nat := 0;
    while g < N - M / 2
      invariant wire == g as nat <= N as nat + h && Rem(wire, 2 * h) == 0
      invariant compare.Valid() && compare.passes == old(compare.passes)
      invariant compare.Pass() == PassUpTo(compare.n, h, true, wire)
    {
      AlignedSum(wire, 2 * h, 2 * h);
      wire := MirroredGroup(N, M, g, h, wire, compare);
      g := g + M;
    }
    PassDone(compare.n, h, true, wire);
  }

  /** One level of the bitonic sorters of a merger: half-cleaners in groups of m wires. */
  method SorterLevel(N: uint32, m: uint32, ghost h: nat, compare: Comparator)
    requires compare.Valid() && compare.n == N as nat <= MAX_WIRES && compare.maxBatch >= 1
    requires 1 <= h < N as nat && m as nat == 2 * h
    requires compare.Pass() == []
    modifies compare, compare.io
    ensures compare.Valid() && compare.passes == old(compare.passes)
    ensures compare.Pass() == Pass(compare.n, h, false)
  {
    var g: uint32 := 0;
    ghost var wire: nat := 0;
    while g < N - m / 2
      invariant wire == g as nat <= N as nat + h && Rem(wire, 2 * h) == 0
      invariant compare.Valid() && compare.passes == old(compare.passes)
      invariant compare.Pass() == PassUpTo(compare.n, h, false, wire)
    {
      AlignedSum(wire, 2 * h, 2 * h);
      wire := SorterGroup(N, m, g, h, wire, compare);
      g := g + m;
    }
    PassDone(compare.n, h, false, wire);
  }

  /** The bitonic sorters of a merger: groups of M/2 wires, then M/4, and so on down to 2. */
  method Sort(N: uint32, M: uint32, ghost e: nat, compare: Comparator)
    requires compare.Valid() && compare.n == N as nat <= MAX_WIRES && compare.maxBatch >= 1
    requires M as nat == Pow2(e + 1) && Pow2(e) < N as nat
    requires compare.Pass() == []
    modifies compare, compare.io
    ensures compare.Valid() && compare.Pass() == [] && (old(compare.batchSize) == 0 ==> compare.batchSize == 0)
    ensures compare.passes == old(compare.passes) + Sorters(compare.n, e)
  {
    var m := M / 2;
    ghost var d := e;
    assert Sorters(compare.n, 0) == [];
    while m >= 2
      invariant 0 <= d <= e && m as nat == Pow2(d)
      invariant compare.Valid() && compare.Pass() == [] && (old(compare.batchSize) == 0 ==> compare.batchSize == 0)
      invariant compare.passes + Sorters(compare.n, d) == old(compare.passes) + Sorters(compare.n, e)
      decreases d
    {
      ghost var before, half := compare.passes, Pow2(d - 1);
      Pow2Monotone(d, e);
      SorterLevel(N, m, half, compare);
      compare.NewPass();
      m := m / 2;
      d := SortersStep(compare.n, d, half, before, compare.passes);
    }
    assert d == 0;
    assert compare.passes + [] == compare.passes;
  }

  lemma SortersStep(n: nat, d: nat, half: nat, before: seq<seq<Comp>>, after: seq<seq<Comp>>) returns (next: nat)
    requires d > 0 && half == Pow2(d - 1) && after == before + [Pass(n, half, false)]
    ensures next == d - 1 && half == Pow2(next)
    ensures before + Sorters(n, d) == after + Sorters(n, next)
  {
    next := d - 1;
  }

  /** Runs the whole network on N wires: the comparators of Batcher's network in order, with a pass
      boundary after each pass. When it returns, every comparator has been executed. */
  method RunBatcher(N: uint32, compare: Comparator)
    requires compare.Valid() && compare.n == N as nat <= MAX_WIRES && (N >= 2 ==> compare.maxBatch >= 1)
    requires compare.Pass() == [] && compare.passes == [] && compare.batchSize == 0
    modifies compare, compare.io
    ensures compare.Valid() && compare.batchSize == 0
    ensures compare.passes == Batcher(compare.n)
    ensures compare.io.recs == RunPasses(Tag, compare.start, Batcher(compare.n))
  {
    var n := LgCeil(N as nat);
    var m := 1;
    ghost var merged: nat := 0;
    while m <= n
      invariant m == merged + 1 && merged <= n
      invariant compare.Valid() && compare.Pass() == [] && compare.batchSize == 0
      invariant compare.passes == Mergers(compare.n, merged)
    {
      MergerFits(N as nat, m);
      var M := Pow2(m) as uint32;
      HalfCleaners(N, M, Pow2(merged), compare);
      compare.NewPass();
      Sort(N, M, merged, compare);
      merged := MergersStep(compare.n, merged);
      m := m + 1;
    }
    compare.AllExecuted();
  }

  lemma MergersStep(n: nat, e: nat) returns (next: nat)
    ensures next == e + 1
    ensures Mergers(n, next) == Mergers(n, e) + [Pass(n, Pow2(e), true)] + Sorters(n, e)
  {
    next := e + 1;
  }

  lemma MergerFits(n: nat, m: nat)
    requires 1 <= m <= LgCeil(n) && n <= MAX_WIRES
    ensures Pow2(m - 1) < n && Pow2(m) <= MAX_GROUP && n >= 2 && Rem(MAX_GROUP, Pow2(m)) == 0
  {
    LgCeilLeast(n, m - 1);
    Pow2OfThirtyOne();
    LgCeilLeast(n, 31);
    Pow2Monotone(m, 31);
    Pow2Divides(m, 31);
    Pow2Monotone(0, m - 1);
  }

  lemma Pow2OfThirtyOne()
    ensures Pow2(31) == MAX_GROUP
  {
    assert Pow2(10) == 0x400;
    assert Pow2(20) == 0x10_0000;
    assert Pow2(30) == 0x4000_0000;
  }
}
