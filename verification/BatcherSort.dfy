/** Batcher's network sorts, at every width: bits first, then everything by the zero-one principle. */
module BatcherSort {
  import opened Base
  import opened Network

  // ---------------------------------------------------------------- the network

  /** The passes of group size 2^d, 2^(d-1), ..., 2 on n wires. */
  function Sorters(n: nat, d: nat): (r: seq<seq<Comp>>)
    ensures |r| == d
  {
    if d == 0 then [] else [Pass(n, Pow2(d - 1), false)] + Sorters(n, d - 1)
  }

  /** Merger e merges sorted runs of 2^(e-1) wires into runs of 2^e. */
  function Merger(n: nat, e: nat): (r: seq<seq<Comp>>)
    requires e >= 1
    ensures |r| == e
  {
    [Pass(n, Pow2(e - 1), true)] + Sorters(n, e - 1)
  }

  function Mergers(n: nat, e: nat): (r: seq<seq<Comp>>) {
    if e == 0 then [] else Mergers(n, e - 1) + Merger(n, e)
  }

  /** The whole network on n wires, pass by pass. */
  function Batcher(n: nat): (r: seq<seq<Comp>>) {
    Mergers(n, LgCeil(n))
  }

  // ---------------------------------------------------------------- what one pass does to bits

  /** Wire i of a sequence of bits, with every missing wire holding the top value. */
  ghost function At(s: seq<bool>, i: nat): (r: int)
    ensures r == 0 || r == 1
  {
    if i < |s| then BitKey(s[i]) else 1
  }

  /** Wire i after being compared with its mate. */
  ghost function Compared(s: seq<bool>, i: nat, h: nat, inverted: bool): int
    requires h >= 1
  {
    var j := Mate(i, h, inverted);
    if i < j then Min(At(s, i), At(s, j)) else Max(At(s, i), At(s, j))
  }

  /** What the first comparators of a pass, those with a top wire below k, have done to wire i. */
  ghost function PartlyCompared(s: seq<bool>, i: nat, h: nat, inverted: bool, k: nat): int
    requires h >= 1
  {
    if Min(i, Mate(i, h, inverted)) < k then Compared(s, i, h, inverted) else At(s, i)
  }

  lemma ExchangeBits(r: seq<bool>, a: nat, b: nat, i: nat)
    requires a < b
    ensures At(Exchange(BitKey, r, Comp(a, b)), i)
         == if i == a then Min(At(r, a), At(r, b)) else if i == b then Max(At(r, a), At(r, b)) else At(r, i)
  {
  }

  /** The comparator with top wire a concerns wire a and its mate, and no other wire. */
  lemma NextComparator(s: seq<bool>, i: nat, h: nat, inverted: bool, a: nat, b: nat, k: nat)
    requires h >= 1 && k == a + 1 && b == Mate(a, h, inverted)
    ensures if a < b && i == a then
              PartlyCompared(s, i, h, inverted, a) == At(s, a) &&
              PartlyCompared(s, i, h, inverted, k) == Min(At(s, a), At(s, b))
            else if a < b && i == b then
              PartlyCompared(s, i, h, inverted, a) == At(s, b) &&
              PartlyCompared(s, i, h, inverted, k) == Max(At(s, a), At(s, b))
            else PartlyCompared(s, i, h, inverted, k) == PartlyCompared(s, i, h, inverted, a)
  {
    MateFacts(a, h, inverted);
    MateFacts(i, h, inverted);
  }

  /** One step of a pass, as a function of the state before it. */
  lemma RunNext(s: seq<bool>, h: nat, inverted: bool, a: nat, b: nat, k: nat)
    requires h >= 1 && k == a + 1 && b == Mate(a, h, inverted)
    ensures var r := Run(BitKey, s, PassUpTo(|s|, h, inverted, a));
            Run(BitKey, s, PassUpTo(|s|, h, inverted, k)) == if a < b then Exchange(BitKey, r, Comp(a, b)) else r
  {
    var cs := PassUpTo(|s|, h, inverted, a);
    PassUpToStep(|s|, h, inverted, a, b, k);
    if a < b < |s| {
      RunSnoc(BitKey, s, cs, Comp(a, b));
    } else {
      assert cs + [] == cs;
    }
  }

  lemma {:induction false} PassUpToEffect(s: seq<bool>, h: nat, inverted: bool, k: nat, i: nat)
    requires h >= 1
    ensures At(Run(BitKey, s, PassUpTo(|s|, h, inverted, k)), i) == PartlyCompared(s, i, h, inverted, k)
    decreases k
  {
    if k > 0 {
      var a := k - 1;
      var b := Mate(a, h, inverted);
      var r := Run(BitKey, s, PassUpTo(|s|, h, inverted, a));
      RunNext(s, h, inverted, a, b, k);
      NextComparator(s, i, h, inverted, a, b, k);
      PassUpToEffect(s, h, inverted, a, i);
      if a < b {
        if i in {a, b} {
          var j := if i == a then b else a;
          PassUpToEffect(s, h, inverted, a, j);
          NextComparator(s, j, h, inverted, a, b, k);
        }
        ExchangeBits(r, a, b, i);
      }
    }
  }

  /** A pass compares every wire with its mate, present or not. */
  lemma PassEffect(s: seq<bool>, h: nat, inverted: bool, i: nat)
    requires h >= 1
    ensures At(Run(BitKey, s, Pass(|s|, h, inverted)), i) == Compared(s, i, h, inverted)
  {
    MateFacts(i, h, inverted);
    PassUpToEffect(s, h, inverted, |s|, i);
  }

  // ---------------------------------------------------------------- bitonic blocks

  /** Block [g, g+m) holds v on [x, y) and !v elsewhere. */
  ghost predicate Bump(s: seq<bool>, g: nat, m: nat, x: int, y: int, v: bool) {
    forall i: nat :: g <= i < g + m ==> (At(s, i) == if (x <= i < y) == v then 1 else 0)
  }

  ghost predicate Bitonic(s: seq<bool>, g: nat, m: nat) {
    exists x: int, y: int, v: bool :: Bump(s, g, m, x, y, v)
  }

  ghost predicate SortedBlock(s: seq<bool>, g: nat, m: nat) {
    forall i: nat, j: nat :: g <= i < j < g + m ==> At(s, i) <= At(s, j)
  }

  /** Nothing in the first m-block exceeds anything in the second. */
  ghost predicate Precedes(s: seq<bool>, g: nat, m: nat) {
    forall i: nat, j: nat :: g <= i < g + m <= j < g + m + m ==> At(s, i) <= At(s, j)
  }

  /** Where the ones of a sorted block start. */
  lemma {:induction false} Threshold(s: seq<bool>, g: nat, m: nat) returns (x: nat)
    requires SortedBlock(s, g, m)
    ensures g <= x <= g + m && Bump(s, g, m, x, g + m, true)
  {
    if m == 0 || At(s, g + m - 1) == 0 {
      x := g + m;
    } else {
      x := Threshold(s, g, m - 1);
    }
  }

  /** Block [g, g+2h) of r is what a half-cleaner makes of that block of s. */
  ghost predicate HalfCleaned(s: seq<bool>, r: seq<bool>, g: nat, h: nat) {
    && (forall i: nat {:trigger At(r, i)} :: g <= i < g + h ==> At(r, i) == Min(At(s, i), At(s, i + h)))
    && (forall i: nat {:trigger At(r, i)} :: g + h <= i < g + 2 * h ==> At(r, i) == Max(At(s, i - h), At(s, i)))
  }

  /** Minima are one where both folds of the bump are, maxima where one of them is. */
  lemma HalfCleanerOnes(s: seq<bool>, r: seq<bool>, g: nat, h: nat, x: int, y: int)
    requires HalfCleaned(s, r, g, h) && g <= x <= y <= g + 2 * h && Bump(s, g, 2 * h, x, y, true)
    ensures Bitonic(r, g, h) && Bitonic(r, g + h, h)
  {
    var mid := g + h;
    assert Bump(r, g, h, x, y - h, true);
    if y <= mid {
      assert Bump(r, mid, h, x + h, y + h, true);
    } else if mid <= x {
      assert Bump(r, mid, h, x, y, true);
    } else if x + h <= y {
      assert Bump(r, mid, h, mid, mid + h, true);
    } else {
      assert Bump(r, mid, h, y, x + h, false);
    }
  }

  lemma HalfCleanerZeros(s: seq<bool>, r: seq<bool>, g: nat, h: nat, x: int, y: int)
    requires HalfCleaned(s, r, g, h) && g <= x <= y <= g + 2 * h && Bump(s, g, 2 * h, x, y, false)
    ensures Bitonic(r, g, h) && Bitonic(r, g + h, h)
  {
    var mid := g + h;
    assert Bump(r, mid, h, x + h, y, false);
    if y <= mid {
      assert Bump(r, g, h, x, y, false);
    } else if mid <= x {
      assert Bump(r, g, h, x - h, y - h, false);
    } else if x + h <= y {
      assert Bump(r, g, h, g, mid, false);
    } else {
      assert Bump(r, g, h, y - h, x, true);
    }
  }

  /** A half-cleaner on a bitonic block leaves two bitonic halves, one after the other. */
  lemma HalfCleaner(s: seq<bool>, r: seq<bool>, g: nat, h: nat)
    requires HalfCleaned(s, r, g, h) && Bitonic(s, g, 2 * h)
    ensures Bitonic(r, g, h) && Bitonic(r, g + h, h) && Precedes(r, g, h)
  {
    var x0: int, y0: int, v: bool :| Bump(s, g, 2 * h, x0, y0, v);
    var y := Max(g, Min(y0, g + 2 * h));
    var x := Max(g, Min(x0, y));
    assert Bump(s, g, 2 * h, x, y, v);
    if v { HalfCleanerOnes(s, r, g, h, x, y); } else { HalfCleanerZeros(s, r, g, h, x, y); }
  }

  /** The mirrored half-cleaner on two sorted halves does the same. */
  lemma InvertedHalfCleaner(s: seq<bool>, r: seq<bool>, g: nat, h: nat)
    requires SortedBlock(s, g, h) && SortedBlock(s, g + h, h)
    requires forall i: nat {:trigger At(r, i)} :: g <= i < g + h ==>
               At(r, i) == Min(At(s, i), At(s, 2 * g + 2 * h - 1 - i))
    requires forall i: nat {:trigger At(r, i)} :: g + h <= i < g + 2 * h ==>
               At(r, i) == Max(At(s, 2 * g + 2 * h - 1 - i), At(s, i))
    ensures Bitonic(r, g, h) && Bitonic(r, g + h, h) && Precedes(r, g, h)
  {
    var x := Threshold(s, g, h);
    var y := Threshold(s, g + h, h);
    var z := 2 * g + 2 * h;
    assert Bump(r, g, h, x, z - y, true);
    assert Bump(r, g + h, h, z - x, y, false);
  }

  // ---------------------------------------------------------------- a merger

  /** Block [g, g + 2^e) is a chain of bitonic blocks of size 2^d, each before the next. */
  ghost predicate Cleaned(s: seq<bool>, g: nat, e: nat, d: nat)
    decreases e
  {
    if e <= d then Bitonic(s, g, Pow2(e))
    else
      && Cleaned(s, g, e - 1, d) && Cleaned(s, g + Pow2(e - 1), e - 1, d)
      && Precedes(s, g, Pow2(e - 1))
  }

  lemma GroupEffect(s: seq<bool>, g: nat, h: nat, inverted: bool, i: nat)
    requires h >= 1 && Rem(g, 2 * h) == 0 && g <= i < g + 2 * h
    ensures var j := if inverted then 2 * g + 2 * h - 1 - i else if i < g + h then i + h else i - h;
            At(Run(BitKey, s, Pass(|s|, h, inverted)), i) ==
            if i < g + h then Min(At(s, i), At(s, j)) else Max(At(s, j), At(s, i))
  {
    MateInGroup(g, h, inverted, i);
    PassEffect(s, h, inverted, i);
  }

  /** A pass of half-cleaners splits every bitonic block aligned at its group size. */
  lemma HalfCleanerPass(s: seq<bool>, r: seq<bool>, g: nat, h: nat)
    requires h >= 1 && Rem(g, 2 * h) == 0 && Bitonic(s, g, 2 * h)
    requires r == Run(BitKey, s, Pass(|s|, h, false))
    ensures Bitonic(r, g, h) && Bitonic(r, g + h, h) && Precedes(r, g, h)
  {
    assert HalfCleaned(s, r, g, h) by {
      forall i: nat | g <= i < g + 2 * h { GroupEffect(s, g, h, false, i); }
    }
    HalfCleaner(s, r, g, h);
  }

  /** A pass of mirrored half-cleaners does the same to two sorted halves. */
  lemma InvertedPass(s: seq<bool>, r: seq<bool>, g: nat, h: nat)
    requires h >= 1 && Rem(g, 2 * h) == 0
    requires r == Run(BitKey, s, Pass(|s|, h, true))
    requires SortedBlock(s, g, h) && SortedBlock(s, g + h, h)
    ensures Bitonic(r, g, h) && Bitonic(r, g + h, h) && Precedes(r, g, h)
  {
    forall i: nat | g <= i < g + 2 * h
      ensures At(r, i) == if i < g + h then Min(At(s, i), At(s, 2 * g + 2 * h - 1 - i))
                          else Max(At(s, 2 * g + 2 * h - 1 - i), At(s, i))
    {
      GroupEffect(s, g, h, true, i);
    }
    InvertedHalfCleaner(s, r, g, h);
  }

  /** A wire of a block made of whole groups takes its new value from inside that block. */
  lemma GroupInside(s: seq<bool>, h: nat, g: nat, size: nat, i: nat) returns (j: nat)
    requires h >= 1 && Rem(g, 2 * h) == 0 && Rem(size, 2 * h) == 0 && g <= i < g + size
    ensures g <= j < g + size && At(Run(BitKey, s, Pass(|s|, h, false)), i) == At(s, j)
  {
    PassEffect(s, h, false, i);
    BlockInside(i, 2 * h, g, size);
    j := Mate(i, h, false);
    if At(Run(BitKey, s, Pass(|s|, h, false)), i) == At(s, i) { j := i; }
  }

  /** A pass whose groups lie inside the two blocks keeps the first block before the second. */
  lemma {:induction false} PrecedesKept(s: seq<bool>, r: seq<bool>, g: nat, half: nat, h: nat)
    requires h >= 1 && Rem(g, 2 * h) == 0 && Rem(half, 2 * h) == 0
    requires r == Run(BitKey, s, Pass(|s|, h, false))
    requires Precedes(s, g, half)
    ensures Precedes(r, g, half)
  {
    AlignedSum(g, half, 2 * h);
    forall i: nat, j: nat | g <= i < g + half <= j < g + half + half
      ensures At(r, i) <= At(r, j)
    {
      var i' := GroupInside(s, h, g, half, i);
      var j' := GroupInside(s, h, g + half, half, j);
      assert At(s, i') <= At(s, j');
    }
  }

  lemma TwoBlocksCleaned(s: seq<bool>, g: nat, e: nat, d: nat, h: nat)
    requires e == d + 1 && h == Pow2(d)
    requires Bitonic(s, g, h) && Bitonic(s, g + h, h) && Precedes(s, g, h)
    ensures Cleaned(s, g, e, d)
  {
    assert Cleaned(s, g, d, d) && Cleaned(s, g + h, d, d);
  }

  /** A half-cleaner pass of group size 2^(d+1) refines the chain of an aligned block. */
  lemma {:induction false} SorterPass(s: seq<bool>, r: seq<bool>, g: nat, e: nat, d: nat, h: nat)
    requires d < e && h == Pow2(d) && Rem(g, 2 * h) == 0 && Cleaned(s, g, e, d + 1)
    requires r == Run(BitKey, s, Pass(|s|, h, false))
    ensures Cleaned(r, g, e, d)
    decreases e
  {
    if e == d + 1 {
      HalfCleanerPass(s, r, g, h);
      TwoBlocksCleaned(r, g, e, d, h);
    } else {
      var half := Pow2(e - 1);
      Pow2Divides(d + 1, e - 1);
      assert Rem(half, 2 * h) == 0;
      AlignedSum(g, half, 2 * h);
      SorterPass(s, r, g, e - 1, d, h);
      SorterPass(s, r, g + half, e - 1, d, h);
      PrecedesKept(s, r, g, half, h);
    }
  }

  /** A chain of one-wire blocks is sorted. */
  lemma {:induction false} CleanedIsSorted(s: seq<bool>, g: nat, e: nat)
    requires Cleaned(s, g, e, 0)
    ensures SortedBlock(s, g, Pow2(e))
    decreases e
  {
    if e > 0 {
      CleanedIsSorted(s, g, e - 1);
      CleanedIsSorted(s, g + Pow2(e - 1), e - 1);
    }
  }

  lemma {:induction false} SortersFinish(s: seq<bool>, e: nat, d: nat, g: nat)
    requires d <= e && Rem(g, Pow2(e)) == 0 && Cleaned(s, g, e, d)
    ensures SortedBlock(RunPasses(BitKey, s, Sorters(|s|, d)), g, Pow2(e))
    decreases d
  {
    if d == 0 {
      CleanedIsSorted(s, g, e);
    } else {
      var h := Pow2(d - 1);
      var p := Pass(|s|, h, false);
      var r := Run(BitKey, s, p);
      AlignedCoarser(g, d, e);
      assert 2 * h == Pow2(d);
      SorterPass(s, r, g, e, d - 1, h);
      SortersFinish(r, e, d - 1, g);
      RunPassesCons(BitKey, s, p, Sorters(|s|, d - 1));
    }
  }

  /** Merger e turns two sorted halves into one sorted block. */
  lemma MergerSorts(s: seq<bool>, e: nat, g: nat, h: nat)
    requires e >= 1 && Rem(g, Pow2(e)) == 0 && h == Pow2(e - 1)
    requires SortedBlock(s, g, h) && SortedBlock(s, g + h, h)
    ensures SortedBlock(RunPasses(BitKey, s, Merger(|s|, e)), g, Pow2(e))
  {
    var p := Pass(|s|, h, true);
    var r := Run(BitKey, s, p);
    assert 2 * h == Pow2(e);
    InvertedPass(s, r, g, h);
    TwoBlocksCleaned(r, g, e, e - 1, h);
    SortersFinish(r, e, e - 1, g);
    RunPassesCons(BitKey, s, p, Sorters(|s|, e - 1));
  }

  /** After mergers 1..e every block aligned at a multiple of 2^e is sorted. */
  lemma {:induction false} MergersSortBlocks(s: seq<bool>, e: nat, g: nat)
    requires Rem(g, Pow2(e)) == 0
    ensures SortedBlock(RunPasses(BitKey, s, Mergers(|s|, e)), g, Pow2(e))
    decreases e
  {
    if e > 0 {
      var h := Pow2(e - 1);
      AlignedCoarser(g, e - 1, e);
      Pow2Divides(e - 1, e - 1);
      AlignedSum(g, h, h);
      MergersSortBlocks(s, e - 1, g);
      MergersSortBlocks(s, e - 1, g + h);
      MergerSorts(RunPasses(BitKey, s, Mergers(|s|, e - 1)), e, g, h);
      RunPassesAppend(BitKey, s, Mergers(|s|, e - 1), Merger(|s|, e));
    }
  }

  // ---------------------------------------------------------------- main results

  /** At every width, powers of two or not, and for every key, Batcher's network sorts, and what it
      returns is a permutation of what it was given. */
  lemma {:induction false} BatcherSorts<T>(key: T -> int, s: seq<T>)
    ensures Sorted(key, RunPasses(key, s, Batcher(|s|)))
    ensures multiset(RunPasses(key, s, Batcher(|s|))) == multiset(s)
  {
    forall bits: seq<bool> | |bits| == |s|
      ensures Sorted(BitKey, RunPasses(BitKey, bits, Batcher(|s|)))
    {
      MergersSortBlocks(bits, LgCeil(|s|), 0);
      var r := RunPasses(BitKey, bits, Batcher(|s|));
      forall i, j | 0 <= i < j < |r|
        ensures BitKey(r[i]) <= BitKey(r[j])
      {
        assert At(r, i) <= At(r, j);
      }
    }
    ZeroOnePrinciple(key, s, Batcher(|s|));
    RunPassesPermutes(key, s, Batcher(|s|));
  }
}
