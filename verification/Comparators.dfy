/** The comparator of the shuffler, which collects compare-exchanges and executes them in bulk. */
module Comparators {
  import opened Base
  import opened Words
  import opened Network
  import opened FlatStore
  import opened Bulk

  /** The destination tag that ends a record. */
  function Tag(rec: Bytes): int {
    if |rec| < WORD then -1 else BytesWord(rec[|rec| - WORD..])
  }

  ghost predicate Tagged(recs: seq<Bytes>, n: nat) {
    forall k :: 0 <= k < |recs| ==> 0 <= Tag(recs[k]) < n
  }

  lemma {:induction false} RunKeepsTags(recs: seq<Bytes>, cs: seq<Comp>, n: nat)
    requires Tagged(recs, n)
    ensures Tagged(Run(Tag, recs, cs), n)
  {
    if cs != [] { RunKeepsTags(recs, cs[..|cs| - 1], n); }
  }

  class Comparator {
    const io: FlatIO
    const n: nat
    const maxBatch: nat
    var batchSize: nat
    var comparators: seq<Comp>
    var idxs: seq<nat>

    // the passes that are over, and what has been executed of the one that is not
    ghost const start: seq<Bytes>
    ghost var passes: seq<seq<Comp>>
    ghost var done: seq<Comp>

    ghost function Pending(): seq<Comp>
      reads this
      requires batchSize <= |comparators|
    {
      comparators[..batchSize]
    }

    /** Everything asked for since the last pass boundary. */
    ghost function Pass(): seq<Comp>
      reads this
      requires batchSize <= |comparators|
    {
      done + Pending()
    }

    /** The container as it will be once the collected comparators have been executed. */
    ghost function View(): seq<Bytes>
      reads this, io
      requires batchSize <= |comparators|
    {
      Run(Tag, io.recs, Pending())
    }

    ghost predicate Consistent()
      reads this, io
    {
      && |io.recs| == n == |start| && Tagged(io.recs, n)
      && |comparators| == maxBatch && |idxs| == 2 * maxBatch && batchSize <= maxBatch
      && Disjoint(Pass(), n)
      && io.recs == Run(Tag, RunPasses(Tag, start, passes), done)
    }

    /** Between calls there is room for one more comparator. */
    ghost predicate Valid()
      reads this, io
    {
      Consistent() && (batchSize < maxBatch || batchSize == 0)
    }

    constructor (io: FlatIO, maxBatch: nat)
      requires Tagged(io.recs, |io.recs|)
      ensures Valid() && this.io == io && n == |io.recs| && this.maxBatch == maxBatch
      ensures passes == [] && Pass() == [] && start == io.recs && batchSize == 0
    {
      this.io, n, this.maxBatch := io, |io.recs|, maxBatch;
      batchSize := 0;
      comparators := seq(maxBatch, _ => Comp(0, 0));
      idxs := seq(2 * maxBatch, _ => 0);
      start, passes, done := io.recs, [], [];
    }

    /** Collects one comparator, and executes the batch when it is full. */
    method Compare(a: nat, b: nat)
      requires Valid() && maxBatch >= 1 && a < b < n
      requires Disjoint(Pass() + [Comp(a, b)], n)
      modifies this, io
      ensures Valid()
      ensures View() == Exchange(Tag, old(View()), Comp(a, b))
      ensures Pass() == old(Pass()) + [Comp(a, b)] && passes == old(passes)
    {
      Collect(a, b);
      if batchSize == maxBatch {
        Flush();
      }
    }

    method Collect(a: nat, b: nat)
      requires Valid() && maxBatch >= 1 && Disjoint(Pass() + [Comp(a, b)], n)
      modifies this`comparators, this`batchSize
      ensures Consistent() && batchSize > 0
      ensures View() == Exchange(Tag, old(View()), Comp(a, b)) && Pass() == old(Pass()) + [Comp(a, b)]
    {
      ghost var pending, c := Pending(), Comp(a, b);
      comparators := comparators[batchSize := Comp(a, b)];
      batchSize := batchSize + 1;
      assert Pending() == pending + [c];
      assert Pass() == old(Pass()) + [c];
      RunSnoc(Tag, io.recs, pending, c);
    }

    /** A pass is over: whatever is still collected is executed. */
    method NewPass()
      requires Valid()
      modifies this, io
      ensures Valid() && batchSize == 0
      ensures io.recs == View() == old(View())
      ensures passes == old(passes) + [old(Pass())] && Pass() == []
    {
      if batchSize > 0 {
        Flush();
      }
      assert done == old(Pass());
      passes, done := passes + [done], [];
      assert passes[..|passes| - 1] == old(passes);
      assert Pass() == [];
    }

    /** With nothing collected and no pass open, the container holds what the passes compute. */
    lemma AllExecuted()
      requires Valid() && batchSize == 0 && Pass() == []
      ensures io.recs == RunPasses(Tag, start, passes)
    {
    }

    method Flush()
      requires Consistent() && batchSize > 0
      modifies this`comparators, this`idxs, this`batchSize, this`done, io
      ensures Consistent() && batchSize == 0
      ensures View() == old(View()) && Pass() == old(Pass())
    {
      DisjointSuffix(done, Pending(), n);
      RunAppend(Tag, RunPasses(Tag, start, passes), done, Pending());
      done := done + Pending();
      DoBatch();
      batchSize := 0;
      assert Pending() == [];
      assert Pass() == done;
    }

    /** Executes the collected comparators with one bulk read and one bulk write. */
    method DoBatch()
      requires 0 < batchSize <= maxBatch == |comparators| && |idxs| == 2 * maxBatch
      requires Disjoint(Pending(), n)
      requires |io.recs| == n && Tagged(io.recs, n)
      modifies this`comparators, this`idxs, io
      ensures io.recs == Run(Tag, old(io.recs), old(Pending()))
      ensures |comparators| == maxBatch && |idxs| == 2 * maxBatch && |io.recs| == n && Tagged(io.recs, n)
    {
      ghost var before, pending := io.recs, Pending();
      comparators := comparators[..batchSize];
      idxs := idxs[..2 * batchSize];
      BuildIdxList();
      BulkIsImmediate(Tag, before, pending);
      var objs := io.ReadList(idxs);
      objs := DoComparators(objs);
      io.WriteList(idxs, objs);
      RunKeepsTags(before, pending, n);
      Restore();
    }

    /** Brings the two caches back to their full sizes. */
    method Restore()
      requires |comparators| <= maxBatch && |idxs| == 2 * |comparators|
      modifies this`comparators, this`idxs
      ensures |comparators| == maxBatch && |idxs| == 2 * maxBatch
    {
      comparators := comparators + seq(maxBatch - |comparators|, _ => Comp(0, 0));
      idxs := idxs + seq(2 * maxBatch - |idxs|, _ => 0);
    }

    method BuildIdxList()
      requires |idxs| == 2 * |comparators|
      modifies this`idxs
      ensures idxs == Wires(comparators)
    {
      for k := 0 to |comparators|
        invariant |idxs| == 2 * |comparators|
        invariant idxs[..2 * k] == Wires(comparators[..k])
      {
        assert comparators[..k + 1][..k] == comparators[..k];
        idxs := idxs[2 * k := comparators[k].a];
        idxs := idxs[2 * k + 1 := comparators[k].b];
        assert idxs[..2 * (k + 1)] == idxs[..2 * k] + [comparators[k].a, comparators[k].b];
      }
      assert comparators[..|comparators|] == comparators && idxs[..|idxs|] == idxs;
    }

    /** Exchanges the records of a flat list pair by pair, according to their tags. */
    method DoComparators(objs: seq<Bytes>) returns (recs: seq<Bytes>)
      requires |objs| == 2 * |comparators| && Tagged(objs, n)
      ensures recs == Run(Tag, objs, Neighbours(|comparators|))
    {
      recs := objs;
      for k := 0 to |comparators|
        invariant |recs| == 2 * |comparators| && recs == Run(Tag, objs, Neighbours(k))
      {
        var r1, r2 := 2 * k, 2 * k + 1;
        RunNeighbours(Tag, objs, k);
        RunKeepsTags(objs, Neighbours(k), n);
        var a, b := Tag(recs[r1]), Tag(recs[r2]);
        assert 0 <= a < n && 0 <= b < n;
        if b < a {
          recs := recs[r1 := recs[r2]][r2 := recs[r1]];
        }
      }
    }
  }
}
