/** The hidden array: a main container stored under a secret permutation, a working set that grows by
    one element per access, and a re-permutation when the session is over. */
module ObliviousArray {
  import opened Base
  import opened Words
  import opened Permutations
  import opened FlatStore
  import opened Stream
  import opened BatcherLoop
  import opened Shuffling
  import opened HiddenState
  import opened WorkingSet

  // ---------------------------------------------------------------- randomness

  /** Whatever the random source will deliver: index proposals and new permutations. */
  datatype Randomness = Randomness(probes: nat -> nat, perms: nat -> Perm) {
    /** For an array of n elements: proposals are indices, each index is proposed again and again, and
        permutations permute. Nothing else is known about either. */
    ghost predicate Fair(n: nat) {
      && (forall k: nat :: probes(k) < n)
      && (forall k: nat, j: nat :: j < n ==> ProposedFrom(k, j))
      && (forall k: nat :: perms(k).Permutes(n))
    }

    ghost predicate ProposedFrom(k: nat, j: nat) {
      exists k': nat :: k <= k' && probes(k') == j
    }
  }

  class RandProvider {
    const source: Randomness
    var probe: nat
    var perm: nat

    constructor (source: Randomness)
      ensures this.source == source
    {
      this.source := source;
      probe, perm := 0, 0;
    }

    method RandInt(ghost n: nat) returns (r: nat)
      requires source.Fair(n)
      modifies this`probe
      ensures r < n && r == source.probes(old(probe)) && probe == old(probe) + 1
    {
      r := source.probes(probe);
      probe := probe + 1;
    }

    method RandPerm(ghost n: nat) returns (p: Perm)
      requires source.Fair(n)
      modifies this`perm
      ensures p.Permutes(n) && p == source.perms(old(perm)) && perm == old(perm) + 1
    {
      p := source.perms(perm);
      perm := perm + 1;
    }
  }

  // ---------------------------------------------------------------- the main container

  /** Sizes that the machine arithmetic and the caches of the shuffler can handle. */
  predicate Supported(n: nat, elemSize: nat, cacheMem: nat) {
    1 <= n <= MAX_WIRES && 1 <= elemSize && (n >= 2 ==> cacheMem / elemSize >= 2)
  }

  function Zeros(len: nat): (r: Bytes)
    ensures |r| == len
  {
    seq(len, _ => 0)
  }

  function ZeroElems(len: nat, elemSize: nat): (r: seq<Bytes>)
    ensures |r| == len && forall i :: 0 <= i < len ==> r[i] == Zeros(elemSize)
  {
    seq(len, _ => Zeros(elemSize))
  }

  /** Where the elements of an array come from: a container that is there already, or a new one that is
      to be filled with zeros. */
  datatype Origin = Existing(recs: seq<Bytes>, elemSize: nat) | New(len: nat, elemSize: nat) {
    function Len(): nat { if Existing? then |recs| else len }

    function Elems(): (r: seq<Bytes>)
      ensures |r| == Len()
    {
      if Existing? then recs else ZeroElems(len, elemSize)
    }
  }

  function ConstantProc(b: Bytes): ItemProc<()> {
    (s: (), i: nat, row: seq<Bytes>) => ((), [b])
  }

  lemma {:induction false} FillsAll(rows: seq<seq<Bytes>>, elemSize: nat)
    ensures Column(Outputs(ConstantProc(Zeros(elemSize)), (), rows), 0) == ZeroElems(|rows|, elemSize)
  {
    var proc := ConstantProc(Zeros(elemSize));
    forall i | 0 <= i < |rows|
      ensures Column(Outputs(proc, (), rows), 0)[i] == Zeros(elemSize)
    {
      StatelessOutput(proc, rows, i);
    }
  }

  function CopyProc(): ItemProc<()> {
    (s: (), i: nat, row: seq<Bytes>) => ((), [Slice(row, 0)])
  }

  lemma CopiesAll(rows: seq<seq<Bytes>>, recs: seq<Bytes>)
    requires |rows| == |recs| && forall i :: 0 <= i < |rows| ==> rows[i] == [recs[i]]
    ensures Column(Outputs(CopyProc(), (), rows), 0) == recs
  {
    forall i | 0 <= i < |rows| { StatelessOutput(CopyProc(), rows, i); }
  }

  class ArrayA {
    const io: FlatIO

    constructor (origin: Origin)
      requires origin.elemSize > 0
      ensures fresh(io) && io.recs == origin.Elems() && io.elemSize == origin.elemSize
    {
      var c := new FlatIO(origin.Len(), origin.elemSize);
      io := c;
      new;
      if origin.New? {
        Fill(io, origin.len);
      } else {
        io.WriteAll(origin.recs);
      }
    }

    /** Streams zeros into a container; there is no input stream. */
    static method Fill(io: FlatIO, n: nat)
      requires |io.recs| == n && io.elemSize > 0
      modifies io
      ensures io.recs == ZeroElems(n, io.elemSize)
    {
      FillsAll(Items(null, n), io.elemSize);
      assert io.recs[n..] == [];
      var _ := ProcessOne(ConstantProc(Zeros(io.elemSize)), (), n, null, io);
    }

    /** Streams the container into a new one. */
    method Copy(n: nat) returns (copy: FlatIO)
      requires |io.recs| == n && io.elemSize > 0
      ensures fresh(copy) && copy.recs == io.recs && copy.elemSize == io.elemSize
    {
      copy := new FlatIO(n, io.elemSize);
      CopyInto(copy, n, io.recs);
    }

    method CopyInto(copy: FlatIO, n: nat, ghost recs: seq<Bytes>)
      requires recs == io.recs && |recs| == n == |copy.recs| && copy != io && io.elemSize > 0
      requires copy.elemSize == io.elemSize
      modifies copy
      ensures copy.recs == recs
    {
      ghost var rows := Items(io, n);
      CopiesAll(rows, recs);
      assert copy.recs[n..] == [];
      var _ := ProcessOne(CopyProc(), (), n, io, copy);
    }

    /** Copies the container, moves every record from where oldP puts it to where newP does, and
        installs the copy. */
    method Repermute(n: nat, oldP: Perm, newP: Perm, cacheMem: nat)
      requires |io.recs| == n && Supported(n, io.elemSize, cacheMem) && oldP.Permutes(n) && newP.Permutes(n)
      modifies io
      ensures |io.recs| == n
      ensures forall j :: 0 <= j < n ==> io.recs[Repermutation(n, oldP, newP).fwd[j]] == old(io.recs[j])
    {
      var copy := Copy(n);
      var shuffler := new Shuffler(copy, Repermutation(n, oldP, newP), n as uint32, cacheMem);
      shuffler.Shuffle();
      io.Assign(copy);
    }
  }

  // ---------------------------------------------------------------- the array

  class Array {
    const N: nat
    const elemSize: nat
    const cacheMem: nat
    const maxRetrievals: nat
    const T: ArrayT
    const A: ArrayA
    const rand: RandProvider
    var p: Perm
    var numRetrievals: nat

    /** Everything an operation may change. */
    ghost function Footprint(): set<object> {
      {this, T.idxs, T.items, A.io, rand}
    }

    ghost predicate Shape() {
      && Supported(N, elemSize, cacheMem) && maxRetrievals < N && rand.source.Fair(N)
      && T.idxs != T.items && T.idxs != A.io && T.items != A.io
      && T.idxs.elemSize == WORD && T.items.elemSize == elemSize == A.io.elemSize
    }

    ghost function State(): Hidden
      reads this, T.idxs, T.items, A.io
      requires numRetrievals <= |T.idxs.recs| && numRetrievals <= |T.items.recs|
    {
      Hidden(T.Touched(numRetrievals), T.Items(numRetrievals), A.io.recs, p)
    }

    ghost predicate Inv(limit: nat)
      reads this, T.idxs, T.items, A.io
    {
      Shape() && T.Holds(numRetrievals) && numRetrievals <= limit && State().Ok(N, elemSize)
    }

    /** Between operations at most maxRetrievals elements are in the working set. */
    ghost predicate Valid()
      reads this, T.idxs, T.items, A.io
    {
      Inv(maxRetrievals)
    }

    /** The array a user sees. */
    ghost function Contents(): (r: seq<Bytes>)
      reads this, T.idxs, T.items, A.io
      requires Inv(maxRetrievals + 1)
      ensures |r| == N && forall i :: 0 <= i < N ==> |r[i]| == elemSize
    {
      PhysicalSizes(State(), N, elemSize);
      State().Logical(N, elemSize)
    }

    /** The elements are stored in order at first; the session budget is capped below the length. */
    constructor (origin: Origin, cacheMem: nat, budget: nat, source: Randomness)
      requires Supported(origin.Len(), origin.elemSize, cacheMem) && source.Fair(origin.Len())
      requires forall j :: 0 <= j < origin.Len() ==> |origin.Elems()[j]| == origin.elemSize
      ensures Valid() && Contents() == origin.Elems() && fresh(Footprint())
      ensures N == origin.Len() && elemSize == origin.elemSize && this.cacheMem == cacheMem && numRetrievals == 0
      ensures maxRetrievals == Min(budget, N - 1)
    {
      var n := origin.Len();
      var max := if budget >= n then n - 1 else budget;
      N, elemSize, this.cacheMem, maxRetrievals := n, origin.elemSize, cacheMem, max;
      p := Identity(n);
      numRetrievals := 0;
      T := new ArrayT(max, origin.elemSize);
      A := new ArrayA(origin);
      rand := new RandProvider(source);
    }

    method Read(idx: nat) returns (buf: Bytes)
      requires Valid() && idx < N
      modifies Footprint()
      ensures Valid() && Contents() == old(Contents()) && buf == old(Contents())[idx]
      ensures numRetrievals == if old(numRetrievals) == maxRetrievals then 0 else old(numRetrievals) + 1
    {
      buf := Access(idx, None);
    }

    method Write(enable: bool, idx: nat, off: nat, val: Bytes)
      requires Valid() && idx < N && (enable ==> off + |val| <= elemSize)
      modifies Footprint()
      ensures Valid()
      ensures Contents() == if enable then old(Contents())[idx := Splice(old(Contents())[idx], off, val)]
                            else old(Contents())
      ensures numRetrievals == if old(numRetrievals) == maxRetrievals then 0 else old(numRetrievals) + 1
    {
      var _ := Access(idx, if enable then Some((off, val)) else None);
    }

    /** One access: fetch one more element, scan the whole working set, and re-permute when the session
        budget is exceeded. */
    method Access(idx: nat, newVal: Option<(nat, Bytes)>) returns (buf: Bytes)
      requires Valid() && idx < N && (newVal.Some? ==> newVal.value.0 + |newVal.value.1| <= elemSize)
      modifies Footprint()
      ensures Valid() && buf == old(Contents())[idx]
      ensures Contents() == old(Contents())[idx := Rewritten(old(Contents())[idx], newVal)]
      ensures numRetrievals == if old(numRetrievals) == maxRetrievals then 0 else old(numRetrievals) + 1
    {
      var pIdx := p.P(idx);
      AppendNewWorkingItem(pIdx);
      buf := Scan(idx, pIdx, newVal);
      if numRetrievals > maxRetrievals {
        Repermute();
      }
    }

    /** Fetches the element at physical index idx, or a random untouched one if that is in the working
        set already. */
    method AppendNewWorkingItem(idx: nat)
      requires Valid() && idx < N
      modifies this`numRetrievals, T.idxs, T.items, rand
      ensures Inv(maxRetrievals + 1) && numRetrievals == old(numRetrievals) + 1
      ensures Contents() == old(Contents()) && p == old(p) && A.io.recs == old(A.io.recs)
      ensures idx in State().idxs
      ensures exists x :: x !in old(State().idxs) && State().idxs == old(State().idxs) + [x]
    {
      var x := ChooseIndex(idx);
      ghost var before := State();
      FetchKeepsLogical(before, N, elemSize, x, before.(idxs := before.idxs + [x], items := before.items + [before.a[x]]));
      var obj := A.io.Read(x);
      T.AppendItem(numRetrievals, x, obj);
      numRetrievals := numRetrievals + 1;
      assert State().idxs[|before.idxs|] == x;
      assert before.idxs <= State().idxs;
    }

    /** Random proposals are drawn until one can be used; with fewer than N elements touched a usable
        one exists, and it comes up after finitely many draws. */
    method ChooseIndex(idx: nat) returns (x: nat)
      requires Valid() && idx < N
      modifies rand
      ensures x < N && x !in State().idxs && old(rand.probe) < rand.probe
      ensures if idx !in State().idxs then x == idx else x == rand.source.probes(rand.probe - 1)
      ensures forall k :: old(rand.probe) <= k < rand.probe - 1 ==>
                idx in State().idxs && rand.source.probes(k) in State().idxs
    {
      FreshSlotExists(State(), N, elemSize);
      ghost var free: nat :| free < N && free !in State().idxs;
      assert rand.source.ProposedFrom(rand.probe, free);
      ghost var due: nat :| rand.probe <= due && rand.source.probes(due) == free;
      var toAppend: Option<nat> := None;
      while toAppend == None
        invariant old(rand.probe) <= rand.probe && (toAppend == None ==> rand.probe <= due)
        invariant forall k :: old(rand.probe) <= k < rand.probe - (if toAppend == None then 0 else 1) ==>
                    idx in State().idxs && rand.source.probes(k) in State().idxs
        invariant toAppend.Some? ==>
                    && toAppend.value < N && toAppend.value !in State().idxs && old(rand.probe) < rand.probe
                    && (if idx !in State().idxs then toAppend.value == idx
                        else toAppend.value == rand.source.probes(rand.probe - 1))
        decreases toAppend == None, due - rand.probe
      {
        var r := rand.RandInt(N);
        toAppend := T.FindFetchIdx(numRetrievals, r, idx);
      }
      x := toAppend.value;
    }

    /** Scans the working set for the element of logical index idx, rewriting it if there is a new
        value. */
    method Scan(ghost idx: nat, pIdx: nat, newVal: Option<(nat, Bytes)>) returns (buf: Bytes)
      requires Inv(maxRetrievals + 1) && idx < N && pIdx == p.fwd[idx] && pIdx in State().idxs
      requires newVal.Some? ==> newVal.value.0 + |newVal.value.1| <= elemSize
      modifies T.idxs, T.items
      ensures Inv(maxRetrievals + 1) && buf == old(Contents())[idx]
      ensures Contents() == old(Contents())[idx := Rewritten(old(Contents())[idx], newVal)]
    {
      ghost var before := State();
      ghost var k :| 0 <= k < |before.idxs| && before.idxs[k] == pIdx;
      ghost var item := Rewritten(before.items[k], newVal);
      ItemIsLogical(before, N, elemSize, idx, k);
      RewriteLogical(before, N, elemSize, idx, k, item, before.(items := before.items[k := item]));
      buf := T.DoDummyAccesses(numRetrievals, pIdx, newVal, k);
    }

    /** Ends a session: the working set goes back to the main container, which is then re-permuted. */
    method Repermute()
      requires Inv(maxRetrievals + 1)
      modifies this`p, this`numRetrievals, A.io, rand
      ensures Valid() && numRetrievals == 0 && State().idxs == [] && p == rand.source.perms(old(rand.perm))
      ensures Contents() == old(Contents())
    {
      ghost var before := State();
      Merge();
      var p2 := rand.RandPerm(N);
      A.Repermute(N, p, p2, cacheMem);
      RepermuteKeepsLogical(before, N, elemSize, A.io.recs, p2, Hidden([], [], A.io.recs, p2));
      p := p2;
      numRetrievals := 0;
      assert State() == Hidden([], [], A.io.recs, p2);
    }

    static lemma {:induction false} MergeStep(idxs: seq<nat>, items: seq<Bytes>, a: seq<Bytes>, i: nat)
      requires |idxs| == |items| && i < |idxs| && forall k :: 0 <= k < |idxs| ==> idxs[k] < |a|
      ensures Overlay(idxs[..i + 1], items[..i + 1], a) == Overlay(idxs[..i], items[..i], a)[idxs[i] := items[i]]
    {
      assert idxs[..i + 1][..i] == idxs[..i] && items[..i + 1][..i] == items[..i];
    }

    /** Copies the working set into the main container. */
    method Merge()
      requires Inv(maxRetrievals + 1)
      modifies A.io
      ensures A.io.recs == old(State().Physical())
    {
      ghost var h := State();
      var i := 0;
      while i < numRetrievals
        invariant 0 <= i <= numRetrievals
        invariant A.io.recs == Overlay(h.idxs[..i], h.items[..i], h.a)
      {
        var idxBuf := T.idxs.Read(i);
        var item := T.items.Read(i);
        MergeStep(h.idxs, h.items, h.a, i);
        assert Index(idxBuf) == h.idxs[i] && item == h.items[i];
        A.io.Write(Index(idxBuf), item);
        i := i + 1;
      }
      assert h.idxs[..i] == h.idxs && h.items[..i] == h.items;
    }
  }
}
