/** The shuffler: moves every record of a container to where a permutation sends it, by sorting the
    records on destination tags. */
module Shuffling {
  import opened Base
  import opened Words
  import opened Permutations
  import opened Network
  import opened BatcherSort
  import opened FlatStore
  import opened Stream
  import opened Comparators
  import opened BatcherLoop

  /** Sorting records by the destinations a permutation gives them puts each one at its destination. */
  lemma SortingPlaces<T>(key: T -> int, tagged: seq<T>, r: seq<T>, p: Perm, i: nat)
    requires p.Permutes(|tagged|) && i < |tagged|
    requires forall k :: 0 <= k < |tagged| ==> key(tagged[k]) == p.fwd[k]
    requires multiset(r) == multiset(tagged) && |r| == |tagged| && Sorted(key, r)
    ensures r[p.fwd[i]] == tagged[i]
  {
    var n := |tagged|;
    assert Distinct(tagged) by {
      forall j, k | 0 <= j < k < n ensures tagged[j] != tagged[k] { assert p.bwd[p.fwd[j]] == j && p.bwd[p.fwd[k]] == k; }
    }
    forall x: T ensures multiset(r)[x] <= 1 { DistinctOnce(tagged, x); }
    OnceIsDistinct(r);
    var keys := seq(n, k requires 0 <= k < n => key(r[k]));
    forall k | 0 <= k < n ensures 0 <= keys[k] < n { var j := SourceOf(key, tagged, r, p, k); }
    forall j, k | 0 <= j < k < n
      ensures keys[j] < keys[k]
    {
      var j' := SourceOf(key, tagged, r, p, j);
      var k' := SourceOf(key, tagged, r, p, k);
      assert p.bwd[p.fwd[j']] == j' && p.bwd[p.fwd[k']] == k';
    }
    IncreasingIsIdentity(keys, 0, p.fwd[i]);
    var i' := SourceOf(key, tagged, r, p, p.fwd[i]);
    assert p.bwd[p.fwd[i']] == p.bwd[p.fwd[i]];
  }

  /** Every record after sorting is one from before. */
  lemma SourceOf<T>(key: T -> int, tagged: seq<T>, r: seq<T>, p: Perm, k: nat) returns (j: nat)
    requires p.Permutes(|tagged|) && k < |r| && multiset(r) == multiset(tagged)
    requires forall k :: 0 <= k < |tagged| ==> key(tagged[k]) == p.fwd[k]
    ensures j < |tagged| && tagged[j] == r[k] && key(r[k]) == p.fwd[j]
  {
    assert r[k] in multiset(r);
    assert r[k] in tagged;
    j :| 0 <= j < |tagged| && tagged[j] == r[k];
  }

  /** A record followed by its destination. */
  function WithTag(rec: Bytes, dest: nat): Bytes {
    rec + if dest < WORD_LIMIT then WordBytes(dest) else []
  }

  function WithoutTag(rec: Bytes): Bytes {
    if |rec| < WORD then [] else rec[..|rec| - WORD]
  }

  lemma TagRoundTrip(rec: Bytes, dest: nat)
    requires dest < WORD_LIMIT
    ensures Tag(WithTag(rec, dest)) == dest && WithoutTag(WithTag(rec, dest)) == rec
  {
    WordRoundTrip(dest);
    var r := WithTag(rec, dest);
    assert r[|r| - WORD..] == WordBytes(dest);
  }

  function Tagger(p: Perm): ItemProc<()> {
    (s: (), i: nat, row: seq<Bytes>) => ((), [WithTag(Slice(row, 0), p.P(i))])
  }

  lemma {:induction false} TaggerOutput(p: Perm, rows: seq<seq<Bytes>>, i: nat, rec: Bytes)
    requires i < |rows| && rows[i] == [rec] && i < |p.fwd| && p.fwd[i] < WORD_LIMIT
    ensures Column(Outputs(Tagger(p), (), rows), 0)[i] == WithTag(rec, p.fwd[i])
    ensures Tag(WithTag(rec, p.fwd[i])) == p.fwd[i]
  {
    StatelessOutput(Tagger(p), rows, i);
    TagRoundTrip(rec, p.fwd[i]);
  }

  function TagRemover(): ItemProc<()> {
    (s: (), i: nat, row: seq<Bytes>) => ((), [WithoutTag(Slice(row, 0))])
  }

  class Shuffler {
    const io: FlatIO
    const p: Perm
    const N: uint32
    const readCacheSize: nat

    constructor (io: FlatIO, p: Perm, N: uint32, cacheMem: nat)
      requires io.elemSize > 0
      ensures this.io == io && this.p == p && this.N == N && this.readCacheSize == cacheMem / io.elemSize
    {
      this.io, this.p, this.N := io, p, N;
      readCacheSize := cacheMem / io.elemSize;
    }

    ghost predicate Ready()
      reads io
    {
      && 1 <= N as nat <= MAX_WIRES && |io.recs| == N as nat && p.Permutes(N as nat) && io.elemSize > 0
      && (N >= 2 ==> readCacheSize >= 2)
    }

    /** Rearranges the container: the record that was at i ends up, unchanged, at p(i). */
    method Shuffle()
      requires Ready()
      modifies io
      ensures |io.recs| == N as nat
      ensures forall i :: 0 <= i < N as nat ==> io.recs[p.fwd[i]] == old(io.recs[i])
    {
      Prepare();
      ghost var tagged := io.recs;
      var batchSize := Min(readCacheSize / 2, N as nat - 1);
      var comparator := new Comparator(io, batchSize);
      RunBatcher(N, comparator);
      ghost var sorted := io.recs;
      BatcherSorts(Tag, tagged);
      RemoveTags();
      forall i | 0 <= i < N as nat
        ensures io.recs[p.fwd[i]] == old(io.recs[i])
      {
        SortingPlaces(Tag, tagged, sorted, p, i);
        TagRoundTrip(old(io.recs[i]), p.fwd[i]);
      }
    }

    /** Adds its destination to every record. */
    method Prepare()
      requires Ready()
      modifies io
      ensures |io.recs| == N as nat && Tagged(io.recs, N as nat)
      ensures forall i :: 0 <= i < N as nat ==> io.recs[i] == WithTag(old(io.recs[i]), p.fwd[i])
      ensures forall i :: 0 <= i < N as nat ==> Tag(io.recs[i]) == p.fwd[i]
    {
      ghost var rows, before := Items(io, N as nat), io.recs;
      ghost var tagged := Column(Outputs(Tagger(p), (), rows), 0);
      var _ := ProcessOne(Tagger(p), (), N as nat, io, io);
      assert io.recs == tagged;
      forall i | 0 <= i < N as nat
        ensures tagged[i] == WithTag(before[i], p.fwd[i]) && Tag(tagged[i]) == p.fwd[i]
      {
        TaggerOutput(p, rows, i, before[i]);
      }
    }

    method RemoveTags()
      requires |io.recs| == N as nat && io.elemSize > 0
      modifies io
      ensures |io.recs| == N as nat
      ensures forall i :: 0 <= i < N as nat ==> io.recs[i] == WithoutTag(old(io.recs[i]))
    {
      ghost var rows, before := Items(io, N as nat), io.recs;
      var _ := ProcessOne(TagRemover(), (), N as nat, io, io);
      forall i | 0 <= i < N as nat
        ensures io.recs[i] == WithoutTag(before[i])
      {
        StatelessOutput(TagRemover(), rows, i);
      }
    }
  }
}
