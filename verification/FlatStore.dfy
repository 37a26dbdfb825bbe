/** Containers of byte strings: the part of the storage layer that the runtime relies on. */
module FlatStore {
  import opened Base

  /** The elements at the listed positions, in list order. */
  function Gather<T>(s: seq<T>, idxs: seq<nat>): (r: seq<T>)
    requires forall k :: 0 <= k < |idxs| ==> idxs[k] < |s|
    ensures |r| == |idxs| && forall k :: 0 <= k < |r| ==> r[k] == s[idxs[k]]
  {
    seq(|idxs|, k requires 0 <= k < |idxs| => s[idxs[k]])
  }

  /** The elements of objs stored at the listed positions, one after the other. */
  function Scatter<T>(s: seq<T>, idxs: seq<nat>, objs: seq<T>): (r: seq<T>)
    requires |idxs| == |objs| && forall k :: 0 <= k < |idxs| ==> idxs[k] < |s|
    ensures |r| == |s|
  {
    if idxs == [] then s
    else
      var n := |idxs| - 1;
      Scatter(s, idxs[..n], objs[..n])[idxs[n] := objs[n]]
  }

  class FlatIO {
    const elemSize: nat
    var recs: seq<Bytes>

    /** A new container; nothing is promised about what its elements hold. */
    constructor (len: nat, elemSize: nat)
      ensures |recs| == len && this.elemSize == elemSize
    {
      this.elemSize := elemSize;
      recs := seq(len, _ => []);
    }

    method Read(i: nat) returns (b: Bytes)
      requires i < |recs|
      ensures b == recs[i]
    {
      b := recs[i];
    }

    /** Containers grow when the position just past the last one is written. */
    method Write(i: nat, b: Bytes)
      requires i <= |recs|
      modifies this
      ensures recs == if i < |old(recs)| then old(recs)[i := b] else old(recs) + [b]
    {
      recs := if i < |recs| then recs[i := b] else recs + [b];
    }

    method ReadList(idxs: seq<nat>) returns (objs: seq<Bytes>)
      requires forall k :: 0 <= k < |idxs| ==> idxs[k] < |recs|
      ensures objs == Gather(recs, idxs)
    {
      objs := Gather(recs, idxs);
    }

    method WriteList(idxs: seq<nat>, objs: seq<Bytes>)
      requires |idxs| == |objs| && forall k :: 0 <= k < |idxs| ==> idxs[k] < |recs|
      modifies this
      ensures recs == Scatter(old(recs), idxs, objs)
    {
      recs := Scatter(recs, idxs, objs);
    }

    method WriteAll(objs: seq<Bytes>)
      modifies this
      ensures recs == objs
    {
      recs := objs;
    }

    method Assign(other: FlatIO)
      modifies this
      ensures recs == old(other.recs)
    {
      recs := other.recs;
    }
  }
}
