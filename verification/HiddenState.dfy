/** The state of a hidden array as a value, and what it means as a plain sequence. */
module HiddenState {
  import opened Base
  import opened Permutations

  /** Writes val over rec at an offset. */
  function Splice(rec: Bytes, off: nat, val: Bytes): (r: Bytes)
    requires off + |val| <= |rec|
    ensures |r| == |rec|
  {
    rec[..off] + val + rec[off + |val|..]
  }

  /** The main container with the listed working items written over it, one after the other. */
  function Overlay(idxs: seq<nat>, items: seq<Bytes>, a: seq<Bytes>): (r: seq<Bytes>)
    requires |idxs| == |items| && forall k :: 0 <= k < |idxs| ==> idxs[k] < |a|
    ensures |r| == |a|
  {
    if idxs == [] then a
    else
      var n := |idxs| - 1;
      Overlay(idxs[..n], items[..n], a)[idxs[n] := items[n]]
  }

  /** The main container a, stored under the permutation p, and the working set of the current session:
      the physical indices touched so far, with the current items. */
  datatype Hidden = Hidden(idxs: seq<nat>, items: seq<Bytes>, a: seq<Bytes>, p: Perm) {
    ghost predicate Ok(n: nat, elemSize: nat) {
      && |a| == n && |items| == |idxs| && p.Permutes(n)
      && Distinct(idxs) && (forall k :: 0 <= k < |idxs| ==> idxs[k] < n)
      && (forall k :: 0 <= k < |items| ==> |items[k]| == elemSize)
      && (forall j :: 0 <= j < n ==> |a[j]| == elemSize)
    }

    /** What every physical slot currently stands for. */
    ghost function Physical(): (r: seq<Bytes>)
      requires |items| == |idxs| && forall k :: 0 <= k < |idxs| ==> idxs[k] < |a|
      ensures |r| == |a|
    {
      Overlay(idxs, items, a)
    }

    /** The array a user sees. */
    ghost function Logical(n: nat, elemSize: nat): (r: seq<Bytes>)
      requires Ok(n, elemSize)
      ensures |r| == n && forall i :: 0 <= i < n ==> r[i] == Physical()[p.fwd[i]]
    {
      seq(n, i requires 0 <= i < n => Physical()[p.fwd[i]])
    }
  }

  lemma {:induction false} OverlayMiss(idxs: seq<nat>, items: seq<Bytes>, a: seq<Bytes>, j: nat)
    requires |idxs| == |items| && (forall k :: 0 <= k < |idxs| ==> idxs[k] < |a|)
    requires j < |a| && j !in idxs
    ensures Overlay(idxs, items, a)[j] == a[j]
  {
    if idxs != [] {
      var n := |idxs| - 1;
      OverlayMiss(idxs[..n], items[..n], a, j);
    }
  }

  lemma {:induction false} OverlayHit(idxs: seq<nat>, items: seq<Bytes>, a: seq<Bytes>, k: nat)
    requires |idxs| == |items| && (forall k :: 0 <= k < |idxs| ==> idxs[k] < |a|)
    requires Distinct(idxs) && k < |idxs|
    ensures Overlay(idxs, items, a)[idxs[k]] == items[k]
  {
    var n := |idxs| - 1;
    if k < n { OverlayHit(idxs[..n], items[..n], a, k); }
  }

  lemma {:induction false} OverlaySnoc(idxs: seq<nat>, items: seq<Bytes>, a: seq<Bytes>, x: nat, item: Bytes)
    requires |idxs| == |items| && (forall k :: 0 <= k < |idxs| ==> idxs[k] < |a|) && x < |a|
    ensures Overlay(idxs + [x], items + [item], a) == Overlay(idxs, items, a)[x := item]
  {
    assert (idxs + [x])[..|idxs|] == idxs && (items + [item])[..|items|] == items;
  }

  lemma {:induction false} OverlayUpdate(idxs: seq<nat>, items: seq<Bytes>, a: seq<Bytes>, k: nat, item: Bytes)
    requires |idxs| == |items| && (forall k :: 0 <= k < |idxs| ==> idxs[k] < |a|)
    requires Distinct(idxs) && k < |idxs|
    ensures Overlay(idxs, items[k := item], a) == Overlay(idxs, items, a)[idxs[k] := item]
  {
    var n := |idxs| - 1;
    if k < n {
      OverlayUpdate(idxs[..n], items[..n], a, k, item);
      assert items[k := item][..n] == items[..n][k := item];
      assert idxs[k] != idxs[n];
    } else {
      assert items[k := item][..n] == items[..n];
    }
  }

  /** Fetching an untouched slot into the working set changes nothing a user sees. */
  lemma FetchKeepsLogical(h: Hidden, n: nat, elemSize: nat, x: nat, h': Hidden)
    requires h.Ok(n, elemSize) && x < n && x !in h.idxs
    requires h' == h.(idxs := h.idxs + [x], items := h.items + [h.a[x]])
    ensures h'.Ok(n, elemSize) && h'.Logical(n, elemSize) == h.Logical(n, elemSize)
  {
    OverlaySnoc(h.idxs, h.items, h.a, x, h.a[x]);
    OverlayMiss(h.idxs, h.items, h.a, x);
    assert h'.Physical() == h.Physical();
  }

  /** A working item is the logical element whose slot it was fetched from. */
  lemma ItemIsLogical(h: Hidden, n: nat, elemSize: nat, i: nat, k: nat)
    requires h.Ok(n, elemSize) && i < n && k < |h.idxs| && h.idxs[k] == h.p.fwd[i]
    ensures h.items[k] == h.Logical(n, elemSize)[i]
  {
    OverlayHit(h.idxs, h.items, h.a, k);
  }

  /** Rewriting a working item rewrites that logical element and no other. */
  lemma RewriteLogical(h: Hidden, n: nat, elemSize: nat, i: nat, k: nat, item: Bytes, h': Hidden)
    requires h.Ok(n, elemSize) && i < n && k < |h.idxs| && h.idxs[k] == h.p.fwd[i] && |item| == elemSize
    requires h' == h.(items := h.items[k := item])
    ensures h'.Ok(n, elemSize) && h'.Logical(n, elemSize) == h.Logical(n, elemSize)[i := item]
  {
    OverlayUpdate(h.idxs, h.items, h.a, k, item);
    assert h'.Physical() == h.Physical()[h.p.fwd[i] := item];
    forall j | 0 <= j < n
      ensures h'.Logical(n, elemSize)[j] == h.Logical(n, elemSize)[i := item][j]
    {
      assert h.p.bwd[h.p.fwd[j]] == j;
    }
  }

  /** Merging the working set into the main container and moving every slot from where the old
      permutation put it to where the new one does changes nothing a user sees. */
  lemma RepermuteKeepsLogical(h: Hidden, n: nat, elemSize: nat, a': seq<Bytes>, p': Perm, h': Hidden)
    requires h.Ok(n, elemSize) && p'.Permutes(n) && |a'| == n
    requires forall j :: 0 <= j < n ==> a'[Repermutation(n, h.p, p').fwd[j]] == h.Physical()[j]
    requires h' == Hidden([], [], a', p')
    ensures h'.Ok(n, elemSize) && h'.Logical(n, elemSize) == h.Logical(n, elemSize)
  {
    var r := Repermutation(n, h.p, p');
    forall i | 0 <= i < n
      ensures h'.Physical()[p'.fwd[i]] == h.Physical()[h.p.fwd[i]]
    {
      assert r.P(h.p.P(i)) == p'.P(i);
    }
    PhysicalSizes(h, n, elemSize);
    forall j | 0 <= j < n ensures |a'[j]| == elemSize { assert r.fwd[r.bwd[j]] == j; }
  }

  lemma PhysicalSizes(h: Hidden, n: nat, elemSize: nat)
    requires h.Ok(n, elemSize)
    ensures forall j :: 0 <= j < n ==> |h.Physical()[j]| == elemSize
  {
    forall j | 0 <= j < n
      ensures |h.Physical()[j]| == elemSize
    {
      if j in h.idxs {
        var k :| 0 <= k < |h.idxs| && h.idxs[k] == j;
        OverlayHit(h.idxs, h.items, h.a, k);
      } else {
        OverlayMiss(h.idxs, h.items, h.a, j);
      }
    }
  }

  /** At most n slots can be touched in a session, and while fewer are, a fresh one exists. */
  lemma FreshSlotExists(h: Hidden, n: nat, elemSize: nat)
    requires h.Ok(n, elemSize)
    ensures |h.idxs| <= n
    ensures |h.idxs| < n ==> exists j: nat :: j < n && j !in h.idxs
  {
    Pigeonhole(h.idxs, n);
  }
}
