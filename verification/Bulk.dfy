/** Executing comparators in bulk: fetch all records, exchange pair by pair, store all records. */
module Bulk {
  import opened Base
  import opened Network
  import opened FlatStore

  lemma {:induction false} WiresAppend(cs: seq<Comp>, ds: seq<Comp>)
    ensures Wires(cs + ds) == Wires(cs) + Wires(ds)
  {
    if ds == [] {
      assert cs + ds == cs;
    } else {
      var front := ds[..|ds| - 1];
      WiresAppend(cs, front);
      assert (cs + ds)[..|cs + ds| - 1] == cs + front;
    }
  }

  /** The end of a list without shared wires has none either. */
  lemma {:induction false} DisjointSuffix(cs: seq<Comp>, ds: seq<Comp>, n: nat)
    requires Disjoint(cs + ds, n)
    ensures Disjoint(ds, n)
  {
    if ds != [] {
      var front, last := ds[..|ds| - 1], ds[|ds| - 1];
      assert (cs + ds)[..|cs + ds| - 1] == cs + front;
      DisjointSuffix(cs, front, n);
      WiresAppend(cs, front);
    }
  }

  /** The comparators of m pairs of neighbours. */
  ghost function Neighbours(m: nat): (r: seq<Comp>)
    ensures |r| == m
  {
    if m == 0 then [] else Neighbours(m - 1) + [Comp(2 * m - 2, 2 * m - 1)]
  }

  lemma RunNeighbours<T>(key: T -> int, s: seq<T>, m: nat)
    ensures Run(key, s, Neighbours(m + 1)) == Exchange(key, Run(key, s, Neighbours(m)), Comp(2 * m, 2 * m + 1))
  {
    RunSnoc(key, s, Neighbours(m), Comp(2 * m, 2 * m + 1));
  }

  lemma {:induction false} UntouchedWire<T>(key: T -> int, s: seq<T>, cs: seq<Comp>, x: nat)
    requires x < |s| && x !in Wires(cs)
    ensures Run(key, s, cs)[x] == s[x]
  {
    if cs != [] {
      assert Wires(cs) == Wires(cs[..|cs| - 1]) + [cs[|cs| - 1].a, cs[|cs| - 1].b];
      assert cs[|cs| - 1].a in Wires(cs) && cs[|cs| - 1].b in Wires(cs);
      UntouchedWire(key, s, cs[..|cs| - 1], x);
    }
  }

  lemma ExchangeWithTail<T>(key: T -> int, s: seq<T>, tail: seq<T>, c: Comp)
    requires c.a < c.b < |s|
    ensures Exchange(key, s + tail, c) == Exchange(key, s, c) + tail
  {
    var all := s + tail;
    assert all[c.a] == s[c.a] && all[c.b] == s[c.b];
  }

  lemma {:induction false} RunWithTail<T>(key: T -> int, s: seq<T>, tail: seq<T>, m: nat)
    requires |s| >= 2 * m
    ensures Run(key, s + tail, Neighbours(m)) == Run(key, s, Neighbours(m)) + tail
  {
    if m > 0 {
      var k := m - 1;
      RunWithTail(key, s, tail, k);
      RunNeighbours(key, s, k);
      RunNeighbours(key, s + tail, k);
      ExchangeWithTail(key, Run(key, s, Neighbours(k)), tail, Comp(2 * k, 2 * k + 1));
    } else {
      assert Neighbours(0) == [];
    }
  }

  lemma GatherSnoc<T>(s: seq<T>, idxs: seq<nat>, a: nat, b: nat)
    requires a < |s| && b < |s| && forall k :: 0 <= k < |idxs| ==> idxs[k] < |s|
    ensures Gather(s, idxs + [a, b]) == Gather(s, idxs) + [s[a], s[b]]
  {
  }

  lemma ScatterOne<T>(s: seq<T>, idxs: seq<nat>, objs: seq<T>, a: nat, x: T)
    requires |idxs| == |objs| && a < |s| && forall k :: 0 <= k < |idxs| ==> idxs[k] < |s|
    ensures Scatter(s, idxs + [a], objs + [x]) == Scatter(s, idxs, objs)[a := x]
  {
    assert (idxs + [a])[..|idxs|] == idxs && (objs + [x])[..|idxs|] == objs;
  }

  lemma {:induction false} ScatterSnoc<T>(s: seq<T>, idxs: seq<nat>, objs: seq<T>, a: nat, b: nat, x: T, y: T)
    requires |idxs| == |objs| && a < |s| && b < |s| && forall k :: 0 <= k < |idxs| ==> idxs[k] < |s|
    ensures Scatter(s, idxs + [a, b], objs + [x, y]) == Scatter(s, idxs, objs)[a := x][b := y]
  {
    ScatterOne(s, idxs, objs, a, x);
    ScatterOne(s, idxs + [a], objs + [x], b, y);
    assert idxs + [a, b] == idxs + [a] + [b];
    assert objs + [x, y] == objs + [x] + [y];
  }

  /** One more pair at the end of the fetched list. */
  lemma BulkSnoc<T>(key: T -> int, g: seq<T>, m: nat, x: T, y: T)
    requires |g| == 2 * m
    ensures Run(key, g + [x, y], Neighbours(m + 1))
         == Run(key, g, Neighbours(m)) + if key(y) < key(x) then [y, x] else [x, y]
  {
    RunWithTail(key, g, [x, y], m);
    RunNeighbours(key, g + [x, y], m);
  }

  /** When no wire occurs twice, fetching all records, exchanging neighbours and storing all records
      is execution one comparator after the other. */
  lemma {:induction false} BulkIsImmediate<T>(key: T -> int, s: seq<T>, cs: seq<Comp>)
    requires Disjoint(cs, |s|)
    ensures forall k :: 0 <= k < |Wires(cs)| ==> Wires(cs)[k] < |s|
    ensures Scatter(s, Wires(cs), Run(key, Gather(s, Wires(cs)), Neighbours(|cs|))) == Run(key, s, cs)
  {
    DisjointIsDistinct(cs, |s|);
    if cs == [] {
      assert Run(key, s, cs) == s;
    } else {
      var m := |cs| - 1;
      var front, c := cs[..m], cs[m];
      BulkIsImmediate(key, s, front);
      UntouchedWire(key, s, front, c.a);
      UntouchedWire(key, s, front, c.b);
      BulkStep(key, s, Wires(front), m, c);
    }
  }

  /** The last comparator of a bulk execution, seen in the container. */
  lemma BulkStep<T>(key: T -> int, s: seq<T>, ws: seq<nat>, m: nat, c: Comp)
    requires |ws| == 2 * m && c.a < c.b < |s| && forall k :: 0 <= k < |ws| ==> ws[k] < |s|
    requires var before := Scatter(s, ws, Run(key, Gather(s, ws), Neighbours(m)));
             before[c.a] == s[c.a] && before[c.b] == s[c.b]
    ensures var before := Scatter(s, ws, Run(key, Gather(s, ws), Neighbours(m)));
            Scatter(s, ws + [c.a, c.b], Run(key, Gather(s, ws + [c.a, c.b]), Neighbours(m + 1))) ==
            Exchange(key, before, c)
  {
    var x, y := s[c.a], s[c.b];
    GatherSnoc(s, ws, c.a, c.b);
    BulkSnoc(key, Gather(s, ws), m, x, y);
    var x', y' := if key(y) < key(x) then y else x, if key(y) < key(x) then x else y;
    ScatterSnoc(s, ws, Run(key, Gather(s, ws), Neighbours(m)), c.a, c.b, x', y');
  }
}
