/** The working set of a hidden array: two parallel containers, scanned in full on every access. */
module WorkingSet {
  import opened Base
  import opened Words
  import opened FlatStore
  import opened Stream
  import opened HiddenState

  /** An index as it is stored. */
  function Index(b: Bytes): (r: nat)
    ensures r < WORD_LIMIT
  {
    if |b| == WORD then BytesWord(b) else 0
  }

  function Indices(bufs: seq<Bytes>): (r: seq<nat>)
    ensures |r| == |bufs| && forall k :: 0 <= k < |r| ==> r[k] == Index(bufs[k])
  {
    seq(|bufs|, k requires 0 <= k < |bufs| => Index(bufs[k]))
  }

  // ---------------------------------------------------------------- item procedures

  datatype Seen = Seen(haveTarget: bool, haveRand: bool)

  /** Looks for two indices. */
  function Finder(target: nat, rand: nat): ItemProc<Seen> {
    (s: Seen, i: nat, row: seq<Bytes>) =>
      var t := Index(Slice(row, 0));
      (Seen(s.haveTarget || t == target, s.haveRand || t == rand), [])
  }

  lemma {:induction false} FinderFinds(target: nat, rand: nat, rows: seq<seq<Bytes>>, idxs: seq<nat>)
    requires |idxs| == |rows| && forall k :: 0 <= k < |rows| ==> idxs[k] == Index(Slice(rows[k], 0))
    ensures StateAfter(Finder(target, rand), Seen(false, false), rows) == Seen(target in idxs, rand in idxs)
  {
    if rows != [] {
      var n := |rows| - 1;
      FinderFinds(target, rand, rows[..n], idxs[..n]);
      assert idxs == idxs[..n] + [idxs[n]];
    }
  }

  /** The item found so far, empty before that, and whether an assertion of the scan has failed. */
  datatype Scan = Scan(theItem: Bytes, failed: bool)

  /** Passes every item through, except that the target's is remembered and may be rewritten. */
  function Scanner(target: nat, newVal: Option<(nat, Bytes)>): ItemProc<Scan> {
    (s: Scan, i: nat, row: seq<Bytes>) =>
      var (idx, item) := (Slice(row, 0), Slice(row, 1));
      if Index(idx) == target then
        (Scan(item, s.failed || s.theItem != []), [idx, Rewritten(item, newVal)])
      else (s, [idx, item])
  }

  function Rewritten(item: Bytes, newVal: Option<(nat, Bytes)>): Bytes {
    match newVal
    case None => item
    case Some((off, val)) => if off + |val| <= |item| then Splice(item, off, val) else item
  }

  lemma {:induction false} ScannerSkips(target: nat, newVal: Option<(nat, Bytes)>, rows: seq<seq<Bytes>>)
    requires forall k :: 0 <= k < |rows| ==> Index(Slice(rows[k], 0)) != target
    ensures StateAfter(Scanner(target, newVal), Scan([], false), rows) == Scan([], false)
  {
    if rows != [] { ScannerSkips(target, newVal, rows[..|rows| - 1]); }
  }

  /** When the target occurs exactly once, the scan finds its item and no assertion fails. */
  lemma {:induction false} ScannerFinds(target: nat, newVal: Option<(nat, Bytes)>, rows: seq<seq<Bytes>>, k: nat)
    requires k < |rows| && Index(Slice(rows[k], 0)) == target
    requires forall j :: 0 <= j < |rows| && j != k ==> Index(Slice(rows[j], 0)) != target
    ensures StateAfter(Scanner(target, newVal), Scan([], false), rows) == Scan(Slice(rows[k], 1), false)
  {
    var n := |rows| - 1;
    if k < n {
      ScannerFinds(target, newVal, rows[..n], k);
    } else {
      ScannerSkips(target, newVal, rows[..n]);
    }
  }

  lemma ScannerOutput(target: nat, newVal: Option<(nat, Bytes)>, idxs: seq<Bytes>, items: seq<Bytes>, j: nat)
    requires j < |idxs| == |items|
    ensures Outputs(Scanner(target, newVal), Scan([], false), Pairs(idxs, items))[j]
         == [idxs[j], if Index(idxs[j]) == target then Rewritten(items[j], newVal) else items[j]]
  {
    OutputAt(Scanner(target, newVal), Scan([], false), Pairs(idxs, items), j);
    var row := Pairs(idxs, items)[j];
    assert Slice(row, 0) == idxs[j] && Slice(row, 1) == items[j];
  }

  /** A scan of a working set that holds the target at k, and only there. */
  lemma ScanOutcome(target: nat, newVal: Option<(nat, Bytes)>, idxs: seq<Bytes>, items: seq<Bytes>, k: nat)
    requires k < |idxs| == |items| && Index(idxs[k]) == target && Distinct(Indices(idxs))
    ensures var outs := Outputs(Scanner(target, newVal), Scan([], false), Pairs(idxs, items));
            && StateAfter(Scanner(target, newVal), Scan([], false), Pairs(idxs, items)) == Scan(items[k], false)
            && Column(outs, 0) == idxs && Column(outs, 1) == items[k := Rewritten(items[k], newVal)]
  {
    var all := Indices(idxs);
    assert all[k] == target;
    assert forall j :: 0 <= j < |idxs| && j != k ==> all[j] != target;
    ScannerFinds(target, newVal, Pairs(idxs, items), k);
    forall j | 0 <= j < |idxs| { ScannerOutput(target, newVal, idxs, items, j); }
  }

  // ---------------------------------------------------------------- the working set

  class ArrayT {
    const idxs: FlatIO
    const items: FlatIO

    constructor (maxRetrievals: nat, elemSize: nat)
      requires elemSize > 0
      ensures fresh(idxs) && fresh(items) && idxs != items
      ensures idxs.elemSize == WORD && items.elemSize == elemSize
      ensures |idxs.recs| == |items.recs| == maxRetrievals
    {
      idxs := new FlatIO(maxRetrievals, WORD);
      items := new FlatIO(maxRetrievals, elemSize);
    }

    /** The first n slots are in use, by distinct indices. */
    ghost predicate Holds(n: nat)
      reads idxs, items
    {
      && idxs != items && idxs.elemSize > 0 && n <= |idxs.recs| && n <= |items.recs|
      && Distinct(Touched(n))
    }

    ghost function Touched(n: nat): (r: seq<nat>)
      reads idxs
      requires n <= |idxs.recs|
      ensures |r| == n
    {
      Indices(idxs.recs[..n])
    }

    ghost function Items(n: nat): (r: seq<Bytes>)
      reads items
      requires n <= |items.recs|
      ensures |r| == n
    {
      items.recs[..n]
    }

    /** Which index to fetch next: the target if it is missing, otherwise the random proposal, unless
        that is present too. */
    method FindFetchIdx(n: nat, randIdx: nat, targetIdx: nat) returns (r: Option<nat>)
      requires Holds(n)
      ensures r == if targetIdx !in Touched(n) then Some(targetIdx)
                   else if randIdx !in Touched(n) then Some(randIdx) else None
    {
      ghost var rows := Stream.Items(idxs, n);
      var seen := ProcessOne(Finder(targetIdx, randIdx), Seen(false, false), n, idxs, null);
      FinderFinds(targetIdx, randIdx, rows, Touched(n));
      if !seen.haveTarget {
        r := Some(targetIdx);
      } else if !seen.haveRand {
        r := Some(randIdx);
      } else {
        r := None;
      }
    }

    /** Reads every item, rewriting the target's if there is a new value, and returns what the
        target's was. The items are written back only if there is a new value. */
    method DoDummyAccesses(n: nat, target: nat, newVal: Option<(nat, Bytes)>, ghost k: nat) returns (item: Bytes)
      requires Holds(n) && k < n && Touched(n)[k] == target && items.recs[k] != []
      modifies idxs, items
      ensures Holds(n) && Touched(n) == old(Touched(n))
      ensures item == old(items.recs[k])
      ensures Items(n) == old(Items(n))[k := Rewritten(old(items.recs[k]), newVal)]
    {
      ScanOutcome(target, newVal, idxs.recs[..n], items.recs[..n], k);
      ghost var oldIdxs := idxs.recs[..n];
      var out1 := if newVal.Some? then items else null;
      var scan := ProcessPair(Scanner(target, newVal), Scan([], false), n, idxs, items, idxs, out1);
      assert !scan.failed && scan.theItem != [];
      item := scan.theItem;
      assert idxs.recs[..n] == oldIdxs;
    }

    method AppendItem(n: nat, idx: nat, item: Bytes)
      requires Holds(n) && idx < WORD_LIMIT && idx !in Touched(n)
      modifies idxs, items
      ensures Holds(n + 1) && Touched(n + 1) == old(Touched(n)) + [idx] && Items(n + 1) == old(Items(n)) + [item]
    {
      WordRoundTrip(idx);
      ghost var touched := Touched(n);
      idxs.Write(n, WordBytes(idx));
      items.Write(n, item);
      assert Touched(n + 1) == touched + [idx];
    }
  }
}
