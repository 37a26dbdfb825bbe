/** Stream processing: containers are read, run through an item procedure and written in chunks. */
module Stream {
  import opened Base
  import opened FlatStore

  /** A procedure that may keep a state: it takes the state, the item's index and one object from each
      input stream, and gives the next state and one object for each output stream. */
  type ItemProc<!S> = (S, nat, seq<Bytes>) -> (S, seq<Bytes>)

  const CACHE_SIZE := 0x400

  // ---------------------------------------------------------------- one item at a time

  /** The state after the items of rows, numbered from zero, have been processed one at a time. */
  ghost function StateAfter<S>(proc: ItemProc<S>, s: S, rows: seq<seq<Bytes>>): S {
    if rows == [] then s
    else proc(StateAfter(proc, s, rows[..|rows| - 1]), |rows| - 1, rows[|rows| - 1]).0
  }

  /** What processing them one at a time puts out. */
  ghost function Outputs<S>(proc: ItemProc<S>, s: S, rows: seq<seq<Bytes>>): (r: seq<seq<Bytes>>)
    ensures |r| == |rows|
  {
    if rows == [] then [] else
      var front := rows[..|rows| - 1];
      Outputs(proc, s, front) + [proc(StateAfter(proc, s, front), |rows| - 1, rows[|rows| - 1]).1]
  }

  /** The object for stream k; an item procedure that sets nothing leaves it empty. */
  function Slice(row: seq<Bytes>, k: nat): Bytes {
    if k < |row| then row[k] else []
  }

  function Column(rows: seq<seq<Bytes>>, k: nat): (r: seq<Bytes>)
    ensures |r| == |rows| && forall i :: 0 <= i < |r| ==> r[i] == Slice(rows[i], k)
  {
    seq(|rows|, i requires 0 <= i < |rows| => Slice(rows[i], k))
  }

  lemma {:induction false} OutputAt<S>(proc: ItemProc<S>, s: S, rows: seq<seq<Bytes>>, i: nat)
    requires i < |rows|
    ensures Outputs(proc, s, rows)[i] == proc(StateAfter(proc, s, rows[..i]), i, rows[i]).1
  {
    var front := rows[..|rows| - 1];
    if i < |front| {
      OutputAt(proc, s, front, i);
      assert front[..i] == rows[..i];
    }
  }

  // ---------------------------------------------------------------- streams

  ghost function Live(ios: seq<FlatIO?>): (r: set<FlatIO>)
    ensures forall k :: 0 <= k < |ios| && ios[k] != null ==> ios[k] in r
    ensures forall io :: io in r ==> io in ios
  {
    set io: FlatIO | io in ios
  }

  /** One object from each stream, empty for the streams that are absent. */
  ghost function Row(ios: seq<FlatIO?>, i: nat): (r: seq<Bytes>)
    reads Live(ios)
    requires forall io :: io in Live(ios) ==> i < |io.recs|
    ensures |r| == |ios|
    ensures forall k :: 0 <= k < |ios| ==> r[k] == if ios[k] == null then [] else ios[k].recs[i]
  {
    if ios == [] then []
    else
      var last := ios[|ios| - 1];
      assert forall io :: io in Live(ios[..|ios| - 1]) ==> io in Live(ios);
      Row(ios[..|ios| - 1], i) + [if last == null then [] else last.recs[i]]
  }

  ghost function Rows(ios: seq<FlatIO?>, n: nat): (r: seq<seq<Bytes>>)
    reads Live(ios)
    requires forall io :: io in Live(ios) ==> n <= |io.recs|
    ensures |r| == n && forall i :: 0 <= i < n ==> r[i] == Row(ios, i)
  {
    if n == 0 then [] else Rows(ios, n - 1) + [Row(ios, n - 1)]
  }

  /** No two output streams go to the same container. */
  ghost predicate Separate(ios: seq<FlatIO?>) {
    forall i, j :: 0 <= i < j < |ios| && ios[i] != null ==> ios[i] != ios[j]
  }

  function ElemSizes(ios: seq<FlatIO?>): nat {
    if ios == [] then 0
    else
      var last := ios[|ios| - 1];
      ElemSizes(ios[..|ios| - 1]) + if last == null then 0 else last.elemSize
  }

  /** How many items are cached for one I/O operation. */
  function ChunkSize(ins: seq<FlatIO?>, outs: seq<FlatIO?>): (r: nat)
    requires Max(ElemSizes(ins), ElemSizes(outs)) > 0
    ensures r >= 1
  {
    var c := CACHE_SIZE / Max(ElemSizes(ins), ElemSizes(outs));
    if c == 0 then 1 else c
  }

  function Range(lo: nat, count: nat): (r: seq<nat>)
    ensures |r| == count && forall j :: 0 <= j < count ==> r[j] == lo + j
  {
    seq(count, j requires 0 <= j < count => lo + j)
  }

  lemma {:induction false} ScatterRange<T>(s: seq<T>, lo: nat, objs: seq<T>)
    requires lo + |objs| <= |s|
    ensures Scatter(s, Range(lo, |objs|), objs) == s[..lo] + objs + s[lo + |objs|..]
  {
    if objs != [] {
      var m := |objs| - 1;
      ScatterRange(s, lo, objs[..m]);
      assert Range(lo, m + 1)[..m] == Range(lo, m);
    }
  }

  /** Reads items lo .. lo + count of every stream. */
  method DoRead(ins: seq<FlatIO?>, lo: nat, count: nat) returns (rows: seq<seq<Bytes>>)
    requires forall io :: io in Live(ins) ==> lo + count <= |io.recs|
    ensures |rows| == count && forall j :: 0 <= j < count ==> rows[j] == Row(ins, lo + j)
  {
    rows := seq(count, _ => []);
    for k := 0 to |ins|
      invariant |rows| == count && forall j :: 0 <= j < count ==> |rows[j]| == k
      invariant forall j, l :: 0 <= j < count && 0 <= l < k ==>
                  rows[j][l] == if ins[l] == null then [] else ins[l].recs[lo + j]
    {
      var io := ins[k];
      var objs := seq(count, _ => []);
      if io != null {
        objs := io.ReadList(Range(lo, count));
      }
      rows := seq(count, j requires 0 <= j < |rows| && 0 <= j < |objs| => rows[j] + [objs[j]]);
    }
    forall j | 0 <= j < count ensures rows[j] == Row(ins, lo + j) { }
  }

  /** Writes items lo .. lo + |rows| of every stream. */
  method DoWrite(outs: seq<FlatIO?>, lo: nat, rows: seq<seq<Bytes>>)
    requires Separate(outs) && forall io :: io in Live(outs) ==> lo + |rows| <= |io.recs|
    modifies Live(outs)
    ensures forall k :: 0 <= k < |outs| && outs[k] != null ==>
              outs[k].recs == old(outs[k].recs[..lo]) + Column(rows, k) + old(outs[k].recs[lo + |rows|..])
  {
    for k := 0 to |outs|
      invariant forall l :: k <= l < |outs| && outs[l] != null ==> outs[l].recs == old(outs[l].recs)
      invariant forall l :: 0 <= l < k && outs[l] != null ==>
                  outs[l].recs == old(outs[l].recs[..lo]) + Column(rows, l) + old(outs[l].recs[lo + |rows|..])
    {
      var io := outs[k];
      if io != null {
        var objs := Column(rows, k);
        ScatterRange(io.recs, lo, objs);
        io.WriteList(Range(lo, |rows|), objs);
      }
    }
  }

  /** Runs one chunk of objects through the item procedure; the rows in before have been processed. */
  method Filter<S>(proc: ItemProc<S>, ghost s0: S, last: S, i: nat, cached: seq<seq<Bytes>>,
                   ghost before: seq<seq<Bytes>>)
      returns (s: S, filtered: seq<seq<Bytes>>)
    requires i == |before| && last == StateAfter(proc, s0, before)
    ensures s == StateAfter(proc, s0, before + cached) && |filtered| == |cached|
    ensures Outputs(proc, s0, before + cached) == Outputs(proc, s0, before) + filtered
  {
    s, filtered := last, [];
    ghost var rows := before;
    for j := 0 to |cached|
      invariant rows == before + cached[..j] && s == StateAfter(proc, s0, rows)
      invariant |filtered| == j && Outputs(proc, s0, rows) == Outputs(proc, s0, before) + filtered
    {
      var (next, out) := proc(s, i + j, cached[j]);
      rows := rows + [cached[j]];
      assert rows[..|rows| - 1] == before + cached[..j];
      s := next;
      filtered := filtered + [out];
    }
    assert rows == before + cached;
  }

  /** What every container held at first. */
  ghost function Contents(ios: set<FlatIO>): (r: map<FlatIO, seq<Bytes>>)
    reads ios
  {
    map io | io in ios :: io.recs
  }

  /** Items below i have been processed; from i on every container is as it was at first. */
  ghost predicate Processed(first: map<FlatIO, seq<Bytes>>, ins: seq<FlatIO?>, outs: seq<FlatIO?>, done: seq<seq<Bytes>>)
    reads Live(ins), Live(outs)
  {
    && (forall io :: io in Live(ins) + Live(outs) ==>
          io in first && |done| <= |io.recs| == |first[io]| && io.recs[|done|..] == first[io][|done|..])
    && (forall k :: 0 <= k < |outs| && outs[k] != null ==>
          outs[k].recs == Column(done, k) + first[outs[k]][|done|..])
  }

  lemma UnreadRow(first: map<FlatIO, seq<Bytes>>, ins: seq<FlatIO?>, outs: seq<FlatIO?>, done: seq<seq<Bytes>>,
                  j: nat, row: seq<Bytes>)
    requires Processed(first, ins, outs, done) && |done| <= j
    requires forall io :: io in Live(ins) ==> j < |io.recs|
    requires |row| == |ins| && forall k :: 0 <= k < |ins| ==> row[k] == if ins[k] == null then [] else first[ins[k]][j]
    ensures Row(ins, j) == row
  {
    forall k | 0 <= k < |ins|
      ensures Row(ins, j)[k] == row[k]
    {
      var io := ins[k];
      if io != null {
        assert io in Live(ins);
        assert io.recs[j] == io.recs[|done|..][j - |done|] == first[io][|done|..][j - |done|] == first[io][j];
      }
    }
  }

  method ReadChunk(ins: seq<FlatIO?>, lo: nat, hi: nat, ghost first: map<FlatIO, seq<Bytes>>,
                   ghost outs: seq<FlatIO?>, ghost done: seq<seq<Bytes>>, ghost all: seq<seq<Bytes>>)
      returns (cached: seq<seq<Bytes>>)
    requires lo == |done| && lo <= hi <= |all| && Processed(first, ins, outs, done)
    requires forall io :: io in Live(ins) ==> hi <= |io.recs|
    requires FirstRows(first, ins, all)
    ensures cached == all[lo..hi]
  {
    cached := DoRead(ins, lo, hi - lo);
    forall j | 0 <= j < hi - lo
      ensures cached[j] == all[lo + j]
    {
      UnreadRow(first, ins, outs, done, lo + j, all[lo + j]);
    }
  }

  method WriteChunk(outs: seq<FlatIO?>, lo: nat, filtered: seq<seq<Bytes>>,
                    ghost first: map<FlatIO, seq<Bytes>>, ghost ins: seq<FlatIO?>, ghost done: seq<seq<Bytes>>)
    requires lo == |done| && Separate(outs) && Processed(first, ins, outs, done)
    requires forall io :: io in Live(ins) + Live(outs) ==> |done| + |filtered| <= |io.recs|
    modifies Live(outs)
    ensures Processed(first, ins, outs, done + filtered)
  {
    DoWrite(outs, lo, filtered);
    ghost var next := done + filtered;
    forall k | 0 <= k < |outs| && outs[k] != null
      ensures outs[k].recs == Column(next, k) + first[outs[k]][|next|..]
    {
      assert Column(next, k) == Column(done, k) + Column(filtered, k);
    }
    forall io | io in Live(ins) + Live(outs)
      ensures |io.recs| == |first[io]| && io.recs[|next|..] == first[io][|next|..]
    {
      if io in Live(outs) {
        var k :| 0 <= k < |outs| && outs[k] == io;
      } else {
        assert io.recs[|done|..][|filtered|..] == first[io][|done|..][|filtered|..];
      }
    }
  }

  ghost predicate FirstRows(first: map<FlatIO, seq<Bytes>>, ins: seq<FlatIO?>, all: seq<seq<Bytes>>) {
    && (forall io :: io in Live(ins) ==> io in first && |all| <= |first[io]|)
    && (forall j :: 0 <= j < |all| ==> |all[j]| == |ins|)
    && (forall j, k :: 0 <= j < |all| && 0 <= k < |ins| ==>
          all[j][k] == if ins[k] == null then [] else first[ins[k]][j])
  }

  /** One chunk: items lo .. hi are read, run through the item procedure and written. */
  method ProcessChunk<S>(proc: ItemProc<S>, ghost s0: S, last: S, lo: nat, hi: nat, ins: seq<FlatIO?>, outs: seq<FlatIO?>,
                         ghost first: map<FlatIO, seq<Bytes>>, ghost all: seq<seq<Bytes>>)
      returns (s: S)
    requires lo <= hi <= |all| && Separate(outs) && FirstRows(first, ins, all)
    requires forall io :: io in Live(ins) + Live(outs) ==> hi <= |io.recs|
    requires last == StateAfter(proc, s0, all[..lo]) && Processed(first, ins, outs, Outputs(proc, s0, all[..lo]))
    modifies Live(outs)
    ensures s == StateAfter(proc, s0, all[..hi]) && Processed(first, ins, outs, Outputs(proc, s0, all[..hi]))
    ensures forall io :: io in Live(ins) + Live(outs) ==> |io.recs| == old(|io.recs|)
  {
    ghost var part := all[..lo];
    ghost var done := Outputs(proc, s0, part);
    var cached := ReadChunk(ins, lo, hi, first, outs, done, all);
    var filtered;
    s, filtered := Filter(proc, s0, last, lo, cached, part);
    WriteChunk(outs, lo, filtered, first, ins, done);
    assert all[..hi] == part + cached;
  }

  /** Processes items 0 .. n of the input streams in chunks. Whatever the chunk size, and whether or
      not outputs go to the containers the inputs come from, the outcome is that of processing the
      items one at a time. */
  method Process<S>(proc: ItemProc<S>, s0: S, n: nat, ins: seq<FlatIO?>, outs: seq<FlatIO?>) returns (s: S)
    requires forall io :: io in Live(ins) + Live(outs) ==> n <= |io.recs|
    requires Separate(outs) && Max(ElemSizes(ins), ElemSizes(outs)) > 0
    modifies Live(outs)
    ensures s == StateAfter(proc, s0, old(Rows(ins, n)))
    ensures forall k :: 0 <= k < |outs| && outs[k] != null ==>
              outs[k].recs == Column(Outputs(proc, s0, old(Rows(ins, n))), k) + old(outs[k].recs[n..])
  {
    ghost var all, first := Rows(ins, n), Contents(Live(ins) + Live(outs));
    s := ProcessRows(proc, s0, n, ins, outs, first, all);
    assert all[..n] == all;
  }

  method ProcessRows<S>(proc: ItemProc<S>, s0: S, n: nat, ins: seq<FlatIO?>, outs: seq<FlatIO?>,
                        ghost first: map<FlatIO, seq<Bytes>>, ghost all: seq<seq<Bytes>>)
      returns (s: S)
    requires |all| == n && Separate(outs) && FirstRows(first, ins, all) && Max(ElemSizes(ins), ElemSizes(outs)) > 0
    requires forall io :: io in Live(ins) + Live(outs) ==> n <= |io.recs|
    requires Processed(first, ins, outs, [])
    modifies Live(outs)
    ensures s == StateAfter(proc, s0, all[..n]) && Processed(first, ins, outs, Outputs(proc, s0, all[..n]))
  {
    var chunk := ChunkSize(ins, outs);
    var i := 0;
    s := s0;
    assert all[..0] == [];
    while i < n
      invariant i <= n && s == StateAfter(proc, s0, all[..i])
      invariant Processed(first, ins, outs, Outputs(proc, s0, all[..i]))
      invariant forall io :: io in Live(ins) + Live(outs) ==> n <= |io.recs|
      decreases n - i
    {
      var thisC := Min(n - i, chunk);
      var next := i + thisC;
      s := ProcessChunk(proc, s0, s, i, next, ins, outs, first, all);
      i := next;
    }
  }

  /** The first n objects of a stream, each as the one object of an item. */
  ghost function Items(io: FlatIO?, n: nat): (r: seq<seq<Bytes>>)
    reads if io == null then {} else {io}
    requires io != null ==> n <= |io.recs|
    ensures |r| == n && forall i :: 0 <= i < n ==> r[i] == [if io == null then [] else io.recs[i]]
  {
    var rows := Rows([io], n);
    assert forall i :: 0 <= i < n ==> rows[i] == Row([io], i);
    rows
  }

  /** The front end for one input and one output stream. */
  method ProcessOne<S>(proc: ItemProc<S>, s0: S, n: nat, input: FlatIO?, output: FlatIO?) returns (s: S)
    requires input != null ==> n <= |input.recs|
    requires output != null ==> n <= |output.recs|
    requires Max(ElemSizes([input]), ElemSizes([output])) > 0
    modifies if output == null then {} else {output}
    ensures s == StateAfter(proc, s0, old(Items(input, n)))
    ensures output != null ==>
              output.recs == Column(Outputs(proc, s0, old(Items(input, n))), 0) + old(output.recs[n..])
  {
    s := Process(proc, s0, n, [input], [output]);
    assert output == [output][0];
  }

  /** An item procedure without a state, on one input and one output stream, maps every object. */
  lemma {:induction false} StatelessOutput(proc: ItemProc<()>, rows: seq<seq<Bytes>>, i: nat)
    requires i < |rows|
    ensures Column(Outputs(proc, (), rows), 0)[i] == Slice(proc((), i, rows[i]).1, 0)
  {
    OutputAt(proc, (), rows, i);
    var state := StateAfter(proc, (), rows[..i]);
    assert state == ();
    var outs := Outputs(proc, (), rows);
    assert Column(outs, 0)[i] == Slice(outs[i], 0);
  }

  /** The objects of two streams, item by item. */
  ghost function Pairs(xs: seq<Bytes>, ys: seq<Bytes>): (r: seq<seq<Bytes>>)
    requires |xs| == |ys|
    ensures |r| == |xs| && forall i :: 0 <= i < |r| ==> r[i] == [xs[i], ys[i]]
  {
    seq(|xs|, i requires 0 <= i < |xs| => [xs[i], ys[i]])
  }

  lemma RowsArePairs(x: FlatIO, y: FlatIO, n: nat)
    requires n <= |x.recs| && n <= |y.recs|
    ensures Rows([x, y], n) == Pairs(x.recs[..n], y.recs[..n])
  {
    var ios := [x, y];
    var rows := Rows(ios, n);
    forall i | 0 <= i < n
      ensures rows[i] == [x.recs[i], y.recs[i]]
    {
      assert rows[i] == Row(ios, i) && ios[0] == x && ios[1] == y;
    }
  }

  /** The front end for two input streams and two output streams, the second of which may be absent. */
  method ProcessPair<S>(proc: ItemProc<S>, s0: S, n: nat, in0: FlatIO, in1: FlatIO, out0: FlatIO, out1: FlatIO?)
      returns (s: S)
    requires n <= |in0.recs| && n <= |in1.recs| && n <= |out0.recs| && (out1 != null ==> n <= |out1.recs|)
    requires out0 != out1 && in0.elemSize > 0
    modifies Live([out0, out1])
    ensures s == StateAfter(proc, s0, old(Pairs(in0.recs[..n], in1.recs[..n])))
    ensures var outs := Outputs(proc, s0, old(Pairs(in0.recs[..n], in1.recs[..n])));
            && out0.recs == Column(outs, 0) + old(out0.recs[n..])
            && (out1 != null ==> out1.recs == Column(outs, 1) + old(out1.recs[n..]))
  {
    RowsArePairs(in0, in1, n);
    PairSizes(in0, in1);
    AtPair(out0, out1);
    s := Process(proc, s0, n, [in0, in1], [out0, out1]);
  }

  lemma AtPair(x: FlatIO, y: FlatIO?)
    ensures [x, y][0] == x && [x, y][1] == y
  {
  }

  lemma PairSizes(x: FlatIO, y: FlatIO)
    ensures ElemSizes([x, y]) == x.elemSize + y.elemSize
  {
    var one: seq<FlatIO?>, two: seq<FlatIO?> := [x], [x, y];
    assert two[..1] == one && one[..0] == [];
    assert ElemSizes(one) == x.elemSize;
    assert ElemSizes(two) == ElemSizes(two[..1]) + y.elemSize;
  }
}
