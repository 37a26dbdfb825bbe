/** What a circuit computes over plain arrays: the meaning that evaluation over hidden arrays must have. */
module Circuit {
  import opened Base
  import opened Words
  import opened NilArithmetic
  import opened HiddenState
  import opened ObliviousArray

  datatype Kind = ArrayKind | ScalarKind

  datatype Op =
    | Binary(binop: BinOp)
    | Unary(unop: UnOp)
    | Input
    | Lit(v: int32)
    | Select
    | Slicer(off: nat, len: nat)
    | ReadDynArray
    | WriteDynArray(off: nat, total: int)
    | InitDynArray(elemSize: nat, len: nat)
    | Print

  datatype Gate = Gate(num: nat, kind: Kind, op: Op, inputs: seq<nat>, output: bool, comment: string)

  /** Why an evaluation stops. */
  datatype Fault = NoSuchGate | BadInputs | BadBuffer | NullArray | NoSuchArray | BadArray | BadWrite | PrintGate

  datatype PlainArray = PlainArray(elemSize: nat, elems: seq<Bytes>) {
    ghost predicate Ok(cacheMem: nat) {
      Supported(|elems|, elemSize, cacheMem) && forall i :: 0 <= i < |elems| ==> |elems[i]| == elemSize
    }
  }

  datatype Output = ScalarOutput(name: string, v: OptInt) | ArrayOutput(name: string, vs: seq<OptInt>)

  /** What the evaluator finds in its surroundings: results C++ leaves undefined, what new buffers hold
      before they are filled, the input arrays by name, and the memory for caching records. */
  datatype Platform = Platform(undef: Undefined, junk: (nat, nat) -> Byte, host: map<string, PlainArray>, cacheMem: nat) {
    ghost predicate Ok() {
      forall name :: name in host ==> host[name].Ok(cacheMem)
    }

    /** The bytes of the k-th buffer that is used before it is filled. */
    function Buffer(k: nat, len: nat): (r: Bytes)
      ensures |r| == len
    {
      seq(len, i requires 0 <= i => junk(k, i))
    }
  }

  /** The value table, the arrays by descriptor, the next descriptor, the number of unfilled buffers
      used so far, and what has been printed. */
  datatype Machine = Machine(vals: seq<Bytes>, arrays: map<int, PlainArray>, next: int, allocs: nat, outputs: seq<Output>)

  const MAX_DESCRIPTOR := 0x7fff_ffff

  // ---------------------------------------------------------------- values

  function GateVal(m: Machine, k: nat): Result<Bytes, Fault> {
    if k < |m.vals| then Success(m.vals[k]) else Failure(NoSuchGate)
  }

  function AsOpt(b: Bytes): Result<OptInt, Fault> {
    if |b| == WORD + 1 then Success(BytesOpt(b)) else Failure(BadBuffer)
  }

  function IntVal(m: Machine, k: nat): Result<OptInt, Fault> {
    var b :- GateVal(m, k);
    AsOpt(b)
  }

  /** The values of several gates, one after the other. */
  function Concat(m: Machine, ks: seq<nat>): Result<Bytes, Fault> {
    if ks == [] then Success([]) else
      var front :- Concat(m, ks[..|ks| - 1]);
      var last :- GateVal(m, ks[|ks| - 1]);
      Success(front + last)
  }

  /** An optional integer as the bytes of a new buffer. */
  function Encode(plat: Platform, m: Machine, x: OptInt): (Bytes, Machine) {
    (OptBytes(x, plat.Buffer(m.allocs, WORD)), m.(allocs := m.allocs + 1))
  }

  /** An integer taken as an index; negative ones are too large for any array. */
  function AsIndex(x: OptInt): Option<nat> {
    match x
    case None => None
    case Some(v) => Some(IntWord(v))
  }

  // ---------------------------------------------------------------- plain arrays

  predicate Hits(arr: PlainArray, enable: bool, idx: Option<nat>) {
    enable && idx.Some? && idx.value < |arr.elems|
  }

  /** Reading gives the element, or Nil in a new buffer when the read is disabled or misses. */
  function ReadElem(arr: PlainArray, enable: bool, idx: Option<nat>, blank: Bytes): (r: Bytes)
    requires 1 <= |blank|
  {
    if Hits(arr, enable, idx) then arr.elems[idx.value] else Nilled(blank)
  }

  /** Writing replaces part of the element, or nothing when the write is disabled or misses. */
  function WriteElem(arr: PlainArray, enable: bool, idx: Option<nat>, off: nat, val: Bytes): PlainArray
    requires Hits(arr, enable, idx) ==> off + |val| <= |arr.elems[idx.value]|
  {
    if Hits(arr, enable, idx)
    then arr.(elems := arr.elems[idx.value := Splice(arr.elems[idx.value], off, val)])
    else arr
  }

  /** The descriptor held in an array pointer. */
  function ArrayRef(m: Machine, ptr: Bytes): Result<int32, Fault> {
    var desc :- AsOpt(ptr);
    if desc.None? then Failure(NullArray)
    else if desc.value !in m.arrays then Failure(NoSuchArray) else Success(desc.value)
  }

  function NewArray(plat: Platform, m: Machine, arr: PlainArray): Result<(Bytes, Machine), Fault> {
    if !Supported(|arr.elems|, arr.elemSize, plat.cacheMem) || !(0 <= m.next < MAX_DESCRIPTOR) then Failure(BadArray)
    else Success(Encode(plat, m.(arrays := m.arrays[m.next := arr], next := m.next + 1), Some(m.next)))
  }

  // ---------------------------------------------------------------- gates

  function BinaryGate(plat: Platform, m: Machine, g: Gate): Result<(Bytes, Machine), Fault>
    requires g.op.Binary?
  {
    if |g.inputs| != 2 then Failure(BadInputs) else
      var x :- IntVal(m, g.inputs[0]);
      var y :- IntVal(m, g.inputs[1]);
      Success(Encode(plat, m, DoBinOp(g.op.binop, x, y, plat.undef)))
  }

  function UnaryGate(plat: Platform, m: Machine, g: Gate): Result<(Bytes, Machine), Fault>
    requires g.op.Unary?
  {
    if |g.inputs| != 1 then Failure(BadInputs) else
      var x :- IntVal(m, g.inputs[0]);
      Success(Encode(plat, m, DoUnOp(g.op.unop, x, plat.undef)))
  }

  /** Scalar inputs are in the value table from the start; input arrays are found by name. */
  function InputGate(plat: Platform, m: Machine, g: Gate): Result<(Bytes, Machine), Fault> {
    if g.kind.ArrayKind? then
      if g.comment in plat.host then NewArray(plat, m, plat.host[g.comment]) else Failure(BadArray)
    else
      var b :- GateVal(m, g.num);
      var _ :- AsOpt(b);
      Success((b, m))
  }

  /** A Nil selector counts as false. */
  function SelectGate(m: Machine, g: Gate): Result<(Bytes, Machine), Fault> {
    if |g.inputs| != 3 || g.kind.ArrayKind? then Failure(BadInputs) else
      var sel :- IntVal(m, g.inputs[0]);
      var x :- GateVal(m, g.inputs[1]);
      var y :- GateVal(m, g.inputs[2]);
      Success((if Truthy(sel) then x else y, m))
  }

  function SlicerGate(m: Machine, g: Gate): Result<(Bytes, Machine), Fault>
    requires g.op.Slicer?
  {
    if |g.inputs| == 0 then Failure(BadInputs) else
      var val :- GateVal(m, g.inputs[0]);
      if |val| == 0 then Failure(BadBuffer)
      else if val[0] == 0 || |val| < g.op.off + g.op.len then
        if g.op.len == 0 then Failure(BadBuffer) else Success((seq(g.op.len, _ => 0), m))
      else Success((val[g.op.off..g.op.off + g.op.len], m))
  }

  /** The array pointer, followed by the element or Nil. */
  function ReadArray(plat: Platform, m: Machine, enable: bool, ptr: Bytes, idx: Option<nat>)
    : Result<(Bytes, Machine), Fault>
  {
    var desc :- ArrayRef(m, ptr);
    var arr := m.arrays[desc];
    if arr.elemSize == 0 then Failure(BadArray) else
      var val := ReadElem(arr, enable, idx, plat.Buffer(m.allocs, arr.elemSize));
      var (out, m') := Encode(plat, if Hits(arr, enable, idx) then m else m.(allocs := m.allocs + 1), Some(desc));
      Success((out + val, m'))
  }

  function ReadGate(plat: Platform, m: Machine, g: Gate): Result<(Bytes, Machine), Fault> {
    if |g.inputs| < 3 then Failure(BadInputs) else
      var en :- IntVal(m, g.inputs[0]);
      var ptr :- GateVal(m, g.inputs[1]);
      var idx :- IntVal(m, g.inputs[2]);
      ReadArray(plat, m, Truthy(en), ptr, AsIndex(idx))
  }

  /** Writes bytes into the element at an offset; gives the array pointer. A total that is not negative
      is how many bytes there must be. */
  function WriteArray(plat: Platform, m: Machine, enable: bool, ptr: Bytes, off: nat, total: int,
                      idx: Option<nat>, val: Bytes)
    : Result<(Bytes, Machine), Fault>
  {
    var desc :- ArrayRef(m, ptr);
    var arr := m.arrays[desc];
    if total >= 0 && total != |val| then Failure(BadWrite)
    else if Hits(arr, enable, idx) && off + |val| > |arr.elems[idx.value]| then Failure(BadWrite)
    else
      Success(Encode(plat, m.(arrays := m.arrays[desc := WriteElem(arr, enable, idx, off, val)]), Some(desc)))
  }

  /** The further inputs are concatenated. */
  function WriteGate(plat: Platform, m: Machine, g: Gate): Result<(Bytes, Machine), Fault>
    requires g.op.WriteDynArray?
  {
    if |g.inputs| < 3 then Failure(BadInputs) else
      var en :- IntVal(m, g.inputs[0]);
      var ptr :- GateVal(m, g.inputs[1]);
      var idx :- IntVal(m, g.inputs[2]);
      var val :- Concat(m, g.inputs[3..]);
      WriteArray(plat, m, Truthy(en), ptr, g.op.off, g.op.total, AsIndex(idx), val)
  }

  function InitGate(plat: Platform, m: Machine, g: Gate): Result<(Bytes, Machine), Fault>
    requires g.op.InitDynArray?
  {
    NewArray(plat, m, PlainArray(g.op.elemSize, ZeroElems(g.op.len, g.op.elemSize)))
  }

  /** The bytes a gate produces, and the machine with everything changed except the value table. */
  function GateResult(plat: Platform, m: Machine, g: Gate): Result<(Bytes, Machine), Fault> {
    match g.op
    case Binary(_) => BinaryGate(plat, m, g)
    case Unary(_) => UnaryGate(plat, m, g)
    case Input => InputGate(plat, m, g)
    case Lit(v) => Success(Encode(plat, m, Some(v)))
    case Select => SelectGate(m, g)
    case Slicer(_, _) => SlicerGate(m, g)
    case ReadDynArray => ReadGate(plat, m, g)
    case WriteDynArray(_, _) => WriteGate(plat, m, g)
    case InitDynArray(_, _) => InitGate(plat, m, g)
    case Print => Failure(PrintGate)
  }

  function Store(m: Machine, k: nat, val: Bytes): Result<Machine, Fault> {
    if val == [] then Success(m)
    else if k < |m.vals| then Success(m.(vals := m.vals[k := val]))
    else Failure(NoSuchGate)
  }

  function Decoded(elems: seq<Bytes>): Result<seq<OptInt>, Fault> {
    if elems == [] then Success([]) else
      var front :- Decoded(elems[..|elems| - 1]);
      var last :- AsOpt(elems[|elems| - 1]);
      Success(front + [last])
  }

  /** What an output gate prints; a null array pointer prints nothing. */
  function Emit(m: Machine, g: Gate, val: Bytes): Result<Machine, Fault> {
    if !g.output then Success(m) else
      var v :- AsOpt(val);
      if g.kind.ScalarKind? then Success(m.(outputs := m.outputs + [ScalarOutput(g.comment, v)]))
      else if v.None? then Success(m)
      else if v.value !in m.arrays then Failure(NoSuchArray)
      else
        var vs :- Decoded(m.arrays[v.value].elems);
        Success(m.(outputs := m.outputs + [ArrayOutput(g.comment, vs)]))
  }

  function Step(plat: Platform, m: Machine, g: Gate): Result<Machine, Fault> {
    var (val, m1) :- GateResult(plat, m, g);
    var m2 :- Store(m1, g.num, val);
    Emit(m2, g, val)
  }

  /** The gates in order, up to the first fault. */
  function Eval(plat: Platform, m: Machine, gates: seq<Gate>): Result<Machine, Fault> {
    if gates == [] then Success(m) else
      var m' :- Eval(plat, m, gates[..|gates| - 1]);
      Step(plat, m', gates[|gates| - 1])
  }

  lemma EvalNext(plat: Platform, m: Machine, gates: seq<Gate>, k: nat, next: nat, before: Machine)
    requires next == k + 1 <= |gates| && Eval(plat, m, gates[..k]) == Success(before)
    ensures Eval(plat, m, gates[..next]) == Step(plat, before, gates[k])
  {
    assert gates[..next][..k] == gates[..k];
  }
}
