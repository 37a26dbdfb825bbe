/** Laws of the gates that make arrays: a pointer to an array of its own, with the right elements. */
module NewArrayLaws {
  import opened Base
  import opened Words
  import opened NilArithmetic
  import opened ObliviousArray
  import opened Circuit
  import opened GateLaws
  import opened ArrayLaws

  /** All descriptors in use have been handed out, and every array has a supported size. */
  ghost predicate Sound(plat: Platform, m: Machine) {
    forall d :: d in m.arrays ==> d < m.next && m.arrays[d].Ok(plat.cacheMem)
  }

  /** What a gate that makes an array is to put into it: elements of zeros, or those the host has under
      the gate's name. */
  ghost predicate Makes(plat: Platform, g: Gate, arr: PlainArray) {
    || (g.op.Input? && g.kind.ArrayKind? && g.comment in plat.host && arr == plat.host[g.comment])
    || (g.op.InitDynArray? && AllZero(arr, g.op.elemSize, g.op.len))
  }

  ghost predicate AllZero(arr: PlainArray, elemSize: nat, len: nat) {
    && arr.elemSize == elemSize && |arr.elems| == len
    && (forall i :: 0 <= i < len ==> |arr.elems[i]| == elemSize)
    && (forall i, b :: 0 <= i < len && 0 <= b < elemSize ==> arr.elems[i][b] == 0)
  }

  lemma ZerosAreAllZero(arr: PlainArray, elemSize: nat, len: nat)
    requires AllZero(arr, elemSize, len)
    ensures arr == PlainArray(elemSize, ZeroElems(len, elemSize))
  {
    forall i | 0 <= i < len ensures arr.elems[i] == Zeros(elemSize) { }
  }

  /** A new array gets a descriptor that was not in use, the gate's value points to it, and all other
      arrays stay. */
  lemma NewArrayStep(plat: Platform, m: Machine, g: Gate, arr: PlainArray) returns (m': Machine, desc: int32)
    requires Sound(plat, m) && Makes(plat, g, arr) && g.num < |m.vals| && !g.output
    requires Supported(|arr.elems|, arr.elemSize, plat.cacheMem) && 0 <= m.next < MAX_DESCRIPTOR
    ensures Step(plat, m, g) == Success(m') && OnlySlot(m, m', g.num)
    ensures desc !in m.arrays && PointsTo(m', g.num, desc) && m'.arrays == m.arrays[desc := arr] && m'.next == m.next + 1
  {
    if g.op.InitDynArray? { ZerosAreAllZero(arr, g.op.elemSize, g.op.len); }
    desc := m.next;
    var m1 := m.(arrays := m.arrays[desc := arr], next := m.next + 1);
    EncodeRoundTrip(plat, m1, Some(desc));
    var (b, m2) := Encode(plat, m1, Some(desc));
    m' := m2.(vals := m.vals[g.num := b]);
  }

  /** There is no array for other sizes, for an unknown name, or when all descriptors have been used. */
  lemma NewArrayFaults(plat: Platform, m: Machine, g: Gate, arr: PlainArray)
    requires (Makes(plat, g, arr) && !Supported(|arr.elems|, arr.elemSize, plat.cacheMem))
          || (Makes(plat, g, arr) && !(0 <= m.next < MAX_DESCRIPTOR))
          || (g.op.Input? && g.kind.ArrayKind? && g.comment !in plat.host)
    ensures Step(plat, m, g) == Failure(BadArray)
  {
    if g.op.InitDynArray? { ZerosAreAllZero(arr, g.op.elemSize, g.op.len); }
  }

  lemma WriteKeepsOk(arr: PlainArray, enable: bool, idx: Option<nat>, off: nat, val: Bytes, cacheMem: nat)
    requires arr.Ok(cacheMem) && (Hits(arr, enable, idx) ==> off + |val| <= |arr.elems[idx.value]|)
    ensures WriteElem(arr, enable, idx, off, val).Ok(cacheMem)
  {
  }

  lemma NewArrayKeepsSound(plat: Platform, m: Machine, arr: PlainArray)
    requires Sound(plat, m) && NewArray(plat, m, arr).Success? && arr.Ok(plat.cacheMem)
    ensures Sound(plat, NewArray(plat, m, arr).value.1)
  {
  }

  lemma WriteKeepsSound(plat: Platform, m: Machine, g: Gate)
    requires Sound(plat, m) && g.op.WriteDynArray? && WriteGate(plat, m, g).Success?
    ensures Sound(plat, WriteGate(plat, m, g).value.1)
  {
    var en, idx := IntVal(m, g.inputs[0]).value, IntVal(m, g.inputs[2]).value;
    var val, desc := Concat(m, g.inputs[3..]).value, ArrayRef(m, m.vals[g.inputs[1]]).value;
    WriteKeepsOk(m.arrays[desc], Truthy(en), AsIndex(idx), g.op.off, val, plat.cacheMem);
  }

  lemma ResultKeepsSound(plat: Platform, m: Machine, g: Gate)
    requires plat.Ok() && Sound(plat, m) && GateResult(plat, m, g).Success?
    ensures Sound(plat, GateResult(plat, m, g).value.1)
  {
    match g.op
    case Input => if g.kind.ArrayKind? { NewArrayKeepsSound(plat, m, plat.host[g.comment]); }
    case InitDynArray(elemSize, len) => NewArrayKeepsSound(plat, m, PlainArray(elemSize, ZeroElems(len, elemSize)));
    case WriteDynArray(_, _) => WriteKeepsSound(plat, m, g);
    case _ =>
  }

  lemma StepKeepsSound(plat: Platform, m: Machine, g: Gate)
    requires plat.Ok() && Sound(plat, m) && Step(plat, m, g).Success?
    ensures Sound(plat, Step(plat, m, g).value)
  {
    ResultKeepsSound(plat, m, g);
  }

  /** So these hold in every state that an evaluation without arrays at its start can reach. */
  lemma {:induction false} EvalKeepsSound(plat: Platform, m: Machine, gates: seq<Gate>)
    requires plat.Ok() && Sound(plat, m) && Eval(plat, m, gates).Success?
    ensures Sound(plat, Eval(plat, m, gates).value)
  {
    if gates != [] {
      var n := |gates| - 1;
      EvalKeepsSound(plat, m, gates[..n]);
      StepKeepsSound(plat, Eval(plat, m, gates[..n]).value, gates[n]);
    }
  }

  /** Make two arrays, write through the second pointer whatever and wherever, read through the first:
      the element is the one the first array was made with. */
  lemma NewArraysApart(plat: Platform, m: Machine, g1: Gate, g2: Gate, gw: Gate, gr: Gate,
                       arr1: PlainArray, arr2: PlainArray, enW: int32, i: int32, val: Bytes, enR: int32, j: int32)
    requires Sound(plat, m) && 0 <= m.next < MAX_DESCRIPTOR - 1
    requires Makes(plat, g1, arr1) && arr1.Ok(plat.cacheMem) && g1.num < |m.vals| && !g1.output
    requires Makes(plat, g2, arr2) && arr2.Ok(plat.cacheMem) && g2.num < |m.vals| && !g2.output
    requires Writes(m, gw, val) && Operands(m, gw, Some(enW), g2.num, Some(i)) && enW != 0
    requires gr.op.ReadDynArray? && Operands(m, gr, Some(enR), g1.num, Some(j)) && enR != 0
    requires 0 <= i < |arr2.elems| && gw.op.off + |val| <= arr2.elemSize && 0 <= j < |arr1.elems|
    requires g1.num !in {g2.num, gw.num} && Apart(gw, g1.num) && Apart(gw, g2.num)
    requires Apart(gr, g1.num) && Apart(gr, g2.num) && Apart(gr, gw.num)
    ensures Eval(plat, m, [g1, g2, gw, gr]).Success?
    ensures Eval(plat, m, [g1, g2, gw, gr]).value.vals[gr.num][POINTER_SIZE..] == arr1.elems[j]
  {
    var m1, m2, d1, d2 := TwoNewArrays(plat, m, g1, g2, arr1, arr2);
    var ks := gw.inputs[3..];
    AccessKept(m, m1, m2, gw, enW, g2.num, i, g1.num, g2.num);
    AccessKept(m, m1, m2, gr, enR, g1.num, j, g1.num, g2.num);
    ConcatKept(m, m1, ks, g1.num);
    ConcatKept(m1, m2, ks, g2.num);
    var m4 := WriteThenRead(plat, m2, gw, gr, d1, d2, enW, i, val, enR, g1.num, j);
    FourSteps(plat, m, g1, m1, g2, m2, gw, Step(plat, m2, gw).value, gr, m4);
  }

  lemma TwoNewArrays(plat: Platform, m: Machine, g1: Gate, g2: Gate, arr1: PlainArray, arr2: PlainArray)
      returns (m1: Machine, m2: Machine, d1: int32, d2: int32)
    requires Sound(plat, m) && 0 <= m.next < MAX_DESCRIPTOR - 1 && g1.num != g2.num
    requires Makes(plat, g1, arr1) && arr1.Ok(plat.cacheMem) && g1.num < |m.vals| && !g1.output
    requires Makes(plat, g2, arr2) && arr2.Ok(plat.cacheMem) && g2.num < |m.vals| && !g2.output
    ensures Step(plat, m, g1) == Success(m1) && Step(plat, m1, g2) == Success(m2)
    ensures OnlySlot(m, m1, g1.num) && OnlySlot(m1, m2, g2.num)
    ensures d1 != d2 && PointsTo(m2, g1.num, d1) && PointsTo(m2, g2.num, d2)
    ensures m2.arrays[d1] == arr1 && m2.arrays[d2] == arr2
  {
    m1, d1 := NewArrayStep(plat, m, g1, arr1);
    m2, d2 := NewArrayStep(plat, m1, g2, arr2);
  }

  lemma AccessKept(m: Machine, m1: Machine, m2: Machine, g: Gate, en: int32, ptr: nat, idx: int32, k1: nat, k2: nat)
    requires Operands(m, g, Some(en), ptr, Some(idx)) && Apart(g, k1) && Apart(g, k2)
    requires OnlySlot(m, m1, k1) && OnlySlot(m1, m2, k2)
    ensures Operands(m2, g, Some(en), ptr, Some(idx))
  {
    OperandsKept(m, m1, g, Some(en), ptr, Some(idx), k1);
    OperandsKept(m1, m2, g, Some(en), ptr, Some(idx), k2);
  }

  /** A write to one array does not show in a read of another. */
  lemma WriteThenRead(plat: Platform, m: Machine, gw: Gate, gr: Gate, d1: int32, d2: int32,
                      enW: int32, i: int32, val: Bytes, enR: int32, ptr: nat, j: int32) returns (m': Machine)
    requires |gw.inputs| >= 3 && Writes(m, gw, val) && Accesses(m, gw, Some(enW), gw.inputs[1], d2, Some(i)) && enW != 0
    requires gr.op.ReadDynArray? && Accesses(m, gr, Some(enR), ptr, d1, Some(j)) && enR != 0
    requires d1 != d2 && m.arrays[d1].Ok(plat.cacheMem) && m.arrays[d2].Ok(plat.cacheMem)
    requires 0 <= i < |m.arrays[d2].elems| && gw.op.off + |val| <= m.arrays[d2].elemSize
    requires 0 <= j < |m.arrays[d1].elems| && gw.num != ptr && Apart(gr, gw.num)
    ensures Step(plat, m, gw).Success? && Step(plat, Step(plat, m, gw).value, gr) == Success(m')
    ensures gr.num < |m'.vals| && ElementRead(m', m'.vals[gr.num], d1, m.arrays[d1].elems[j])
  {
    var m1 := WriteHits(plat, m, gw, enW, gw.inputs[1], d2, i, val);
    OperandsKept(m, m1, gr, Some(enR), ptr, Some(j), gw.num);
    m' := ReadHits(plat, m1, gr, enR, ptr, d1, j);
  }
}
