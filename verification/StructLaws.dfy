/** Laws over several array gates: components of structs, and where handed-on pointers lead. */
module StructLaws {
  import opened Base
  import opened Words
  import opened NilArithmetic
  import opened HiddenState
  import opened Circuit
  import opened GateLaws
  import opened ArrayLaws

  // ---------------------------------------------------------------- write, read, slice

  /** After a write through slot gw.num's pointer: gr reads element i there and gs slices it. */
  ghost predicate ReadsBack(m: Machine, gw: Gate, gr: Gate, gs: Gate, en: int32, i: int32, off: nat, len: nat) {
    && gr.op.ReadDynArray? && Operands(m, gr, Some(en), gw.num, Some(i)) && en != 0 && Apart(gr, gw.num)
    && gs.op == Slicer(POINTER_SIZE + off, len) && |gs.inputs| >= 1 && gs.inputs[0] == gr.num
    && gs.num < |m.vals| && !gs.output && len > 0
  }

  lemma ReadBack(plat: Platform, m: Machine, gw: Gate, m1: Machine, gr: Gate, gs: Gate,
                 en: int32, desc: int32, i: int32, off: nat, len: nat)
    requires ReadsBack(m, gw, gr, gs, en, i, off, len)
    requires Step(plat, m, gw) == Success(m1) && OnlySlot(m, m1, gw.num) && PointsTo(m1, gw.num, desc)
    requires m1.arrays[desc].Ok(plat.cacheMem) && 0 <= i < |m1.arrays[desc].elems|
    requires off + len <= |m1.arrays[desc].elems[i]|
    ensures Eval(plat, m, [gw, gr, gs]).Success?
    ensures Eval(plat, m, [gw, gr, gs]).value.vals[gs.num] == m1.arrays[desc].elems[i][off..off + len]
  {
    OperandsKept(m, m1, gr, Some(en), gw.num, Some(i), gw.num);
    var m2 := ReadHits(plat, m1, gr, en, gw.num, desc, i);
    var m3 := SliceOfElement(plat, m2, gs, desc, m1.arrays[desc].elems[i], off, len);
    ThreeSteps(plat, m, gw, m1, gr, m2, gs, m3);
  }

  /** After val was written over elem, a component is the part of val that was written there, or what it
      was if nothing was written there. */
  ghost predicate Component(got: Bytes, elem: Bytes, at: nat, val: Bytes, off: nat, len: nat)
    requires off + len <= |elem|
  {
    && (at <= off && off + len <= at + |val| ==> got == val[off - at..off - at + len])
    && (off + len <= at || at + |val| <= off ==> got == elem[off..off + len])
  }

  lemma SpliceComponents(elem: Bytes, elem': Bytes, at: nat, val: Bytes, off: nat, len: nat)
    requires at + |val| <= |elem| == |elem'| && off + len <= |elem|
    requires elem'[at..at + |val|] == val && elem'[..at] == elem[..at] && elem'[at + |val|..] == elem[at + |val|..]
    ensures Component(elem'[off..off + len], elem, at, val, off, len)
  {
    var behind := at + |val|;
    if at <= off && off + len <= behind {
      SubSlice(elem', at, behind, off - at, off, len);
    } else if off + len <= at {
      SubSlice(elem', 0, at, off, off, len);
      SubSlice(elem, 0, at, off, off, len);
    } else if behind <= off {
      SubSlice(elem', behind, |elem|, off - behind, off, len);
      SubSlice(elem, behind, |elem|, off - behind, off, len);
      assert elem'[behind..|elem|] == elem'[behind..] && elem[behind..|elem|] == elem[behind..];
    }
  }

  /** Write part of element i, read the element through the pointer the write gave, slice a component
      out of it: the result is what was written there if that component was written, and what was there
      before if it is disjoint from what was written. */
  lemma WriteReadSlice(plat: Platform, m: Machine, gw: Gate, gr: Gate, gs: Gate, enW: int32, enR: int32,
                       ptr: nat, desc: int32, i: int32, val: Bytes, off: nat, len: nat)
    requires Writes(m, gw, val) && Accesses(m, gw, Some(enW), ptr, desc, Some(i)) && enW != 0
    requires ReadsBack(m, gw, gr, gs, enR, i, off, len)
    requires m.arrays[desc].Ok(plat.cacheMem) && 0 <= i < |m.arrays[desc].elems|
    requires off + len <= m.arrays[desc].elemSize && gw.op.off + |val| <= m.arrays[desc].elemSize
    ensures Eval(plat, m, [gw, gr, gs]).Success?
    ensures var got := Eval(plat, m, [gw, gr, gs]).value.vals[gs.num];
            Component(got, m.arrays[desc].elems[i], gw.op.off, val, off, len)
  {
    var m1 := WriteHits(plat, m, gw, enW, ptr, desc, i, val);
    var arr, arr' := m.arrays[desc], m1.arrays[desc];
    WrittenComponents(arr, arr', i, gw.op.off, val, off, len, plat.cacheMem);
    ReadBack(plat, m, gw, m1, gr, gs, enR, desc, i, off, len);
  }

  lemma WrittenComponents(arr: PlainArray, arr': PlainArray, i: nat, at: nat, val: Bytes,
                          off: nat, len: nat, cacheMem: nat)
    requires arr.Ok(cacheMem) && i < |arr.elems| && at + |val| <= arr.elemSize && Replaced(arr, arr', i, at, val)
    requires off + len <= arr.elemSize
    ensures arr'.Ok(cacheMem)
    ensures Component(arr'.elems[i][off..off + len], arr.elems[i], at, val, off, len)
  {
    SpliceComponents(arr.elems[i], arr'.elems[i], at, val, off, len);
  }

  /** After a write that was disabled, or aimed at no element, every component is what it was. */
  lemma MissedWriteReadSlice(plat: Platform, m: Machine, gw: Gate, gr: Gate, gs: Gate,
                             enW: OptInt, idxW: OptInt, enR: int32, ptr: nat, desc: int32, i: int32, val: Bytes, off: nat, len: nat)
    requires Writes(m, gw, val) && Accesses(m, gw, enW, ptr, desc, idxW) && Misses(m.arrays[desc], enW, idxW)
    requires ReadsBack(m, gw, gr, gs, enR, i, off, len)
    requires m.arrays[desc].Ok(plat.cacheMem) && 0 <= i < |m.arrays[desc].elems|
    requires off + len <= m.arrays[desc].elemSize
    ensures Eval(plat, m, [gw, gr, gs]).Success?
    ensures Eval(plat, m, [gw, gr, gs]).value.vals[gs.num] == m.arrays[desc].elems[i][off..off + len]
  {
    var m1 := WriteMisses(plat, m, gw, enW, ptr, desc, idxW, val);
    ReadBack(plat, m, gw, m1, gr, gs, enR, desc, i, off, len);
  }

  /** Every value input of a write gate comes back from its own place: behind the gate's offset and all
      value inputs before it. */
  lemma EveryInputReadBack(plat: Platform, m: Machine, gw: Gate, gr: Gate, gs: Gate, enW: int32, enR: int32,
                           ptr: nat, desc: int32, i: int32, k: nat)
    requires Accesses(m, gw, Some(enW), ptr, desc, Some(i)) && enW != 0
    requires gw.op.WriteDynArray? && Present(m, gw.inputs[3..]) && k < |gw.inputs| - 3
    requires var size := Start(m, gw.inputs[3..], |gw.inputs| - 3);
             && gw.op.off + size <= m.arrays[desc].elemSize && (gw.op.total < 0 || gw.op.total == size)
    requires ReadsBack(m, gw, gr, gs, enR, i, gw.op.off + Start(m, gw.inputs[3..], k), |m.vals[gw.inputs[3 + k]]|)
    requires m.arrays[desc].Ok(plat.cacheMem) && 0 <= i < |m.arrays[desc].elems|
    ensures Eval(plat, m, [gw, gr, gs]).Success?
    ensures Eval(plat, m, [gw, gr, gs]).value.vals[gs.num] == m.vals[gw.inputs[3 + k]]
  {
    var ks, elem := gw.inputs[3..], m.arrays[desc].elems[i];
    ConcatNeedsAll(m, ks);
    var val, at, part := Concat(m, ks).value, Start(m, ks, k), m.vals[ks[k]];
    ConcatInOrder(m, ks, val);
    assert PartIs(m, ks, val, k);
    var off := gw.op.off + at;
    WriteReadSlice(plat, m, gw, gr, gs, enW, enR, ptr, desc, i, val, off, |part|);
    PartOfWritten(Eval(plat, m, [gw, gr, gs]).value.vals[gs.num], elem, gw.op.off, val, at, off, part);
  }

  lemma PartOfWritten(got: Bytes, elem: Bytes, start: nat, val: Bytes, at: nat, off: nat, part: Bytes)
    requires off == start + at && at + |part| <= |val| && val[at..at + |part|] == part && start + |val| <= |elem|
    requires Component(got, elem, start, val, off, |part|)
    ensures got == part
  {
  }

  /** A read that is disabled or misses gives Nil only in the first component: any later one is Nil
      exactly when the new buffer happened to hold a zero there. */
  lemma NilReadComponents(plat: Platform, m: Machine, gr: Gate, gs: Gate, en: OptInt, ptr: nat, desc: int32, idx: OptInt,
                          off: nat)
    requires gr.op.ReadDynArray? && Accesses(m, gr, en, ptr, desc, idx) && Misses(m.arrays[desc], en, idx)
    requires gs.op == Slicer(POINTER_SIZE + off, WORD + 1) && |gs.inputs| >= 1 && gs.inputs[0] == gr.num
    requires gs.num < |m.vals| && !gs.output && off + WORD + 1 <= m.arrays[desc].elemSize
    requires m.arrays[desc].Ok(plat.cacheMem)
    ensures Eval(plat, m, [gr, gs]).Success?
    ensures IntVal(Eval(plat, m, [gr, gs]).value, gs.num).Success?
    ensures IntVal(Eval(plat, m, [gr, gs]).value, gs.num).value == None <==> off == 0 || plat.junk(m.allocs, off) == 0
  {
    var m1, elem := ReadMisses(plat, m, gr, en, ptr, desc, idx);
    var m2 := SliceOfElement(plat, m1, gs, desc, elem, off, WORD + 1);
    TwoSteps(plat, m, gr, m1, gs, m2);
    assert m2.vals[gs.num][0] == elem[off];
  }

  // ---------------------------------------------------------------- following a pointer that a read handed on

  /** gs slices the pointer off what gr read. */
  ghost predicate TakesPointer(m: Machine, gr: Gate, gs: Gate) {
    && gs.op == Slicer(0, POINTER_SIZE) && |gs.inputs| >= 1 && gs.inputs[0] == gr.num
    && gs.num < |m.vals| && !gs.output
  }

  /** Whether the read hits or misses, the pointer sliced off its value leads to the array read. */
  lemma PointerOfRead(plat: Platform, m: Machine, gr: Gate, gs: Gate, en: OptInt, ptr: nat, desc: int32, idx: OptInt)
      returns (m1: Machine, m2: Machine)
    requires gr.op.ReadDynArray? && Accesses(m, gr, en, ptr, desc, idx) && TakesPointer(m, gr, gs)
    requires m.arrays[desc].Ok(plat.cacheMem)
    ensures Step(plat, m, gr) == Success(m1) && Step(plat, m1, gs) == Success(m2)
    ensures OnlySlot(m, m1, gr.num) && OnlySlot(m1, m2, gs.num) && m2.arrays == m.arrays && PointsTo(m2, gs.num, desc)
  {
    m1 := ReadStep(plat, m, gr, en, ptr, desc, idx);
    var elem := ReadElem(m.arrays[desc], Truthy(en), AsIndex(idx), plat.Buffer(m.allocs, m.arrays[desc].elemSize));
    m2 := SliceOfPointer(plat, m1, gs, desc, elem);
  }

  /** A second read through that pointer reads the same array. */
  lemma SecondRead(plat: Platform, m: Machine, gr: Gate, gs: Gate, g: Gate,
                   en: OptInt, ptr: nat, desc: int32, idx: OptInt, en': int32, j: int32)
    requires gr.op.ReadDynArray? && Accesses(m, gr, en, ptr, desc, idx) && TakesPointer(m, gr, gs)
    requires g.op.ReadDynArray? && Operands(m, g, Some(en'), gs.num, Some(j)) && Apart(g, gr.num) && Apart(g, gs.num)
    requires m.arrays[desc].Ok(plat.cacheMem) && en' != 0 && 0 <= j < |m.arrays[desc].elems|
    ensures Eval(plat, m, [gr, gs, g]).Success?
    ensures var m' := Eval(plat, m, [gr, gs, g]).value;
            m'.arrays == m.arrays && ElementRead(m', m'.vals[g.num], desc, m.arrays[desc].elems[j])
  {
    var m1, m2 := PointerOfRead(plat, m, gr, gs, en, ptr, desc, idx);
    OperandsKept(m, m1, g, Some(en'), gs.num, Some(j), gr.num);
    OperandsKept(m1, m2, g, Some(en'), gs.num, Some(j), gs.num);
    var m3 := ReadHits(plat, m2, g, en', gs.num, desc, j);
    ThreeSteps(plat, m, gr, m1, gs, m2, g, m3);
  }

  /** A write through that pointer changes the same array, and no other. */
  lemma WriteAfterRead(plat: Platform, m: Machine, gr: Gate, gs: Gate, g: Gate,
                       en: OptInt, ptr: nat, desc: int32, idx: OptInt, en': int32, j: int32, val: Bytes)
    requires gr.op.ReadDynArray? && Accesses(m, gr, en, ptr, desc, idx) && TakesPointer(m, gr, gs)
    requires Writes(m, g, val) && Operands(m, g, Some(en'), gs.num, Some(j)) && Apart(g, gr.num) && Apart(g, gs.num)
    requires m.arrays[desc].Ok(plat.cacheMem) && en' != 0 && 0 <= j < |m.arrays[desc].elems|
    requires g.op.off + |val| <= |m.arrays[desc].elems[j]|
    ensures Eval(plat, m, [gr, gs, g]).Success?
    ensures var arrays := Eval(plat, m, [gr, gs, g]).value.arrays;
            && arrays.Keys == m.arrays.Keys && (forall d :: d in arrays && d != desc ==> arrays[d] == m.arrays[d])
            && Replaced(m.arrays[desc], arrays[desc], j, g.op.off, val)
  {
    var m1, m2 := PointerOfRead(plat, m, gr, gs, en, ptr, desc, idx);
    OperandsKept(m, m1, g, Some(en'), gs.num, Some(j), gr.num);
    OperandsKept(m1, m2, g, Some(en'), gs.num, Some(j), gs.num);
    ConcatKept(m, m1, g.inputs[3..], gr.num);
    ConcatKept(m1, m2, g.inputs[3..], gs.num);
    var m3 := WriteHits(plat, m2, g, en', gs.num, desc, j, val);
    ThreeSteps(plat, m, gr, m1, gs, m2, g, m3);
  }
}
