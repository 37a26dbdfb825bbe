/** Laws of the array gates: which element of which array an access reaches, what a miss does, where the
    parts of a struct go, and that the pointers handed on lead back to the same array. */
module ArrayLaws {
  import opened Base
  import opened Words
  import opened NilArithmetic
  import opened HiddenState
  import opened Circuit
  import opened GateLaws

  const POINTER_SIZE := WORD + 1

  /** An access gate whose enable bit and index are in the table, taking its pointer from slot ptr. */
  ghost predicate Operands(m: Machine, g: Gate, en: OptInt, ptr: nat, idx: OptInt) {
    && |g.inputs| >= 3 && g.num < |m.vals| && !g.output
    && IntVal(m, g.inputs[0]) == Success(en) && IntVal(m, g.inputs[2]) == Success(idx) && g.inputs[1] == ptr
  }

  /** Such a gate when that slot holds a pointer to array desc. */
  ghost predicate Accesses(m: Machine, g: Gate, en: OptInt, ptr: nat, desc: int32, idx: OptInt) {
    Operands(m, g, en, ptr, idx) && PointsTo(m, ptr, desc)
  }

  ghost predicate PointsTo(m: Machine, ptr: nat, desc: int32) {
    ptr < |m.vals| && ArrayRef(m, m.vals[ptr]) == Success(desc)
  }

  /** A slot that gate g does not take its enable bit, its index or a value from. */
  ghost predicate Apart(g: Gate, k: nat) {
    |g.inputs| >= 3 && k != g.inputs[0] && k != g.inputs[2] && k !in g.inputs[3..]
  }

  /** Disabled, or aimed at no element. */
  predicate Misses(arr: PlainArray, en: OptInt, idx: OptInt) {
    en == None || en == Some(0) || idx == None || idx.value < 0 || idx.value >= |arr.elems|
  }

  /** What a gate needs stays there while other slots are written. */
  lemma OperandsKept(m: Machine, m': Machine, g: Gate, en: OptInt, ptr: nat, idx: OptInt, k: nat)
    requires Operands(m, g, en, ptr, idx) && OnlySlot(m, m', k) && Apart(g, k)
    ensures Operands(m', g, en, ptr, idx)
  {
  }

  lemma {:induction false} ConcatKept(m: Machine, m': Machine, ks: seq<nat>, k: nat)
    requires OnlySlot(m, m', k) && k !in ks
    ensures Concat(m', ks) == Concat(m, ks)
  {
    if ks != [] { ConcatKept(m, m', ks[..|ks| - 1], k); }
  }

  // ---------------------------------------------------------------- values to be written

  /** The value inputs are there. */
  predicate Present(m: Machine, ks: seq<nat>) {
    forall k :: 0 <= k < |ks| ==> ks[k] < |m.vals|
  }

  /** Where value input k starts when they are put one after the other. */
  function Start(m: Machine, ks: seq<nat>, k: nat): nat
    requires Present(m, ks) && k <= |ks|
  {
    if k == 0 then 0 else Start(m, ks, k - 1) + |m.vals[ks[k - 1]]|
  }

  lemma {:induction false} StartOfPrefix(m: Machine, ks: seq<nat>, n: nat, k: nat)
    requires Present(m, ks) && k <= n <= |ks|
    ensures Start(m, ks[..n], k) == Start(m, ks, k)
  {
    if k > 0 { StartOfPrefix(m, ks, n, k - 1); }
  }

  lemma {:induction false} StartMonotone(m: Machine, ks: seq<nat>, k: nat, n: nat)
    requires Present(m, ks) && k <= n <= |ks|
    ensures Start(m, ks, k) <= Start(m, ks, n)
    decreases n
  {
    if k < n { StartMonotone(m, ks, k, n - 1); }
  }

  /** Value inputs are concatenated in order: input k stands behind all those before it. */
  lemma {:induction false} ConcatInOrder(m: Machine, ks: seq<nat>, val: Bytes)
    requires Present(m, ks) && Concat(m, ks) == Success(val)
    ensures |val| == Start(m, ks, |ks|)
    ensures forall k :: 0 <= k < |ks| ==> PartIs(m, ks, val, k)
  {
    if ks != [] {
      var n := |ks| - 1;
      var front, last := Concat(m, ks[..n]).value, m.vals[ks[n]];
      ConcatInOrder(m, ks[..n], front);
      StartOfPrefix(m, ks, n, n);
      assert val == front + last;
      forall k | 0 <= k < |ks|
        ensures PartIs(m, ks, val, k)
      {
        if k < n {
          assert PartIs(m, ks[..n], front, k);
          StartOfPrefix(m, ks, n, k);
          StartMonotone(m, ks, k + 1, n);
          var at := Start(m, ks, k);
          var end := at + |m.vals[ks[k]]|;
          assert val[at..end] == front[at..end];
        }
      }
    }
  }

  ghost predicate PartIs(m: Machine, ks: seq<nat>, val: Bytes, k: nat)
    requires Present(m, ks) && k < |ks|
  {
    var at := Start(m, ks, k);
    at + |m.vals[ks[k]]| <= |val| && val[at..at + |m.vals[ks[k]]|] == m.vals[ks[k]]
  }

  /** All inputs must be there. */
  lemma {:induction false} ConcatNeedsAll(m: Machine, ks: seq<nat>)
    ensures if Present(m, ks) then Concat(m, ks).Success? else Concat(m, ks) == Failure(NoSuchGate)
  {
    if ks != [] {
      var n := |ks| - 1;
      ConcatNeedsAll(m, ks[..n]);
      assert Present(m, ks) <==> Present(m, ks[..n]) && ks[n] < |m.vals|;
    }
  }

  // ---------------------------------------------------------------- one write

  /** A write gate with its value inputs present, of the length it announces if it announces one. */
  ghost predicate Writes(m: Machine, g: Gate, val: Bytes) {
    && g.op.WriteDynArray? && |g.inputs| >= 3 && Concat(m, g.inputs[3..]) == Success(val)
    && (g.op.total < 0 || g.op.total == |val|)
  }

  lemma WriteStep(plat: Platform, m: Machine, g: Gate, en: OptInt, ptr: nat, desc: int32, idx: OptInt, val: Bytes)
      returns (m': Machine)
    requires Writes(m, g, val) && Accesses(m, g, en, ptr, desc, idx)
    requires var arr := m.arrays[desc];
             Hits(arr, Truthy(en), AsIndex(idx)) ==> g.op.off + |val| <= |arr.elems[AsIndex(idx).value]|
    ensures Step(plat, m, g) == Success(m') && OnlySlot(m, m', g.num) && PointsTo(m', g.num, desc) && m'.next == m.next
    ensures m'.arrays == m.arrays[desc := WriteElem(m.arrays[desc], Truthy(en), AsIndex(idx), g.op.off, val)]
  {
    var arr' := WriteElem(m.arrays[desc], Truthy(en), AsIndex(idx), g.op.off, val);
    var m1 := m.(arrays := m.arrays[desc := arr']);
    EncodeRoundTrip(plat, m1, Some(desc));
    var (b, m2) := Encode(plat, m1, Some(desc));
    m' := m2.(vals := m.vals[g.num := b]);
  }

  /** A write that is disabled, or whose index is Nil, negative or not below the length, leaves every
      array as it was. */
  lemma WriteMisses(plat: Platform, m: Machine, g: Gate, en: OptInt, ptr: nat, desc: int32, idx: OptInt, val: Bytes)
      returns (m': Machine)
    requires Writes(m, g, val) && Accesses(m, g, en, ptr, desc, idx)
    requires en == None || en == Some(0) || idx == None || idx.value < 0 || idx.value >= |m.arrays[desc].elems|
    requires m.arrays[desc].Ok(plat.cacheMem)
    ensures Step(plat, m, g) == Success(m') && OnlySlot(m, m', g.num) && PointsTo(m', g.num, desc) && m'.next == m.next
    ensures m'.arrays == m.arrays
  {
    m' := WriteStep(plat, m, g, en, ptr, desc, idx, val);
    assert m.arrays[desc := m.arrays[desc]] == m.arrays;
  }

  /** A write that reaches element i puts its bytes there at the gate's offset; the rest of the element,
      the other elements and the other arrays stay. */
  lemma WriteHits(plat: Platform, m: Machine, g: Gate, en: int32, ptr: nat, desc: int32, i: int32, val: Bytes)
      returns (m': Machine)
    requires Writes(m, g, val) && Accesses(m, g, Some(en), ptr, desc, Some(i))
    requires en != 0 && 0 <= i < |m.arrays[desc].elems| && g.op.off + |val| <= |m.arrays[desc].elems[i]|
    ensures Step(plat, m, g) == Success(m') && OnlySlot(m, m', g.num) && PointsTo(m', g.num, desc) && m'.next == m.next
    ensures m'.arrays.Keys == m.arrays.Keys && forall d :: d in m.arrays && d != desc ==> m'.arrays[d] == m.arrays[d]
    ensures Replaced(m.arrays[desc], m'.arrays[desc], i, g.op.off, val)
  {
    m' := WriteStep(plat, m, g, Some(en), ptr, desc, Some(i), val);
  }

  /** Element i holds val at an offset, and nothing else has changed. */
  ghost predicate Replaced(arr: PlainArray, arr': PlainArray, i: nat, off: nat, val: Bytes)
    requires i < |arr.elems| && off + |val| <= |arr.elems[i]|
  {
    && arr'.elemSize == arr.elemSize && |arr'.elems| == |arr.elems|
    && (forall j :: 0 <= j < |arr.elems| && j != i ==> arr'.elems[j] == arr.elems[j])
    && |arr'.elems[i]| == |arr.elems[i]|
    && arr'.elems[i][off..off + |val|] == val
    && arr'.elems[i][..off] == arr.elems[i][..off] && arr'.elems[i][off + |val|..] == arr.elems[i][off + |val|..]
  }

  /** A write stops the evaluation exactly when the announced length is wrong, or an element is reached
      and the bytes do not fit into it. */
  lemma WriteFaults(plat: Platform, m: Machine, g: Gate, en: OptInt, ptr: nat, desc: int32, idx: OptInt, val: Bytes)
    requires g.op.WriteDynArray? && Accesses(m, g, en, ptr, desc, idx) && Concat(m, g.inputs[3..]) == Success(val)
    requires m.arrays[desc].Ok(plat.cacheMem)
    ensures var arr := m.arrays[desc];
            Step(plat, m, g).Failure? <==>
              || (g.op.total >= 0 && g.op.total != |val|)
              || (!Misses(arr, en, idx) && g.op.off + |val| > |arr.elems[idx.value]|)
  {
    EncodeRoundTrip(plat, m, Some(desc));
  }

  /** An access through a null pointer, or through one to no array, stops the evaluation. */
  lemma BadPointerFaults(plat: Platform, m: Machine, g: Gate, en: OptInt, ptr: nat, idx: OptInt)
    requires Operands(m, g, en, ptr, idx) && ptr < |m.vals|
    requires g.op.ReadDynArray? || (g.op.WriteDynArray? && Concat(m, g.inputs[3..]).Success?)
    ensures IntVal(m, ptr) == Success(None) ==> Step(plat, m, g) == Failure(NullArray)
    ensures IntVal(m, ptr).Success? && IntVal(m, ptr).value.Some? && IntVal(m, ptr).value.value !in m.arrays ==>
              Step(plat, m, g) == Failure(NoSuchArray)
  {
  }

  // ---------------------------------------------------------------- one read

  /** Any read hands on a pointer to the array it read, and changes no array. */
  lemma ReadStep(plat: Platform, m: Machine, g: Gate, en: OptInt, ptr: nat, desc: int32, idx: OptInt)
      returns (m': Machine)
    requires g.op.ReadDynArray? && Accesses(m, g, en, ptr, desc, idx)
    requires m.arrays[desc].Ok(plat.cacheMem)
    ensures Step(plat, m, g) == Success(m') && OnlySlot(m, m', g.num) && m'.arrays == m.arrays && m'.next == m.next
    ensures ElementRead(m', m'.vals[g.num], desc,
              ReadElem(m.arrays[desc], Truthy(en), AsIndex(idx), plat.Buffer(m.allocs, m.arrays[desc].elemSize)))
  {
    var arr := m.arrays[desc];
    var m1 := if Hits(arr, Truthy(en), AsIndex(idx)) then m else m.(allocs := m.allocs + 1);
    EncodeRoundTrip(plat, m1, Some(desc));
    var (b, m2) := Encode(plat, m1, Some(desc));
    var elem := ReadElem(arr, Truthy(en), AsIndex(idx), plat.Buffer(m.allocs, arr.elemSize));
    assert (b + elem)[..POINTER_SIZE] == b && (b + elem)[POINTER_SIZE..] == elem;
    m' := m2.(vals := m.vals[g.num := b + elem]);
  }

  /** The value of a read gate: a pointer to the array, then the element. */
  ghost predicate ElementRead(m: Machine, val: Bytes, desc: int32, elem: Bytes) {
    && |val| == POINTER_SIZE + |elem| && val[0] != 0
    && ArrayRef(m, val[..POINTER_SIZE]) == Success(desc) && val[POINTER_SIZE..] == elem
  }

  lemma ReadHits(plat: Platform, m: Machine, g: Gate, en: int32, ptr: nat, desc: int32, i: int32) returns (m': Machine)
    requires g.op.ReadDynArray? && Accesses(m, g, Some(en), ptr, desc, Some(i))
    requires m.arrays[desc].Ok(plat.cacheMem)
    requires en != 0 && 0 <= i < |m.arrays[desc].elems|
    ensures Step(plat, m, g) == Success(m') && OnlySlot(m, m', g.num) && m'.arrays == m.arrays && m'.next == m.next
    ensures ElementRead(m', m'.vals[g.num], desc, m.arrays[desc].elems[i])
  {
    m' := ReadStep(plat, m, g, Some(en), ptr, desc, Some(i));
  }

  /** A read that is disabled, or whose index is Nil, negative or not below the length, gives a buffer of
      the element's size that decodes to Nil. */
  lemma ReadMisses(plat: Platform, m: Machine, g: Gate, en: OptInt, ptr: nat, desc: int32, idx: OptInt)
      returns (m': Machine, elem: Bytes)
    requires g.op.ReadDynArray? && Accesses(m, g, en, ptr, desc, idx)
    requires m.arrays[desc].Ok(plat.cacheMem)
    requires en == None || en == Some(0) || idx == None || idx.value < 0 || idx.value >= |m.arrays[desc].elems|
    ensures Step(plat, m, g) == Success(m') && OnlySlot(m, m', g.num) && m'.arrays == m.arrays && m'.next == m.next
    ensures ElementRead(m', m'.vals[g.num], desc, elem) && |elem| == m.arrays[desc].elemSize && elem[0] == 0
    ensures forall j :: 0 < j < |elem| ==> elem[j] == plat.junk(m.allocs, j)
  {
    m' := ReadStep(plat, m, g, en, ptr, desc, idx);
    elem := Nilled(plat.Buffer(m.allocs, m.arrays[desc].elemSize));
  }

  // ---------------------------------------------------------------- slices

  lemma SubSlice(s: Bytes, a: nat, b: nat, k: nat, off: nat, len: nat)
    requires a + k == off && off + len <= b <= |s|
    ensures s[a..b][k..k + len] == s[off..off + len]
  {
    var x, y := s[a..b][k..k + len], s[off..off + len];
    forall j | 0 <= j < len ensures x[j] == y[j] { assert s[a..b][k + j] == s[a + (k + j)]; }
  }

  lemma SliceStep(plat: Platform, m: Machine, g: Gate, off: nat, len: nat) returns (m': Machine)
    requires g.op == Slicer(off, len) && |g.inputs| >= 1 && g.num < |m.vals| && !g.output && len > 0
    requires g.inputs[0] < |m.vals|
    requires var val := m.vals[g.inputs[0]]; off + len <= |val| && val[0] != 0
    ensures Step(plat, m, g) == Success(m') && OnlySlot(m, m', g.num) && m'.arrays == m.arrays && m'.next == m.next
    ensures m'.vals[g.num] == m.vals[g.inputs[0]][off..off + len]
  {
    m' := Step(plat, m, g).value;
  }

  /** Slicing a component out of an element that was read. */
  lemma SliceOfElement(plat: Platform, m: Machine, g: Gate, desc: int32, elem: Bytes, off: nat, len: nat)
      returns (m': Machine)
    requires g.op == Slicer(POINTER_SIZE + off, len) && |g.inputs| >= 1 && g.num < |m.vals| && !g.output && len > 0
    requires g.inputs[0] < |m.vals| && off + len <= |elem| && ElementRead(m, m.vals[g.inputs[0]], desc, elem)
    ensures Step(plat, m, g) == Success(m') && OnlySlot(m, m', g.num) && m'.arrays == m.arrays
    ensures m'.vals[g.num] == elem[off..off + len]
  {
    var val := m.vals[g.inputs[0]];
    SubSlice(val, POINTER_SIZE, |val|, off, POINTER_SIZE + off, len);
    assert val[POINTER_SIZE..|val|] == val[POINTER_SIZE..];
    m' := SliceStep(plat, m, g, POINTER_SIZE + off, len);
  }

  /** Slicing the pointer off what was read. */
  lemma SliceOfPointer(plat: Platform, m: Machine, g: Gate, desc: int32, elem: Bytes) returns (m': Machine)
    requires g.op == Slicer(0, POINTER_SIZE) && |g.inputs| >= 1 && g.num < |m.vals| && !g.output
    requires g.inputs[0] < |m.vals| && ElementRead(m, m.vals[g.inputs[0]], desc, elem)
    ensures Step(plat, m, g) == Success(m') && OnlySlot(m, m', g.num) && m'.arrays == m.arrays
    ensures PointsTo(m', g.num, desc)
  {
    m' := SliceStep(plat, m, g, 0, POINTER_SIZE);
    assert m.vals[g.inputs[0]][0..POINTER_SIZE] == m.vals[g.inputs[0]][..POINTER_SIZE];
  }
}
