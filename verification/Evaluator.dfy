/** The circuit evaluator, working on a value table and on hidden arrays. */
module Evaluator {
  import opened Base
  import opened Words
  import opened NilArithmetic
  import opened FlatStore
  import opened HiddenState
  import opened ObliviousArray
  import opened Circuit
  import opened ArrayStore

  class CircuitEval {
    const plat: Platform
    const cct: seq<Gate>
    const vals: FlatIO
    const store: Store
    var allocs: nat
    var outputs: seq<Output>
    /** What the hidden arrays stand for. */
    ghost var plain: map<int, PlainArray>

    ghost predicate Valid()
      reads this, vals, store, store.repr
    {
      && store.Valid(plain) && store.next >= 1 && store.cacheMem == plat.cacheMem && plat.Ok()
      && this !in store.repr && vals !in store.repr
    }

    /** The state as a machine over plain arrays would have it. */
    ghost function State(): Machine
      reads this, vals, store
    {
      Machine(vals.recs, plain, store.next, allocs, outputs)
    }

    /** What happened is what the machine over plain arrays does. */
    ghost predicate Agrees(r: Result<Bytes, Fault>, spec: Result<(Bytes, Machine), Fault>)
      reads this, vals, store, store.repr
    {
      match spec
      case Success((val, m)) => r == Success(val) && Valid() && State() == m
      case Failure(f) => r == Failure(f)
    }

    ghost predicate AgreesOn(fault: Option<Fault>, spec: Result<Machine, Fault>)
      reads this, vals, store, store.repr
    {
      match spec
      case Success(m) => fault == None && Valid() && State() == m
      case Failure(f) => fault == Some(f)
    }

    /** An evaluator with a filled value table and no arrays yet. */
    constructor (cct: seq<Gate>, vals: FlatIO, plat: Platform, roundedSqrt: nat -> nat, sources: (int, nat) -> Randomness)
      requires plat.Ok() && forall d: int, n: nat :: n >= 1 ==> sources(d, n).Fair(n)
      ensures Valid() && fresh(store) && fresh(store.repr) && this.cct == cct && this.vals == vals && this.plat == plat
      ensures State() == Machine(vals.recs, map[], 1, 0, [])
    {
      this.cct, this.vals, this.plat := cct, vals, plat;
      allocs, outputs, plain := 0, [], map[];
      store := new Store(plat.cacheMem, roundedSqrt, sources);
    }

    /** Evaluates the circuit. For every circuit, every source of randomness, every behaviour of the
        machine where C++ leaves it open and whatever new buffers hold, the value table, the contents
        of the arrays and the outputs, or the fault, are those of evaluation over plain arrays. */
    method Eval() returns (fault: Option<Fault>)
      requires Valid()
      modifies this, vals, store, store.repr
      ensures AgreesOn(fault, Circuit.Eval(plat, old(State()), cct))
    {
      ghost var before := State();
      var i := 0;
      assert cct[..0] == [];
      while i < |cct|
        invariant 0 <= i <= |cct| && Valid() && fresh(store.repr - old(store.repr))
        invariant Circuit.Eval(plat, before, cct[..i]) == Success(State())
      {
        ghost var m := State();
        fault := DoGate(cct[i]);
        var next := i + 1;
        EvalNext(plat, before, cct, i, next, m);
        if fault.Some? {
          FaultStays(before, next, fault.value);
          return;
        }
        i := next;
      }
      assert cct[..i] == cct;
      fault := None;
    }

    lemma {:induction false} FaultStays(m: Machine, i: nat, f: Fault)
      requires i <= |cct| && Circuit.Eval(plat, m, cct[..i]) == Failure(f)
      ensures Circuit.Eval(plat, m, cct) == Failure(f)
      decreases |cct| - i
    {
      if i < |cct| {
        assert cct[..i + 1][..i] == cct[..i];
        FaultStays(m, i + 1, f);
      } else {
        assert cct[..i] == cct;
      }
    }

    method DoGate(g: Gate) returns (fault: Option<Fault>)
      requires Valid()
      modifies this, vals, store, store.repr
      ensures fresh(store.repr - old(store.repr))
      ensures AgreesOn(fault, Step(plat, old(State()), g))
    {
      var r := Compute(g);
      if r.Failure? {
        return Some(r.error);
      }
      if r.value != [] {
        if g.num >= |vals.recs| { return Some(NoSuchGate); }
        PutGateVal(g.num, r.value);
      }
      fault := None;
      if g.output {
        fault := PrintOutput(g, r.value);
      }
    }

    method Compute(g: Gate) returns (r: Result<Bytes, Fault>)
      requires Valid()
      modifies this, vals, store, store.repr
      ensures fresh(store.repr - old(store.repr))
      ensures Agrees(r, GateResult(plat, old(State()), g))
    {
      match g.op {
        case Binary(_) => r := DoBinary(g);
        case Unary(_) => r := DoUnary(g);
        case Input => r := DoInput(g);
        case Lit(v) => var b := OptBasic2bb(Some(v)); r := Success(b);
        case Select => r := DoSelect(g);
        case Slicer(_, _) => r := DoSlicer(g);
        case ReadDynArray => r := DoReadGate(g);
        case WriteDynArray(_, _) => r := DoWriteGate(g);
        case InitDynArray(elemSize, len) => r := DoNewArray(New(len, elemSize));
        case Print => r := Failure(PrintGate);
      }
    }

    // -------------------------------------------------------------- the value table

    method GetGateVal(k: nat) returns (r: Result<Bytes, Fault>)
      ensures r == GateVal(State(), k)
    {
      if k >= |vals.recs| { return Failure(NoSuchGate); }
      var b := vals.Read(k);
      r := Success(b);
    }

    method GetIntVal(k: nat) returns (r: Result<OptInt, Fault>)
      ensures r == IntVal(State(), k)
    {
      var b :- GetGateVal(k);
      r := AsOpt(b);
    }

    method PutGateVal(k: nat, val: Bytes)
      requires Valid() && k < |vals.recs|
      modifies vals
      ensures Valid() && State() == old(State()).(vals := old(vals.recs)[k := val])
    {
      vals.Write(k, val);
    }

    /** One more buffer has been used before it was filled. */
    method UseBuffer()
      requires Valid()
      modifies this`allocs
      ensures Valid() && State() == old(State()).(allocs := old(allocs) + 1)
    {
      allocs := allocs + 1;
    }

    /** Fills a new buffer; the part behind a Nil stays as the buffer came. */
    method OptBasic2bb(x: OptInt) returns (b: Bytes)
      requires Valid()
      modifies this`allocs
      ensures Valid() && (b, State()) == Encode(plat, old(State()), x)
    {
      b := OptBuffer(x, plat.Buffer(allocs, WORD));
      UseBuffer();
    }

    // -------------------------------------------------------------- scalar gates

    method DoBinary(g: Gate) returns (r: Result<Bytes, Fault>)
      requires Valid() && g.op.Binary?
      modifies this`allocs
      ensures Agrees(r, BinaryGate(plat, old(State()), g))
    {
      if |g.inputs| != 2 { return Failure(BadInputs); }
      var x :- GetIntVal(g.inputs[0]);
      var y :- GetIntVal(g.inputs[1]);
      var b := OptBasic2bb(DoBinOp(g.op.binop, x, y, plat.undef));
      r := Success(b);
    }

    method DoUnary(g: Gate) returns (r: Result<Bytes, Fault>)
      requires Valid() && g.op.Unary?
      modifies this`allocs
      ensures Agrees(r, UnaryGate(plat, old(State()), g))
    {
      if |g.inputs| != 1 { return Failure(BadInputs); }
      var x :- GetIntVal(g.inputs[0]);
      var b := OptBasic2bb(DoUnOp(g.op.unop, x, plat.undef));
      r := Success(b);
    }

    method DoInput(g: Gate) returns (r: Result<Bytes, Fault>)
      requires Valid()
      modifies this, store
      ensures fresh(store.repr - old(store.repr))
      ensures Agrees(r, InputGate(plat, old(State()), g))
    {
      if g.kind.ArrayKind? {
        if g.comment !in plat.host { return Failure(BadArray); }
        var arr := plat.host[g.comment];
        r := DoNewArray(Existing(arr.elems, arr.elemSize));
      } else {
        var b :- GetGateVal(g.num);
        var _ :- AsOpt(b);
        r := Success(b);
      }
    }

    method DoSelect(g: Gate) returns (r: Result<Bytes, Fault>)
      requires Valid()
      ensures Agrees(r, SelectGate(State(), g))
    {
      if |g.inputs| != 3 || g.kind.ArrayKind? { return Failure(BadInputs); }
      var sel :- GetIntVal(g.inputs[0]);
      var x :- GetGateVal(g.inputs[1]);
      var y :- GetGateVal(g.inputs[2]);
      r := Success(if Truthy(sel) then x else y);
    }

    method DoSlicer(g: Gate) returns (r: Result<Bytes, Fault>)
      requires Valid() && g.op.Slicer?
      ensures Agrees(r, SlicerGate(State(), g))
    {
      if |g.inputs| == 0 { return Failure(BadInputs); }
      var off, len := g.op.off, g.op.len;
      var val :- GetGateVal(g.inputs[0]);
      if |val| == 0 { return Failure(BadBuffer); }
      if val[0] == 0 || |val| < off + len {
        if len == 0 { return Failure(BadBuffer); }
        var out := NilBuffer(seq(len, _ => 0));
        assert out == seq(len, _ => 0);
        r := Success(out);
      } else {
        r := Success(val[off..off + len]);
      }
    }

    // -------------------------------------------------------------- array gates

    method DoNewArray(origin: Origin) returns (r: Result<Bytes, Fault>)
      requires Valid() && forall i :: 0 <= i < origin.Len() ==> |origin.Elems()[i]| == origin.elemSize
      modifies this, store
      ensures fresh(store.repr - old(store.repr))
      ensures Agrees(r, NewArray(plat, old(State()), PlainArray(origin.elemSize, origin.Elems())))
    {
      ghost var p := PlainArray(origin.elemSize, origin.Elems());
      if !Supported(origin.Len(), origin.elemSize, plat.cacheMem) || !(0 <= store.next < MAX_DESCRIPTOR) {
        return Failure(BadArray);
      }
      var desc := store.NewArray(origin, p, plain);
      plain := plain[desc := p];
      var b := OptBasic2bb(Some(desc));
      r := Success(b);
    }

    /** The array that a pointer refers to. */
    method GetArray(ptr: Bytes) returns (r: Result<int32, Fault>)
      requires Valid()
      ensures r == ArrayRef(State(), ptr) && (r.Success? ==> r.value in store.arrays)
    {
      var desc :- AsOpt(ptr);
      if desc.None? { return Failure(NullArray); }
      if desc.value !in store.arrays { return Failure(NoSuchArray); }
      r := Success(desc.value);
    }

    method DoReadGate(g: Gate) returns (r: Result<Bytes, Fault>)
      requires Valid()
      modifies this`allocs, store.repr
      ensures store.repr == old(store.repr) && Agrees(r, ReadGate(plat, old(State()), g))
    {
      if |g.inputs| < 3 { return Failure(BadInputs); }
      var en :- GetIntVal(g.inputs[0]);
      var ptr :- GetGateVal(g.inputs[1]);
      var idx :- GetIntVal(g.inputs[2]);
      r := DoReadArray(Truthy(en), ptr, AsIndex(idx));
    }

    method DoReadArray(enable: bool, ptr: Bytes, idx: Option<nat>) returns (r: Result<Bytes, Fault>)
      requires Valid()
      modifies this`allocs, store.repr
      ensures store.repr == old(store.repr) && Agrees(r, ReadArray(plat, old(State()), enable, ptr, idx))
    {
      var desc :- GetArray(ptr);
      var val := FetchElem(desc, enable, idx);
      var out := OptBasic2bb(Some(desc));
      r := Success(out + val);
    }

    /** Reads through the hidden array; a read that is disabled or misses gives a new buffer. */
    method FetchElem(desc: int, enable: bool, idx: Option<nat>) returns (val: Bytes)
      requires Valid() && desc in store.arrays
      modifies this`allocs, store.repr
      ensures Valid() && store.repr == old(store.repr) && desc in plain && plain[desc].elemSize >= 1
      ensures val == ReadElem(plain[desc], enable, idx, plat.Buffer(old(allocs), plain[desc].elemSize))
      ensures State() == old(State()).(allocs := old(allocs) + if Hits(plain[desc], enable, idx) then 0 else 1)
    {
      store.Sizes(desc, plain);
      var hit := enable && idx.Some? && idx.value < store.arrays[desc].N;
      assert hit == Hits(plain[desc], enable, idx);
      var blank := plat.Buffer(allocs, store.arrays[desc].elemSize);
      ghost var m, p := State(), plain[desc];
      val := FetchInto(desc, enable, idx, blank);
      if !hit {
        UseBuffer();
        assert State() == m.(allocs := m.allocs + 1);
      }
      assert plain[desc] == p;
    }

    method FetchInto(desc: int, enable: bool, idx: Option<nat>, blank: Bytes) returns (val: Bytes)
      requires Valid() && desc in store.arrays && desc in plain && |blank| == plain[desc].elemSize >= 1
      modifies store.repr
      ensures Valid() && State() == old(State()) && store.repr == old(store.repr) && store.arrays == old(store.arrays)
      ensures val == ReadElem(plain[desc], enable, idx, blank)
    {
      store.Sizes(desc, plain);
      val := store.Read(desc, enable, idx, blank, plain);
    }

    method ConcatInputs(ks: seq<nat>) returns (r: Result<Bytes, Fault>)
      ensures r == Concat(State(), ks)
    {
      var all := [];
      for i := 0 to |ks|
        invariant Concat(State(), ks[..i]) == Success(all)
      {
        assert ks[..i + 1][..i] == ks[..i];
        var b := GetGateVal(ks[i]);
        if b.Failure? {
          ConcatFails(State(), ks, i + 1);
          return Failure(b.error);
        }
        all := all + b.value;
      }
      assert ks[..|ks|] == ks;
      r := Success(all);
    }

    lemma {:induction false} ConcatFails(m: Machine, ks: seq<nat>, i: nat)
      requires i <= |ks| && Concat(m, ks[..i]).Failure?
      ensures Concat(m, ks) == Concat(m, ks[..i])
      decreases |ks| - i
    {
      if i < |ks| {
        assert ks[..i + 1][..i] == ks[..i];
        ConcatFails(m, ks, i + 1);
      } else {
        assert ks[..i] == ks;
      }
    }

    method DoWriteGate(g: Gate) returns (r: Result<Bytes, Fault>)
      requires Valid() && g.op.WriteDynArray?
      modifies this, store.repr
      ensures store.repr == old(store.repr) && Agrees(r, WriteGate(plat, old(State()), g))
    {
      if |g.inputs| < 3 { return Failure(BadInputs); }
      var en :- GetIntVal(g.inputs[0]);
      var ptr :- GetGateVal(g.inputs[1]);
      var idx :- GetIntVal(g.inputs[2]);
      var val :- ConcatInputs(g.inputs[3..]);
      r := DoWriteArray(Truthy(en), ptr, g.op.off, g.op.total, AsIndex(idx), val);
    }

    method DoWriteArray(enable: bool, ptr: Bytes, off: nat, total: int, idx: Option<nat>, val: Bytes)
        returns (r: Result<Bytes, Fault>)
      requires Valid()
      modifies this, store.repr
      ensures store.repr == old(store.repr)
      ensures Agrees(r, WriteArray(plat, old(State()), enable, ptr, off, total, idx, val))
    {
      var desc :- GetArray(ptr);
      store.Sizes(desc, plain);
      if total >= 0 && total != |val| { return Failure(BadWrite); }
      if enable && idx.Some? && idx.value < store.arrays[desc].N && off + |val| > store.arrays[desc].elemSize {
        return Failure(BadWrite);
      }
      StoreElem(desc, enable, idx, off, val);
      var out := OptBasic2bb(Some(desc));
      r := Success(out);
    }

    method StoreElem(desc: int, enable: bool, idx: Option<nat>, off: nat, val: Bytes)
      requires Valid() && desc in store.arrays
      requires Hits(plain[desc], enable, idx) ==> off + |val| <= |plain[desc].elems[idx.value]|
      modifies this`plain, store.repr
      ensures Valid() && store.repr == old(store.repr)
      ensures State() == old(State()).(arrays := old(plain)[desc := WriteElem(old(plain)[desc], enable, idx, off, val)])
    {
      store.Sizes(desc, plain);
      ghost var m, after := State(), plain[desc := WriteElem(plain[desc], enable, idx, off, val)];
      store.Write(desc, enable, idx, off, val, plain);
      assert store.Valid(after) && State() == m;
      plain := after;
    }

    // -------------------------------------------------------------- outputs

    method PrintOutput(g: Gate, val: Bytes) returns (fault: Option<Fault>)
      requires Valid() && g.output
      modifies this`outputs, store.repr
      ensures store.repr == old(store.repr)
      ensures AgreesOn(fault, Emit(old(State()), g, val))
    {
      var v := AsOpt(val);
      if v.Failure? { return Some(v.error); }
      if g.kind.ScalarKind? {
        outputs := outputs + [ScalarOutput(g.comment, v.value)];
      } else if v.value.Some? {
        var desc := v.value.value;
        if desc !in store.arrays { return Some(NoSuchArray); }
        var vs := ReadWhole(desc);
        if vs.Failure? { return Some(vs.error); }
        outputs := outputs + [ArrayOutput(g.comment, vs.value)];
      }
      fault := None;
    }

    /** Reads the elements one after the other through the hidden array. */
    method ReadWhole(desc: int) returns (r: Result<seq<OptInt>, Fault>)
      requires Valid() && desc in store.arrays
      modifies store.repr
      ensures Valid() && State() == old(State()) && store.repr == old(store.repr)
      ensures desc in plain && r == Decoded(plain[desc].elems)
    {
      store.Sizes(desc, plain);
      ghost var elems := plain[desc].elems;
      var n := store.arrays[desc].N;
      var blank := seq(store.arrays[desc].elemSize, _ => 0);
      var vs := [];
      for i := 0 to n
        invariant Valid() && State() == old(State()) && store.repr == old(store.repr)
        invariant desc in store.arrays && store.arrays == old(store.arrays) && Decoded(elems[..i]) == Success(vs)
      {
        store.Sizes(desc, plain);
        var b := store.Read(desc, true, Some(i), blank, plain);
        var v := AsOpt(b);
        ghost var next := DecodeNext(elems, i, vs);
        if v.Failure? {
          DecodeFails(elems, next);
          return Failure(v.error);
        }
        vs := vs + [v.value];
      }
      assert elems[..n] == elems;
      r := Success(vs);
    }

    lemma DecodeNext(elems: seq<Bytes>, i: nat, vs: seq<OptInt>) returns (next: nat)
      requires i < |elems| && Decoded(elems[..i]) == Success(vs)
      ensures next == i + 1
      ensures Decoded(elems[..next]) == match AsOpt(elems[i])
                                        case Success(v) => Success(vs + [v])
                                        case Failure(f) => Failure(f)
    {
      next := i + 1;
      assert elems[..next][..i] == elems[..i];
    }

    lemma {:induction false} DecodeFails(elems: seq<Bytes>, i: nat)
      requires i <= |elems| && Decoded(elems[..i]).Failure?
      ensures Decoded(elems) == Decoded(elems[..i])
      decreases |elems| - i
    {
      if i < |elems| {
        assert elems[..i + 1][..i] == elems[..i];
        DecodeFails(elems, i + 1);
      } else {
        assert elems[..i] == elems;
      }
    }
  }
}
