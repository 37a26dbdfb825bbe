/** Laws of single gates: what a step leaves in the gate's own slot, what it leaves alone, and what it
    prints. */
module GateLaws {
  import opened Base
  import opened Words
  import opened NilArithmetic
  import opened Circuit
  import opened OperatorLaws

  /** At most slot k of the table differs. */
  ghost predicate OnlySlot(m: Machine, m': Machine, k: nat) {
    |m'.vals| == |m.vals| && forall l :: 0 <= l < |m.vals| && l != k ==> m'.vals[l] == m.vals[l]
  }

  /** A step that stored x in the gate's slot and changed nothing else that a later gate can see. */
  ghost predicate Stored(m: Machine, m': Machine, k: nat, x: OptInt) {
    && OnlySlot(m, m', k) && IntVal(m', k) == Success(x)
    && m'.arrays == m.arrays && m'.next == m.next && m'.outputs == m.outputs
  }

  lemma EncodeRoundTrip(plat: Platform, m: Machine, x: OptInt)
    ensures var (b, m') := Encode(plat, m, x);
            |b| == WORD + 1 && AsOpt(b) == Success(x) && (b[0] != 0 <==> x.Some?) && m' == m.(allocs := m.allocs + 1)
  {
    OptRoundTrip(x, plat.Buffer(m.allocs, WORD));
  }

  // ---------------------------------------------------------------- scalar gates

  lemma BinaryStep(plat: Platform, m: Machine, g: Gate, op: BinOp, x: OptInt, y: OptInt) returns (m': Machine)
    requires g.op == Binary(op) && |g.inputs| == 2 && g.num < |m.vals| && !g.output
    requires IntVal(m, g.inputs[0]) == Success(x) && IntVal(m, g.inputs[1]) == Success(y)
    ensures Step(plat, m, g) == Success(m') && Stored(m, m', g.num, DoBinOp(op, x, y, plat.undef))
  {
    EncodeRoundTrip(plat, m, DoBinOp(op, x, y, plat.undef));
    m' := Step(plat, m, g).value;
  }

  lemma UnaryStep(plat: Platform, m: Machine, g: Gate, op: UnOp, x: OptInt) returns (m': Machine)
    requires g.op == Unary(op) && |g.inputs| == 1 && g.num < |m.vals| && !g.output
    requires IntVal(m, g.inputs[0]) == Success(x)
    ensures Step(plat, m, g) == Success(m') && Stored(m, m', g.num, DoUnOp(op, x, plat.undef))
  {
    EncodeRoundTrip(plat, m, DoUnOp(op, x, plat.undef));
    m' := Step(plat, m, g).value;
  }

  lemma LitStep(plat: Platform, m: Machine, g: Gate, v: int32) returns (m': Machine)
    requires g.op == Lit(v) && g.num < |m.vals| && !g.output
    ensures Step(plat, m, g) == Success(m') && Stored(m, m', g.num, Some(v))
  {
    EncodeRoundTrip(plat, m, Some(v));
    m' := Step(plat, m, g).value;
  }

  /** A scalar input that was in the table stays as it was. */
  lemma InputStep(plat: Platform, m: Machine, g: Gate, x: OptInt)
    requires g.op == Input && g.kind.ScalarKind? && IntVal(m, g.num) == Success(x) && !g.output
    ensures Step(plat, m, g) == Success(m)
  {
    assert m.vals[g.num := m.vals[g.num]] == m.vals;
  }

  /** Only a selector with a value other than 0 picks the first of the two. */
  lemma SelectStep(plat: Platform, m: Machine, g: Gate, sel: OptInt) returns (m': Machine)
    requires g.op == Select && g.kind.ScalarKind? && |g.inputs| == 3 && g.num < |m.vals| && !g.output
    requires IntVal(m, g.inputs[0]) == Success(sel) && g.inputs[1] < |m.vals| && g.inputs[2] < |m.vals|
    requires m.vals[if sel == None || sel == Some(0) then g.inputs[2] else g.inputs[1]] != []
    ensures Step(plat, m, g) == Success(m') && OnlySlot(m, m', g.num) && m'.arrays == m.arrays
    ensures m'.vals[g.num] == m.vals[if sel == None || sel == Some(0) then g.inputs[2] else g.inputs[1]]
  {
    m' := Step(plat, m, g).value;
  }

  /** Slicing a Nil, or beyond the end, gives a Nil of the length asked for. */
  lemma SlicerOfNil(plat: Platform, m: Machine, g: Gate, len: nat) returns (m': Machine)
    requires g.op.Slicer? && len == g.op.len > 0 && |g.inputs| >= 1 && g.num < |m.vals| && !g.output
    requires g.inputs[0] < |m.vals| && m.vals[g.inputs[0]] != []
    requires m.vals[g.inputs[0]][0] == 0 || |m.vals[g.inputs[0]]| < g.op.off + len
    ensures Step(plat, m, g) == Success(m') && OnlySlot(m, m', g.num) && m'.arrays == m.arrays
    ensures |m'.vals[g.num]| == len && forall i :: 0 <= i < len ==> m'.vals[g.num][i] == 0
    ensures len == WORD + 1 ==> IntVal(m', g.num) == Success(None)
  {
    m' := m.(vals := m.vals[g.num := seq(len, _ => 0)]);
  }

  /** A scalar gate with a wrong number of inputs, another gate with too few, or a selection of arrays. */
  predicate WrongInputs(g: Gate) {
    match g.op
    case Binary(_) => |g.inputs| != 2
    case Unary(_) => |g.inputs| != 1
    case Select => |g.inputs| != 3 || g.kind.ArrayKind?
    case Slicer(_, _) => |g.inputs| == 0
    case ReadDynArray => |g.inputs| < 3
    case WriteDynArray(_, _) => |g.inputs| < 3
    case _ => false
  }

  /** Gates with too few or too many inputs, and gates that print, stop the evaluation. */
  lemma MalformedGateFaults(plat: Platform, m: Machine, g: Gate)
    ensures WrongInputs(g) ==> Step(plat, m, g) == Failure(BadInputs)
    ensures g.op == Print ==> Step(plat, m, g) == Failure(PrintGate)
  {
  }

  /** The inputs that a gate reads as optional integers. */
  function Scalars(g: Gate): seq<nat> {
    match g.op
    case Binary(_) => g.inputs
    case Unary(_) => g.inputs
    case Select => g.inputs[..Min(1, |g.inputs|)]
    case ReadDynArray => g.inputs[..Min(3, |g.inputs|)]
    case WriteDynArray(_, _) => g.inputs[..Min(3, |g.inputs|)]
    case _ => []
  }

  /** A gate gets past its operands only if those slots are there and hold exactly one optional integer,
      and stores only into a slot that is there. */
  lemma OperandsAreScalars(plat: Platform, m: Machine, g: Gate, k: nat)
    requires Step(plat, m, g).Success?
    ensures k < |Scalars(g)| ==> Scalars(g)[k] < |m.vals| && |m.vals[Scalars(g)[k]]| == WORD + 1
    ensures g.op.Binary? || g.op.Unary? || g.op.Lit? || g.op.ReadDynArray? || g.op.WriteDynArray? ==> g.num < |m.vals|
    ensures g.op == Input && g.kind.ScalarKind? ==> g.num < |m.vals| && |m.vals[g.num]| == WORD + 1
  {
    if g.op.ReadDynArray? || g.op.WriteDynArray? { ArrayOperands(plat, m, g, k); }
  }

  lemma ArrayOperands(plat: Platform, m: Machine, g: Gate, k: nat)
    requires (g.op.ReadDynArray? || g.op.WriteDynArray?) && Step(plat, m, g).Success?
    ensures |g.inputs| >= 3 && g.num < |m.vals|
    ensures k < 3 ==> g.inputs[k] < |m.vals| && |m.vals[g.inputs[k]]| == WORD + 1
  {
    ArrayResultPrintsNothing(plat, m, g);
    assert IntVal(m, g.inputs[0]).Success? && IntVal(m, g.inputs[2]).Success?;
    assert AsOpt(m.vals[g.inputs[1]]).Success?;
  }

  /** An empty value is not stored. */
  lemma EmptyNotStored(plat: Platform, m: Machine, g: Gate)
    requires !g.output && GateResult(plat, m, g).Success? && GateResult(plat, m, g).value.0 == []
    ensures Step(plat, m, g) == Success(GateResult(plat, m, g).value.1)
    ensures Step(plat, m, g).value.vals == m.vals
  {
    ResultPrintsNothing(plat, m, g);
  }

  // ---------------------------------------------------------------- gates in a row

  /** The second part of a circuit starts from where the first has left the machine, if it has not
      stopped. */
  lemma {:induction false} EvalAppend(plat: Platform, m: Machine, first: seq<Gate>, rest: seq<Gate>)
    ensures Eval(plat, m, first + rest)
         == match Eval(plat, m, first)
            case Success(m') => Eval(plat, m', rest)
            case Failure(f) => Failure(f)
  {
    if rest == [] {
      assert first + rest == first;
    } else {
      var n := |rest| - 1;
      assert (first + rest)[..|first + rest| - 1] == first + rest[..n];
      EvalAppend(plat, m, first, rest[..n]);
    }
  }

  lemma TwoSteps(plat: Platform, m: Machine, g1: Gate, m1: Machine, g2: Gate, m2: Machine)
    requires Step(plat, m, g1) == Success(m1) && Step(plat, m1, g2) == Success(m2)
    ensures Eval(plat, m, [g1, g2]) == Success(m2)
  {
    assert [g1, g2][..1] == [g1] && [g1][..0] == [];
    assert Eval(plat, m, [g1]) == Success(m1);
  }

  lemma ThreeSteps(plat: Platform, m: Machine, g1: Gate, m1: Machine, g2: Gate, m2: Machine, g3: Gate, m3: Machine)
    requires Step(plat, m, g1) == Success(m1) && Step(plat, m1, g2) == Success(m2) && Step(plat, m2, g3) == Success(m3)
    ensures Eval(plat, m, [g1, g2, g3]) == Success(m3)
  {
    var three := [g1, g2, g3];
    TwoSteps(plat, m, g1, m1, g2, m2);
    assert three[..2] == [g1, g2];
  }

  lemma FourSteps(plat: Platform, m: Machine, g1: Gate, m1: Machine, g2: Gate, m2: Machine,
                  g3: Gate, m3: Machine, g4: Gate, m4: Machine)
    requires Step(plat, m, g1) == Success(m1) && Step(plat, m1, g2) == Success(m2)
    requires Step(plat, m2, g3) == Success(m3) && Step(plat, m3, g4) == Success(m4)
    ensures Eval(plat, m, [g1, g2, g3, g4]) == Success(m4)
  {
    var four := [g1, g2, g3, g4];
    ThreeSteps(plat, m, g1, m1, g2, m2, g3, m3);
    assert four[..3] == [g1, g2, g3];
  }

  /** Four gates that divide x by y, take the remainder, and put the two together again, give x back
      whenever the quotient is defined. */
  lemma DivModGates(plat: Platform, m: Machine, gd: Gate, gm: Gate, gt: Gate, gp: Gate,
                    a: nat, b: nat, x: int32, y: int32)
    requires y != 0 && !(x == INT_MIN && y == -1)
    requires IntVal(m, a) == Success(Some(x)) && IntVal(m, b) == Success(Some(y))
    requires Calculates(m, gd, Div, a, b) && Calculates(m, gm, Mod, a, b)
    requires Calculates(m, gt, Times, gd.num, b) && Calculates(m, gp, Plus, gt.num, gm.num)
    requires gd.num !in {a, b} && gm.num !in {b, gd.num} && gt.num != gm.num
    ensures Eval(plat, m, [gd, gm, gt, gp]).Success?
    ensures IntVal(Eval(plat, m, [gd, gm, gt, gp]).value, gp.num) == Success(Some(x))
  {
    var q, r := Calc(Div, x, y, plat.undef), Calc(Mod, x, y, plat.undef);
    var m1 := BinaryStep(plat, m, gd, Div, Some(x), Some(y));
    var m2 := BinaryStep(plat, m1, gm, Mod, Some(x), Some(y));
    var m3 := BinaryStep(plat, m2, gt, Times, q, Some(y));
    var t := DoBinOp(Times, q, Some(y), plat.undef);
    var m4 := BinaryStep(plat, m3, gp, Plus, t, r);
    DivAndModRecombine(x, y, plat.undef);
    FourSteps(plat, m, gd, m1, gm, m2, gt, m3, gp, m4);
  }

  ghost predicate Calculates(m: Machine, g: Gate, op: BinOp, a: nat, b: nat) {
    g.op == Binary(op) && g.inputs == [a, b] && g.num < |m.vals| && !g.output
  }

  // ---------------------------------------------------------------- outputs

  lemma ArrayResultPrintsNothing(plat: Platform, m: Machine, g: Gate)
    requires (g.op.ReadDynArray? || g.op.WriteDynArray?) && GateResult(plat, m, g).Success?
    ensures GateResult(plat, m, g).value.1.outputs == m.outputs && GateResult(plat, m, g).value.1.vals == m.vals
  {
  }

  lemma ResultPrintsNothing(plat: Platform, m: Machine, g: Gate)
    requires GateResult(plat, m, g).Success?
    ensures GateResult(plat, m, g).value.1.outputs == m.outputs && GateResult(plat, m, g).value.1.vals == m.vals
  {
    if g.op.ReadDynArray? || g.op.WriteDynArray? { ArrayResultPrintsNothing(plat, m, g); }
  }

  lemma {:induction false} DecodedElems(elems: seq<Bytes>, i: nat)
    requires Decoded(elems).Success? && i < |elems|
    ensures |Decoded(elems).value| == |elems| && AsOpt(elems[i]) == Success(Decoded(elems).value[i])
  {
    var last := |elems| - 1;
    if i < last {
      DecodedElems(elems[..last], i);
    } else if last > 0 {
      DecodedElems(elems[..last], 0);
    }
  }

  /** The printed array is vs, element by element. */
  ghost predicate Shown(arr: PlainArray, vs: seq<OptInt>) {
    |vs| == |arr.elems| && forall i :: 0 <= i < |vs| ==> AsOpt(arr.elems[i]) == Success(vs[i])
  }

  /** Only an output gate prints, and what it prints is the value in its own slot afterwards: a scalar,
      or all elements in order of the array it points to; a null pointer prints nothing. */
  lemma OutputIsOwnValue(plat: Platform, m: Machine, g: Gate, m': Machine)
    requires Step(plat, m, g) == Success(m')
    ensures !g.output ==> m'.outputs == m.outputs
    ensures g.output ==> IntVal(m', g.num).Success?
    ensures g.output && g.kind.ScalarKind? ==>
              m'.outputs == m.outputs + [ScalarOutput(g.comment, IntVal(m', g.num).value)]
    ensures g.output && g.kind.ArrayKind? ==>
              match IntVal(m', g.num).value
              case None => m'.outputs == m.outputs
              case Some(d) =>
                d in m'.arrays
                && exists vs :: Shown(m'.arrays[d], vs) && m'.outputs == m.outputs + [ArrayOutput(g.comment, vs)]
  {
    ResultPrintsNothing(plat, m, g);
    var (val, m1) := GateResult(plat, m, g).value;
    if g.output && g.kind.ArrayKind? && AsOpt(val).value.Some? {
      var elems := m1.arrays[AsOpt(val).value.value].elems;
      forall i | 0 <= i < |elems| { DecodedElems(elems, i); }
      assert Shown(m1.arrays[AsOpt(val).value.value], Decoded(elems).value);
    }
  }

  /** Marking a gate as an output changes nothing but what is printed. */
  lemma OutputApart(plat: Platform, m: Machine, g: Gate, m': Machine)
    requires Step(plat, m, g) == Success(m')
    ensures Step(plat, m, g.(output := false)) == Success(m'.(outputs := m.outputs))
  {
    ResultPrintsNothing(plat, m, g);
    assert GateResult(plat, m, g.(output := false)) == GateResult(plat, m, g);
  }
}
