/** What scalar circuits mean: every gate's value is an expression over the inputs, whatever the order in
    which the value table is filled. */
module CircuitMeaning {
  import opened Base
  import opened Words
  import opened NilArithmetic
  import opened Circuit

  /** The gates of a circuit by number. */
  type Gates = map<nat, Gate>

  /** Scalar gates with as many inputs as they need. */
  predicate IsScalar(g: Gate) {
    && g.kind.ScalarKind?
    && match g.op
       case Binary(_) => |g.inputs| == 2
       case Unary(_) => |g.inputs| == 1
       case Select => |g.inputs| == 3
       case Input => g.inputs == []
       case Lit(_) => g.inputs == []
       case _ => false
  }

  ghost predicate ScalarCircuit(c: Gates) {
    forall k :: k in c ==> c[k].num == k && IsScalar(c[k])
  }

  /** Every gate's inputs are gates of lower rank. */
  ghost predicate Ranked(c: Gates, rank: nat -> nat) {
    forall k, i :: k in c && 0 <= i < |c[k].inputs| ==> c[k].inputs[i] in c && rank(c[k].inputs[i]) < rank(k)
  }

  function SelectValue(sel: OptInt, x: OptInt, y: OptInt): OptInt {
    if Truthy(sel) then x else y
  }

  /** The value of a gate, given those of its inputs. */
  function Apply(op: Op, init: OptInt, args: seq<OptInt>, undef: Undefined): OptInt {
    match op
    case Binary(b) => if |args| == 2 then DoBinOp(b, args[0], args[1], undef) else None
    case Unary(u) => if |args| == 1 then DoUnOp(u, args[0], undef) else None
    case Select => if |args| == 3 then SelectValue(args[0], args[1], args[2]) else None
    case Lit(v) => Some(v)
    case _ => init
  }

  /** The meaning of gate k as an expression over the inputs. */
  ghost function Meaning(c: Gates, rank: nat -> nat, init: nat -> OptInt, undef: Undefined, k: nat): OptInt
    requires Ranked(c, rank) && k in c
    decreases rank(k)
  {
    Apply(c[k].op, init(k), seq(|c[k].inputs|, i requires 0 <= i < |c[k].inputs| =>
      Meaning(c, rank, init, undef, c[k].inputs[i])), undef)
  }

  // ---------------------------------------------------------------- filling the table

  /** An order in which every gate of the circuit comes once, after its inputs. */
  ghost predicate Orders(order: seq<Gate>, c: Gates) {
    && (forall i :: 0 <= i < |order| ==> order[i].num in c && c[order[i].num] == order[i])
    && (forall i, j :: 0 <= i < j < |order| ==> order[i].num != order[j].num)
    && (forall k :: k in c ==> exists i :: 0 <= i < |order| && order[i].num == k)
    && (forall i, l :: 0 <= i < |order| && 0 <= l < |order[i].inputs| ==> Precedes(order, i, order[i].inputs[l]))
  }

  ghost predicate Precedes(order: seq<Gate>, i: nat, k: nat)
    requires i <= |order|
  {
    exists j :: 0 <= j < i && order[j].num == k
  }

  /** Slot k of the table holds v, with any junk behind a Nil. */
  predicate Holds(vals: seq<Bytes>, k: nat, v: OptInt) {
    k < |vals| && |vals[k]| == WORD + 1 && BytesOpt(vals[k]) == v
  }

  /** The table has a slot for every gate, and those of the inputs hold their values. */
  ghost predicate Prepared(c: Gates, init: nat -> OptInt, vals: seq<Bytes>) {
    && (forall k :: k in c ==> k < |vals|)
    && (forall k :: k in c && c[k].op.Input? ==> Holds(vals, k, init(k)))
  }

  /** After i steps: the gates done hold their meanings, and the inputs their values. */
  ghost predicate FilledUpTo(c: Gates, rank: nat -> nat, init: nat -> OptInt, undef: Undefined,
                             order: seq<Gate>, i: nat, vals: seq<Bytes>)
    requires Ranked(c, rank) && Orders(order, c) && i <= |order|
  {
    Prepared(c, init, vals) &&
    forall j :: 0 <= j < i ==> Holds(vals, order[j].num, Meaning(c, rank, init, undef, order[j].num))
  }

  /** A scalar gate whose inputs are in the table puts its value into its slot. */
  lemma ScalarStep(plat: Platform, m: Machine, g: Gate, args: seq<OptInt>, init: OptInt)
    requires IsScalar(g) && g.num < |m.vals| && |args| == |g.inputs|
    requires forall i :: 0 <= i < |args| ==> Holds(m.vals, g.inputs[i], args[i])
    requires g.op.Input? ==> Holds(m.vals, g.num, init)
    ensures Step(plat, m, g).Success?
    ensures var vals := Step(plat, m, g).value.vals;
            Holds(vals, g.num, Apply(g.op, init, args, plat.undef)) && |vals| == |m.vals|
            && forall k :: 0 <= k < |vals| && k != g.num ==> vals[k] == m.vals[k]
  {
    var v := Apply(g.op, init, args, plat.undef);
    OptRoundTrip(v, plat.Buffer(m.allocs, WORD));
    ScalarResult(plat, m, g, args, init);
  }

  lemma ScalarResult(plat: Platform, m: Machine, g: Gate, args: seq<OptInt>, init: OptInt)
    requires IsScalar(g) && g.num < |m.vals| && |args| == |g.inputs|
    requires forall i :: 0 <= i < |args| ==> Holds(m.vals, g.inputs[i], args[i])
    requires g.op.Input? ==> Holds(m.vals, g.num, init)
    ensures GateResult(plat, m, g).Success?
    ensures var (val, m') := GateResult(plat, m, g).value;
            |val| == WORD + 1 && BytesOpt(val) == Apply(g.op, init, args, plat.undef) && m'.vals == m.vals
  {
    OptRoundTrip(Apply(g.op, init, args, plat.undef), plat.Buffer(m.allocs, WORD));
    match g.op
    case Binary(b) =>
      assert IntVal(m, g.inputs[0]) == Success(args[0]) && IntVal(m, g.inputs[1]) == Success(args[1]);
    case Unary(u) =>
      assert IntVal(m, g.inputs[0]) == Success(args[0]);
    case Select =>
      assert IntVal(m, g.inputs[0]) == Success(args[0]);
      assert Holds(m.vals, g.inputs[1], args[1]) && Holds(m.vals, g.inputs[2], args[2]);
    case Input =>
    case Lit(v) =>
  }

  /** Storing the meaning of one more gate. */
  lemma FillNext(c: Gates, rank: nat -> nat, init: nat -> OptInt, undef: Undefined, order: seq<Gate>, last: nat, i: nat,
                 vals: seq<Bytes>, vals': seq<Bytes>)
    requires Ranked(c, rank) && Orders(order, c) && i == last + 1 <= |order|
    requires FilledUpTo(c, rank, init, undef, order, last, vals) && |vals'| == |vals|
    requires var k := order[last].num;
             && Holds(vals', k, Meaning(c, rank, init, undef, k)) && (c[k].op.Input? ==> Holds(vals', k, init(k)))
             && forall l :: 0 <= l < |vals| && l != k ==> vals'[l] == vals[l]
    ensures FilledUpTo(c, rank, init, undef, order, i, vals')
  {
    forall k | k in c && c[k].op.Input?
      ensures Holds(vals', k, init(k))
    {
    }
    forall j | 0 <= j < i
      ensures Holds(vals', order[j].num, Meaning(c, rank, init, undef, order[j].num))
    {
      assert j < last ==> order[j].num != order[last].num;
      assert j < last ==> Holds(vals, order[j].num, Meaning(c, rank, init, undef, order[j].num));
    }
  }

  /** The arguments of the next gate are in the table, so its step stores its meaning. */
  lemma MeaningStep(plat: Platform, m: Machine, c: Gates, rank: nat -> nat, init: nat -> OptInt,
                    order: seq<Gate>, last: nat, i: nat)
    requires ScalarCircuit(c) && Ranked(c, rank) && Orders(order, c) && i == last + 1 <= |order|
    requires FilledUpTo(c, rank, init, plat.undef, order, last, m.vals)
    ensures Step(plat, m, order[last]).Success?
    ensures FilledUpTo(c, rank, init, plat.undef, order, i, Step(plat, m, order[last]).value.vals)
  {
    var g := order[last];
    var args := seq(|g.inputs|, l requires 0 <= l < |g.inputs| => Meaning(c, rank, init, plat.undef, g.inputs[l]));
    forall l | 0 <= l < |args|
      ensures Holds(m.vals, g.inputs[l], args[l])
    {
      assert Precedes(order, last, g.inputs[l]);
    }
    ScalarStep(plat, m, g, args, init(g.num));
    FillNext(c, rank, init, plat.undef, order, last, i, m.vals, Step(plat, m, g).value.vals);
  }

  lemma {:induction false} FillPrefix(plat: Platform, m: Machine, c: Gates, rank: nat -> nat, init: nat -> OptInt,
                                     order: seq<Gate>, i: nat)
    requires ScalarCircuit(c) && Ranked(c, rank) && Orders(order, c) && Prepared(c, init, m.vals) && i <= |order|
    ensures Eval(plat, m, order[..i]).Success?
    ensures FilledUpTo(c, rank, init, plat.undef, order, i, Eval(plat, m, order[..i]).value.vals)
    decreases i
  {
    if i > 0 {
      var last := i - 1;
      FillPrefix(plat, m, c, rank, init, order, last);
      var before := Eval(plat, m, order[..last]).value;
      MeaningStep(plat, before, c, rank, init, order, last, i);
      EvalNext(plat, m, order, last, i, before);
    }
  }

  /** Filling the table step by step gives every gate its meaning. */
  lemma FillIsMeaning(plat: Platform, m: Machine, c: Gates, rank: nat -> nat, init: nat -> OptInt,
                      order: seq<Gate>, k: nat)
    requires ScalarCircuit(c) && Ranked(c, rank) && Orders(order, c) && Prepared(c, init, m.vals) && k in c
    ensures Eval(plat, m, order).Success?
    ensures Holds(Eval(plat, m, order).value.vals, k, Meaning(c, rank, init, plat.undef, k))
  {
    FillPrefix(plat, m, c, rank, init, order, |order|);
    assert order[..|order|] == order;
  }

  /** Where a gate comes in an order. */
  ghost function Position(order: seq<Gate>, k: nat): (r: nat)
    ensures r <= |order|
    ensures r < |order| ==> order[r].num == k
    ensures r == |order| ==> forall i :: 0 <= i < |order| ==> order[i].num != k
  {
    if order == [] then 0
    else if order[|order| - 1].num == k then |order| - 1
    else
      var r := Position(order[..|order| - 1], k);
      if r == |order| - 1 then |order| else r
  }

  /** Any two orders of the same gates fill the table with the same values, whatever new buffers held
      in either run. */
  lemma OrderIrrelevant(plat1: Platform, plat2: Platform, m: Machine, c: Gates, init: nat -> OptInt,
                        order1: seq<Gate>, order2: seq<Gate>, k: nat)
    requires ScalarCircuit(c) && Orders(order1, c) && Orders(order2, c) && Prepared(c, init, m.vals) && k in c
    requires plat1.undef == plat2.undef
    ensures Eval(plat1, m, order1).Success? && Eval(plat2, m, order2).Success?
    ensures exists v :: Holds(Eval(plat1, m, order1).value.vals, k, v) && Holds(Eval(plat2, m, order2).value.vals, k, v)
  {
    var rank := (k: nat) => Position(order1, k);
    forall k, l | k in c && 0 <= l < |c[k].inputs|
      ensures c[k].inputs[l] in c && rank(c[k].inputs[l]) < rank(k)
    {
      PositionLess(order1, c, k, l);
    }
    FillIsMeaning(plat1, m, c, rank, init, order1, k);
    FillIsMeaning(plat2, m, c, rank, init, order2, k);
  }

  lemma PositionLess(order: seq<Gate>, c: Gates, k: nat, l: nat)
    requires Orders(order, c) && k in c && l < |c[k].inputs|
    ensures c[k].inputs[l] in c && Position(order, c[k].inputs[l]) < Position(order, k)
  {
    var i := Position(order, k);
    var x := c[k].inputs[l];
    assert Precedes(order, i, order[i].inputs[l]);
    var j :| 0 <= j < i && order[j].num == x;
    assert Position(order, x) == j;
  }

  // ---------------------------------------------------------------- Nil

  /** Gates through which Nil can only spread. */
  predicate Strict(op: Op) {
    op.Input? || op.Lit? || op.Binary? || (op.Unary? && !op.unop.LNot?)
  }

  /** In circuits of such gates, turning inputs into Nil can only turn values of gates into Nil. */
  lemma {:induction false} NilMonotone(c: Gates, rank: nat -> nat, init: nat -> OptInt, init': nat -> OptInt,
                                      undef: Undefined, k: nat)
    requires Ranked(c, rank) && k in c && forall i :: i in c ==> Strict(c[i].op) && IsScalar(c[i])
    requires forall i :: i in c ==> LessDefined(init(i), init'(i))
    ensures LessDefined(Meaning(c, rank, init, undef, k), Meaning(c, rank, init', undef, k))
    decreases rank(k)
  {
    var g := c[k];
    forall i | 0 <= i < |g.inputs|
      ensures LessDefined(Meaning(c, rank, init, undef, g.inputs[i]), Meaning(c, rank, init', undef, g.inputs[i]))
    {
      NilMonotone(c, rank, init, init', undef, g.inputs[i]);
    }
    if g.op.Binary? {
      BinOpMonotone(g.op.binop, Meaning(c, rank, init, undef, g.inputs[0]), Meaning(c, rank, init', undef, g.inputs[0]),
        Meaning(c, rank, init, undef, g.inputs[1]), Meaning(c, rank, init', undef, g.inputs[1]), undef);
    } else if g.op.Unary? {
      UnOpMonotone(g.op.unop, Meaning(c, rank, init, undef, g.inputs[0]),
        Meaning(c, rank, init', undef, g.inputs[0]), undef);
    }
  }

  /** A selection keeps this property exactly when it does not switch branches for want of a selector, or
      switches to a value that may stand in for the other. */
  lemma SelectMonotone(sel: OptInt, sel': OptInt, x: OptInt, x': OptInt, y: OptInt, y': OptInt)
    requires LessDefined(sel, sel') && LessDefined(x, x') && LessDefined(y, y')
    ensures LessDefined(SelectValue(sel, x, y), SelectValue(sel', x', y'))
       <==> (sel.None? && Truthy(sel') ==> LessDefined(y, x'))
  {
  }

  /** One gate of logical negation, or one selection, turns a defined value into another one when an
      input becomes Nil. */
  lemma NegationAndSelectionBreakIt(undef: Undefined)
    ensures LessDefined(None, Some(1))
    ensures Apply(Unary(LNot), None, [None], undef) == Some(1) && Apply(Unary(LNot), None, [Some(1)], undef) == Some(0)
    ensures Apply(Select, None, [None, Some(7), Some(8)], undef) == Some(8)
    ensures Apply(Select, None, [Some(1), Some(7), Some(8)], undef) == Some(7)
  {
  }
}
