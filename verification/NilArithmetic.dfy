/** Gate arithmetic on optional 32-bit integers. */
module NilArithmetic {
  import opened Base
  import opened Words

  type OptInt = Option<int32>

  datatype BinOp =
    | Plus | Minus | Times | Div | Mod
    | Eq | LT | GT | LTEq | GTEq | NEq
    | SR | SL
    | And | Or
    | BAnd | BOr | BXor

  datatype UnOp = Negate | LNot | BNot

  /** What the machine does where C++ leaves a result undefined: an overflowing sum, a shift by a bad
      amount. Nothing is assumed about it. */
  type Undefined = (BinOp, int32, int32) -> OptInt

  predicate Fits(v: int) { -0x8000_0000 <= v < 0x8000_0000 }

  /** Division that truncates toward zero. */
  function TruncDiv(x: int, y: int): int
    requires y != 0
  {
    if x >= 0 then if y > 0 then x / y else -(x / -y)
    else if y > 0 then -(-x / y) else -x / -y
  }

  function TruncMod(x: int, y: int): int
    requires y != 0
  {
    x - TruncDiv(x, y) * y
  }

  /** Quotient and remainder are those of C: they recombine, and the remainder is smaller than the
      divisor and has the sign of the dividend. */
  lemma TruncDivIsC(x: int, y: int)
    requires y != 0
    ensures x == TruncDiv(x, y) * y + TruncMod(x, y)
    ensures -Abs(y) < TruncMod(x, y) < Abs(y)
    ensures TruncMod(x, y) == 0 || (TruncMod(x, y) < 0 <==> x < 0)
  {
    var a, b := Abs(x), Abs(y);
    var q := a / b;
    assert a == q * b + a % b;
    assert TruncDiv(x, y) == if (x >= 0) == (y > 0) then q else -q;
    assert TruncDiv(x, y) * y == if x >= 0 then q * b else -(q * b);
  }

  function Abs(x: int): int { if x < 0 then -x else x }

  function Bool(b: bool): int32 { if b then 1 else 0 }

  /** The result of an operator on two values; a value that does not fit is left to the machine. */
  function Exact(op: BinOp, x: int32, y: int32, v: int, undef: Undefined): OptInt {
    if Fits(v) then Some(v) else undef(op, x, y)
  }

  /** The word whose lowest bits are those of a and b under a bitwise operator. */
  function BitwiseWord(op: BinOp, a: nat, b: nat, width: nat): (r: nat)
    requires op.BAnd? || op.BOr? || op.BXor?
    ensures r < Pow2(width)
  {
    if width == 0 then 0
    else 2 * BitwiseWord(op, a / 2, b / 2, width - 1) + if BitOp(op, a % 2 == 1, b % 2 == 1) then 1 else 0
  }

  predicate BitOp(op: BinOp, a: bool, b: bool)
    requires op.BAnd? || op.BOr? || op.BXor?
  {
    if op.BAnd? then a && b else if op.BOr? then a || b else a != b
  }

  function Bitwise(op: BinOp, x: int32, y: int32): int32
    requires op.BAnd? || op.BOr? || op.BXor?
  {
    Pow2OfWord();
    WordInt(BitwiseWord(op, IntWord(x), IntWord(y), WORD_BITS))
  }

  function OnValues(op: BinOp, x: int32, y: int32, undef: Undefined): OptInt
    requires !op.And? && !op.Or?
  {
    match op
    case Plus => Exact(op, x, y, x + y, undef)
    case Minus => Exact(op, x, y, x - y, undef)
    case Times => Exact(op, x, y, x * y, undef)
    case Div => if y == 0 then None else Exact(op, x, y, TruncDiv(x, y), undef)
    case Mod => if y == 0 then None else if x == -0x8000_0000 && y == -1 then undef(op, x, y)
                else Exact(op, x, y, TruncMod(x, y), undef)
    case Eq => Some(Bool(x == y))
    case LT => Some(Bool(x < y))
    case GT => Some(Bool(x > y))
    case LTEq => Some(Bool(x <= y))
    case GTEq => Some(Bool(x >= y))
    case NEq => Some(Bool(x != y))
    case SR => if 0 <= y < 32 then Exact(op, x, y, x / Pow2(y), undef) else undef(op, x, y)
    case SL => if 0 <= x && 0 <= y < 32 then Exact(op, x, y, x * Pow2(y), undef) else undef(op, x, y)
    case BAnd => Some(Bitwise(op, x, y))
    case BOr => Some(Bitwise(op, x, y))
    case BXor => Some(Bitwise(op, x, y))
  }

  function DoBinOp(op: BinOp, x: OptInt, y: OptInt, undef: Undefined): OptInt {
    if op.And? then
      if x == Some(0) then Some(0)
      else if y == Some(0) then Some(0)
      else if x == Some(1) && y == Some(1) then Some(1)
      else None
    else if op.Or? then
      if x == Some(1) then Some(1)
      else if y == Some(1) then Some(1)
      else if x == Some(0) && y == Some(0) then Some(0)
      else None
    else if x.None? || y.None? then None
    else OnValues(op, x.value, y.value, undef)
  }

  function DoUnOp(op: UnOp, x: OptInt, undef: Undefined): OptInt {
    match op
    case Negate => if x.None? then None else Exact(Minus, 0, x.value, 0 - x.value, undef)
    case BNot => if x.None? then None else Some(-1 - x.value)
    case LNot => if x.None? then Some(1) else Some(Bool(x.value == 0))
  }

  /** How a selector or an enable bit is taken: Nil counts as false. */
  predicate Truthy(x: OptInt) {
    x.Some? && x.value != 0
  }

  // ---------------------------------------------------------------- turning values into Nil

  /** x is y, or is Nil where y has a value. */
  predicate LessDefined(x: OptInt, y: OptInt) {
    x.None? || x == y
  }

  /** Turning arguments of a binary operator into Nil can only turn its result into Nil. */
  lemma BinOpMonotone(op: BinOp, x: OptInt, x': OptInt, y: OptInt, y': OptInt, undef: Undefined)
    requires LessDefined(x, x') && LessDefined(y, y')
    ensures LessDefined(DoBinOp(op, x, y, undef), DoBinOp(op, x', y', undef))
  {
  }

  /** The same holds of a unary operator exactly when it is not a logical negation whose argument
      loses a value other than zero. */
  lemma UnOpMonotone(op: UnOp, x: OptInt, x': OptInt, undef: Undefined)
    requires LessDefined(x, x')
    ensures LessDefined(DoUnOp(op, x, undef), DoUnOp(op, x', undef)) <==> !(op.LNot? && x.None? && Truthy(x'))
  {
  }

  // ---------------------------------------------------------------- enable bits of conditionals

  /** Nested conditionals: each leaf is a place where a write happens. */
  datatype Branches = Leaf | Cond(cond: OptInt, thn: Branches, els: Branches)

  function EnableThen(en: OptInt, cond: OptInt, undef: Undefined): OptInt {
    DoBinOp(And, en, cond, undef)
  }

  function EnableElse(en: OptInt, cond: OptInt, undef: Undefined): OptInt {
    DoBinOp(And, en, DoUnOp(LNot, cond, undef), undef)
  }

  /** Which leaves see an enable bit that lets their write through, from left to right. */
  function Enabled(b: Branches, en: OptInt, undef: Undefined): seq<bool> {
    match b
    case Leaf => [Truthy(en)]
    case Cond(c, thn, els) =>
      Enabled(thn, EnableThen(en, c, undef), undef) + Enabled(els, EnableElse(en, c, undef), undef)
  }

  function Leaves(b: Branches): nat {
    match b
    case Leaf => 1
    case Cond(_, thn, els) => Leaves(thn) + Leaves(els)
  }

  /** The leaf whose value nested Select gates pick. */
  function Selected(b: Branches): (k: nat)
    ensures k < Leaves(b)
  {
    match b
    case Leaf => 0
    case Cond(c, thn, els) => if Truthy(c) then Selected(thn) else Leaves(thn) + Selected(els)
  }

  /** On the way to the selected leaf, every condition is Nil, 0 or 1. */
  predicate BooleanPath(b: Branches) {
    match b
    case Leaf => true
    case Cond(c, thn, els) => c in {None, Some(0), Some(1)} && BooleanPath(if Truthy(c) then thn else els)
  }

  lemma {:induction false} DisabledStaysDisabled(b: Branches, en: OptInt, undef: Undefined)
    requires en in {None, Some(0)}
    ensures |Enabled(b, en, undef)| == Leaves(b)
    ensures forall k :: 0 <= k < Leaves(b) ==> !Enabled(b, en, undef)[k]
  {
    match b
    case Leaf =>
    case Cond(c, thn, els) =>
      DisabledStaysDisabled(thn, EnableThen(en, c, undef), undef);
      DisabledStaysDisabled(els, EnableElse(en, c, undef), undef);
  }

  /** Under an enabled root no leaf other than the one Select picks can write, and that one does write
      exactly when the conditions leading to it are Nil, 0 or 1. */
  lemma {:induction false} OneLeafWrites(b: Branches, undef: Undefined)
    ensures |Enabled(b, Some(1), undef)| == Leaves(b)
    ensures forall k :: 0 <= k < Leaves(b) ==> (Enabled(b, Some(1), undef)[k] <==> k == Selected(b) && BooleanPath(b))
  {
    match b
    case Leaf =>
    case Cond(c, thn, els) =>
      var t, e := EnableThen(Some(1), c, undef), EnableElse(Some(1), c, undef);
      if t == Some(1) { OneLeafWrites(thn, undef); } else { DisabledStaysDisabled(thn, t, undef); }
      if e == Some(1) { OneLeafWrites(els, undef); } else { DisabledStaysDisabled(els, e, undef); }
  }
}
