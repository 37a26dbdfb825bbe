/** What the operators compute, as laws between their results: none of these speaks of how a result is
    worked out. */
module OperatorLaws {
  import opened Base
  import opened Words
  import opened NilArithmetic

  const INT_MIN: int32 := -0x8000_0000
  const INT_MAX: int32 := 0x7fff_ffff

  /** An operator on two values. */
  function Calc(op: BinOp, x: int32, y: int32, undef: Undefined): OptInt {
    DoBinOp(op, Some(x), Some(y), undef)
  }

  // ---------------------------------------------------------------- sums and products

  /** Plus counts upwards from its first argument. */
  lemma PlusCounts(x: int32, y: int32, undef: Undefined)
    ensures Calc(Plus, x, 0, undef) == Some(x)
    ensures 0 <= y < INT_MAX && Fits(x + y + 1) ==>
              Calc(Plus, x, y, undef).Some? && Calc(Plus, x, y, undef).value < INT_MAX
              && Calc(Plus, x, y + 1, undef) == Some(Calc(Plus, x, y, undef).value + 1)
    ensures Fits(x + y) ==> Calc(Plus, x, y, undef) == Calc(Plus, y, x, undef)
  {
  }

  /** Sums may be regrouped as long as they fit. */
  lemma PlusRegroups(x: int32, y: int32, z: int32, undef: Undefined)
    requires Fits(x + y) && Fits(y + z) && Fits(x + y + z)
    ensures DoBinOp(Plus, Calc(Plus, x, y, undef), Some(z), undef)
         == DoBinOp(Plus, Some(x), Calc(Plus, y, z, undef), undef)
  {
  }

  /** Minus takes back what Plus adds, and the other way round. */
  lemma MinusUndoesPlus(x: int32, y: int32, undef: Undefined)
    ensures Fits(x + y) ==> DoBinOp(Minus, Calc(Plus, x, y, undef), Some(y), undef) == Some(x)
    ensures Fits(x - y) ==> DoBinOp(Plus, Calc(Minus, x, y, undef), Some(y), undef) == Some(x)
  {
  }

  /** Times distributes over Plus, and 0 and 1 do what they should. */
  lemma TimesDistributes(x: int32, y: int32, z: int32, undef: Undefined)
    requires Fits(y + z) && Fits(x * y) && Fits(x * z) && Fits(x * (y + z))
    ensures Calc(Times, x, 0, undef) == Some(0) && Calc(Times, x, 1, undef) == Some(x)
    ensures Calc(Times, x, y, undef) == Calc(Times, y, x, undef)
    ensures DoBinOp(Times, Some(x), Calc(Plus, y, z, undef), undef)
         == DoBinOp(Plus, Calc(Times, x, y, undef), Calc(Times, x, z, undef), undef)
  {
    assert x * (y + z) == x * y + x * z;
  }

  /** These are left to the machine exactly when the result does not fit 32 bits. */
  lemma OverflowIsUndefined(x: int32, y: int32, undef: Undefined)
    ensures !Fits(x + y) ==> Calc(Plus, x, y, undef) == undef(Plus, x, y)
    ensures !Fits(x - y) ==> Calc(Minus, x, y, undef) == undef(Minus, x, y)
    ensures !Fits(x * y) ==> Calc(Times, x, y, undef) == undef(Times, x, y)
    ensures x == INT_MIN ==> DoUnOp(Negate, Some(x), undef) == undef(Minus, 0, x)
  {
  }

  // ---------------------------------------------------------------- quotients

  lemma NatQuotient(a: nat, b: nat, q: int)
    requires b > 0 && q == a / b
    ensures 0 <= q <= a && 0 <= q * b <= a && (b >= 2 ==> 2 * q <= a)
  {
    assert a == q * b + a % b;
    MulMonotone(0, q, b);
    MulMonotone(1, b, q);
    if b >= 2 { MulMonotone(2, b, q); }
  }

  /** A truncated quotient is no larger than the dividend, nor is its product with the divisor. */
  lemma QuotientSize(x: int, y: int, t: int)
    requires y != 0 && t == TruncDiv(x, y)
    ensures Abs(t) <= Abs(x) && Abs(t * y) <= Abs(x)
    ensures Abs(y) >= 2 ==> 2 * Abs(t) <= Abs(x)
  {
    var q := Abs(x) / Abs(y);
    NatQuotient(Abs(x), Abs(y), q);
    assert t == if (x >= 0) == (y > 0) then q else -q;
    assert t * y == if x >= 0 then q * Abs(y) else -(q * Abs(y));
  }

  /** Quotient and product fit, except for one quotient. */
  lemma QuotientFits(x: int32, y: int32, t: int)
    requires y != 0 && !(x == INT_MIN && y == -1) && t == TruncDiv(x, y)
    ensures Fits(t) && Fits(t * y) && t * y + TruncMod(x, y) == x
    ensures -Abs(y) < TruncMod(x, y) < Abs(y) && (TruncMod(x, y) == 0 || (TruncMod(x, y) < 0 <==> x < 0))
  {
    TruncDivIsC(x, y);
    QuotientSize(x, y, t);
    if y == 1 {
      assert t * y == t;
    } else if y == -1 {
      assert t * y == -t;
    }
    assert x >= 0 ==> t * y <= x;
  }

  /** Division by zero gives Nil. Otherwise quotient times divisor plus remainder is the dividend, and
      the remainder is smaller than the divisor and has the dividend's sign. Only the one quotient that
      does not fit is left to the machine. */
  lemma DivAndModRecombine(x: int32, y: int32, undef: Undefined)
    ensures y == 0 ==> Calc(Div, x, y, undef) == None && Calc(Mod, x, y, undef) == None
    ensures x == INT_MIN && y == -1 ==>
              Calc(Div, x, y, undef) == undef(Div, x, y) && Calc(Mod, x, y, undef) == undef(Mod, x, y)
    ensures y != 0 && !(x == INT_MIN && y == -1) ==>
              var q, r := Calc(Div, x, y, undef), Calc(Mod, x, y, undef);
              && q.Some? && r.Some? && -Abs(y) < r.value < Abs(y) && (r.value == 0 || (r.value < 0 <==> x < 0))
              && DoBinOp(Plus, DoBinOp(Times, q, Some(y), undef), r, undef) == Some(x)
  {
    if y != 0 && !(x == INT_MIN && y == -1) {
      QuotientFits(x, y, TruncDiv(x, y));
    }
  }

  // ---------------------------------------------------------------- comparisons

  /** Exactly one of LT, Eq and GT is 1 and the others are 0; what is less than y + 1 is less than y or
      equal to it, and nothing is less than the smallest integer; the other three comparisons follow. */
  lemma ComparisonsAgree(x: int32, y: int32, undef: Undefined)
    ensures var lt, eq, gt := Calc(LT, x, y, undef), Calc(Eq, x, y, undef), Calc(GT, x, y, undef);
            || (lt == Some(1) && eq == Some(0) && gt == Some(0))
            || (lt == Some(0) && eq == Some(1) && gt == Some(0))
            || (lt == Some(0) && eq == Some(0) && gt == Some(1))
    ensures Calc(Eq, x, y, undef) == Some(1) <==> x == y
    ensures Calc(LT, x, INT_MIN, undef) == Some(0)
    ensures y < INT_MAX ==>
              (Calc(LT, x, y + 1, undef) == Some(1) <==>
               Calc(LT, x, y, undef) == Some(1) || Calc(Eq, x, y, undef) == Some(1))
    ensures Calc(GT, x, y, undef) == Calc(LT, y, x, undef)
    ensures Calc(LTEq, x, y, undef) == DoUnOp(LNot, Calc(GT, x, y, undef), undef)
    ensures Calc(GTEq, x, y, undef) == DoUnOp(LNot, Calc(LT, x, y, undef), undef)
    ensures Calc(NEq, x, y, undef) == DoUnOp(LNot, Calc(Eq, x, y, undef), undef)
  {
  }

  /** In terms of the other operators: what is added to get from x to y, where it fits. */
  lemma LessIsPlusPositive(x: int32, y: int32, undef: Undefined)
    requires Fits(y - x)
    ensures Calc(LT, x, y, undef) == Some(1) <==>
              exists d: int32 :: d > 0 && Fits(x + d) && Calc(Plus, x, d, undef) == Some(y)
  {
    if x < y {
      var d: int32 := y - x;
      assert Calc(Plus, x, d, undef) == Some(y);
    }
  }

  // ---------------------------------------------------------------- truth tables

  /** A 0 decides And and a 1 decides Or, whatever the other argument; two ones, or two zeros, decide as
      well; anything else gives Nil. LNot takes Nil for false. */
  lemma TruthTables(x: OptInt, y: OptInt, undef: Undefined)
    ensures DoBinOp(And, x, y, undef) == Some(0) <==> x == Some(0) || y == Some(0)
    ensures DoBinOp(And, x, y, undef) == Some(1) <==> x == Some(1) && y == Some(1)
    ensures DoBinOp(Or, x, y, undef) == Some(1) <==> x == Some(1) || y == Some(1)
    ensures DoBinOp(Or, x, y, undef) == Some(0) <==> x == Some(0) && y == Some(0)
    ensures DoBinOp(And, x, y, undef) in {None, Some(0), Some(1)} && DoBinOp(Or, x, y, undef) in {None, Some(0), Some(1)}
    ensures DoUnOp(LNot, x, undef) == if x in {None, Some(0)} then Some(1) else Some(0)
  {
  }

  /** For 0 and 1, And and Or are each other's mirror image under LNot. */
  lemma DeMorgan(x: OptInt, y: OptInt, undef: Undefined)
    requires x in {Some(0), Some(1)} && y in {Some(0), Some(1)}
    ensures DoUnOp(LNot, DoBinOp(And, x, y, undef), undef)
         == DoBinOp(Or, DoUnOp(LNot, x, undef), DoUnOp(LNot, y, undef), undef)
  {
  }

  /** All other operators give Nil when an argument is Nil. */
  lemma StrictInNil(op: BinOp, unop: UnOp, x: OptInt, y: OptInt, undef: Undefined)
    requires x == None || y == None
    ensures !op.And? && !op.Or? ==> DoBinOp(op, x, y, undef) == None
    ensures !unop.LNot? ==> DoUnOp(unop, None, undef) == None
  {
  }

  // ---------------------------------------------------------------- shifts

  function Doubled(x: int, k: nat): int {
    if k == 0 then x else Doubled(x, k - 1) + Doubled(x, k - 1)
  }

  /** The half rounded down. */
  function Half(x: int): (h: int)
    ensures 2 * h <= x < 2 * h + 2
  {
    x / 2
  }

  function Halved(x: int, k: nat): int {
    if k == 0 then x else Half(Halved(x, k - 1))
  }

  lemma {:induction false} DoubledIsProduct(x: int, k: nat)
    ensures Doubled(x, k) == x * Pow2(k)
  {
    if k > 0 {
      DoubledIsProduct(x, k - 1);
      assert x * Pow2(k) == x * Pow2(k - 1) + x * Pow2(k - 1);
    }
  }

  /** Halving a quotient is dividing by twice the divisor. */
  lemma HalfOfQuotient(x: int, p: nat, q: int, h: int)
    requires p > 0 && q == x / p && h == Half(q)
    ensures x / (2 * p) == h
  {
    var r, odd := x % p, q - 2 * h;
    assert x == q * p + r;
    assert q * p == h * (2 * p) + odd * p;
    if odd == 0 { DivModUnique(x, 2 * p, h, r); } else { DivModUnique(x, 2 * p, h, p + r); }
  }

  lemma {:induction false} HalvedIsQuotient(x: int, k: nat)
    ensures Halved(x, k) == x / Pow2(k)
  {
    if k > 0 {
      HalvedIsQuotient(x, k - 1);
      HalfOfQuotient(x, Pow2(k - 1), Halved(x, k - 1), Halved(x, k));
    }
  }

  /** SL doubles y times, SR takes the half rounded down y times. The machine decides for an amount that
      is not below 32, a negative number shifted left, and a product that does not fit. */
  lemma ShiftsDoubleAndHalve(x: int32, y: int32, undef: Undefined)
    ensures 0 <= x && 0 <= y < 32 && Fits(Doubled(x, y)) ==> Calc(SL, x, y, undef) == Some(Doubled(x, y))
    ensures 0 <= y < 32 ==> Fits(Halved(x, y)) && Calc(SR, x, y, undef) == Some(Halved(x, y))
    ensures x < 0 || y < 0 || y >= 32 || !Fits(Doubled(x, y)) ==> Calc(SL, x, y, undef) == undef(SL, x, y)
    ensures y < 0 || y >= 32 ==> Calc(SR, x, y, undef) == undef(SR, x, y)
  {
    if y >= 0 {
      DoubledIsProduct(x, y);
      HalvedIsQuotient(x, y);
      HalvedFits(x, y);
    }
  }

  lemma {:induction false} HalvedFits(x: int32, k: nat)
    ensures Fits(Halved(x, k))
  {
    if k > 0 { HalvedFits(x, k - 1); }
  }

  // ---------------------------------------------------------------- bits

  /** Bit k of a number. */
  predicate BitOf(n: nat, k: nat) {
    if k == 0 then n % 2 == 1 else BitOf(n / 2, k - 1)
  }

  /** Bit k of an integer in two's complement. */
  predicate Bit(x: int32, k: nat) {
    BitOf(IntWord(x), k)
  }

  /** Two's complement: the words of successive integers are successive, from all ones to all zeros
      where the sign changes. */
  lemma TwosComplement(x: int32)
    requires x < INT_MAX
    ensures IntWord(0) == 0 && IntWord(-1) == WORD_LIMIT - 1
    ensures x != -1 ==> IntWord(x + 1) == IntWord(x) + 1
    ensures WordInt(IntWord(x)) == x
  {
  }

  lemma {:induction false} BitwiseWordBits(op: BinOp, a: nat, b: nat, width: nat, k: nat)
    requires (op.BAnd? || op.BOr? || op.BXor?) && k < width
    ensures BitOf(BitwiseWord(op, a, b, width), k) <==>
              if op.BAnd? then BitOf(a, k) && BitOf(b, k)
              else if op.BOr? then BitOf(a, k) || BitOf(b, k)
              else BitOf(a, k) != BitOf(b, k)
    decreases width
  {
    if k > 0 { BitwiseWordBits(op, a / 2, b / 2, width - 1, k - 1); }
  }

  lemma WordIntRoundTrip(n: nat)
    requires n < WORD_LIMIT
    ensures IntWord(WordInt(n)) == n
  {
  }

  lemma WordOfBitwise(op: BinOp, x: int32, y: int32, k: nat, width: nat)
    requires (op.BAnd? || op.BOr? || op.BXor?) && k < width == WORD_BITS
    ensures Bit(Bitwise(op, x, y), k) == BitOf(BitwiseWord(op, IntWord(x), IntWord(y), width), k)
  {
    Pow2OfWord();
    WordIntRoundTrip(BitwiseWord(op, IntWord(x), IntWord(y), width));
  }

  /** Every bit of a bitwise result follows from the same bits of the operands. */
  lemma BitwiseBits(op: BinOp, x: int32, y: int32, k: nat, undef: Undefined)
    requires (op.BAnd? || op.BOr? || op.BXor?) && k < WORD_BITS
    ensures Calc(op, x, y, undef).Some?
    ensures Bit(Calc(op, x, y, undef).value, k) <==>
              if op.BAnd? then Bit(x, k) && Bit(y, k)
              else if op.BOr? then Bit(x, k) || Bit(y, k)
              else Bit(x, k) != Bit(y, k)
  {
    assert Calc(op, x, y, undef) == Some(Bitwise(op, x, y));
    WordOfBitwise(op, x, y, k, WORD_BITS);
    BitwiseWordBits(op, IntWord(x), IntWord(y), WORD_BITS, k);
  }

  lemma {:induction false} ComplementBits(n: nat, width: nat, k: nat)
    requires n < Pow2(width) && k < width
    ensures BitOf(Pow2(width) - 1 - n, k) <==> !BitOf(n, k)
    decreases width
  {
    if k > 0 {
      assert (Pow2(width) - 1 - n) / 2 == Pow2(width - 1) - 1 - n / 2;
      ComplementBits(n / 2, width - 1, k - 1);
    }
  }

  lemma {:induction false} BitsDetermineNat(a: nat, b: nat, width: nat)
    requires a < Pow2(width) && b < Pow2(width)
    requires forall k: nat :: k < width ==> BitOf(a, k) == BitOf(b, k)
    ensures a == b
    decreases width
  {
    if width > 0 {
      assert BitOf(a, 0) == BitOf(b, 0);
      forall k: nat | k < width - 1 ensures BitOf(a / 2, k) == BitOf(b / 2, k) {
        assert BitOf(a, k + 1) == BitOf(b, k + 1);
      }
      BitsDetermineNat(a / 2, b / 2, width - 1);
    }
  }

  /** The 32 bits determine the integer, so the laws on bits say all about a result. */
  lemma BitsDetermine(x: int32, y: int32)
    requires forall k: nat :: k < WORD_BITS ==> Bit(x, k) == Bit(y, k)
    ensures x == y
  {
    Pow2OfWord();
    forall k: nat | k < WORD_BITS ensures BitOf(IntWord(x), k) == BitOf(IntWord(y), k) { assert Bit(x, k) == Bit(y, k); }
    BitsDetermineNat(IntWord(x), IntWord(y), WORD_BITS);
  }

  /** BNot turns every bit over. */
  lemma BNotBits(x: int32, k: nat, undef: Undefined)
    requires k < WORD_BITS
    ensures var r := DoUnOp(BNot, Some(x), undef); r.Some? && (Bit(r.value, k) <==> !Bit(x, k))
  {
    Pow2OfWord();
    ComplementBits(IntWord(x), WORD_BITS, k);
  }

  /** BNot undoes itself; so does Negate wherever its result fits, and the two values add up to 0. */
  lemma UnaryInverses(x: int32, undef: Undefined)
    ensures DoUnOp(BNot, DoUnOp(BNot, Some(x), undef), undef) == Some(x)
    ensures x != INT_MIN ==>
              && DoUnOp(Negate, DoUnOp(Negate, Some(x), undef), undef) == Some(x)
              && DoBinOp(Plus, DoUnOp(Negate, Some(x), undef), Some(x), undef) == Some(0)
  {
  }
}
