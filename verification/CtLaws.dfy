/** Folded comparisons, connectives and small sums in terms of the integers alone. */
module CtLaws {
  import opened Options
  import opened Arith
  import opened CtArith

  /** The folded bool: present, one bit wide, and 1 or 0. */
  ghost predicate Says(r: Option<CtValue>, b: bool) {
    r.Some? && Valid(r.value) && Val(r.value) == (if b then 1 else 0) && r.value.Int? && r.value.isBool
  }

  lemma BoolSays(b: bool)
    ensures Says(Some(BoolResult(b)), b)
  {
    BoolResultIs(b);
    NormalizeIntIsRep(if b then 1 else 0, 1, true, true);
  }

  /** Values of the same signedness: each operator gives the truth about the integers. */
  lemma ComparesIntegers(left: CtValue, right: CtValue, result: Option<IntInfo>)
    requires Valid(left) && Valid(right) && OperandUnsigned(left) == OperandUnsigned(right)
    ensures Says(Binary(left, right, Eq, result), Val(left) == Val(right))
    ensures Says(Binary(left, right, NotEq, result), Val(left) != Val(right))
    ensures Says(Binary(left, right, Lt, result), Val(left) < Val(right))
    ensures Says(Binary(left, right, Gt, result), Val(left) > Val(right))
    ensures Says(Binary(left, right, Le, result), Val(left) <= Val(right))
    ensures Says(Binary(left, right, Ge, result), Val(left) >= Val(right))
  {
    hide Binary, Says, Valid, Val, BoolResult, OperandUnsigned;
    forall op | IsOrdering(op) ensures Says(Binary(left, right, op, result), Compare(op, Val(left), Val(right))) {
      CompareExact(left, right, op, result);
      BoolSays(Compare(op, Val(left), Val(right)));
    }
  }

  lemma TruthyIs(v: CtValue)
    requires Valid(v)
    ensures Truthy(v) <==> Val(v) != 0
  {
    if v.Int? && v.isUnsigned {
      hide *;
      UnsignedZero(v.intVal);
      WordIs(v);
    }
  }

  lemma WordIs(v: CtValue)
    requires Valid(v) && v.Int? && v.isUnsigned
    ensures 0 - Pow2(63) <= v.intVal < Pow2(63) && Val(v) == Wrap(v.intVal) && (Truthy(v) <==> v.intVal != 0)
  {
  }

  lemma UnsignedZero(x: int)
    ensures 0 - Pow2(63) <= x < Pow2(63) ==> (Wrap(x) == 0 <==> x == 0)
  {
    if 0 - Pow2(63) <= x < Pow2(63) {
      Pow2Double(63);
      hide Pow2;
      if x >= 0 { Small(x, Pow2(64)); } else { ModUnique(x, -1, x + Pow2(64), Pow2(64)); }
    }
  }

  /** The connectives of two operands are those of "is not zero". */
  lemma ConnectsTruth(left: CtValue, right: CtValue, result: Option<IntInfo>)
    requires Valid(left) && Valid(right)
    ensures Says(Binary(left, right, And, result), Val(left) != 0 && Val(right) != 0)
    ensures Says(Binary(left, right, Or, result), Val(left) != 0 || Val(right) != 0)
  {
    TruthyIs(left);
    TruthyIs(right);
    Connects(left, right, result);
    BoolSays(Truthy(left) && Truthy(right));
    BoolSays(Truthy(left) || Truthy(right));
  }

  lemma Connects(left: CtValue, right: CtValue, result: Option<IntInfo>)
    requires Valid(left) && Valid(right)
    ensures Binary(left, right, And, result) == Some(BoolResult(Truthy(left) && Truthy(right)))
    ensures Binary(left, right, Or, result) == Some(BoolResult(Truthy(left) || Truthy(right)))
  {
    hide *;
    Connective(left, right, And, result);
    Connective(left, right, Or, result);
  }

  lemma Connective(left: CtValue, right: CtValue, op: Op, result: Option<IntInfo>)
    requires Valid(left) && Valid(right) && (op == And || op == Or)
    ensures Binary(left, right, op, result)
         == Some(BoolResult(if op == And then Truthy(left) && Truthy(right) else Truthy(left) || Truthy(right)))
  {
    CompareType(left, right, op, result);
    hide Pow2, Masked, SignExtend, BoolResult, Truthy, NormalizeInt, Valid, OpType, Fold, IsOrdering;
  }

  // ---- the type an operation is carried out at ----

  /** A requested type is taken; without one, operands narrower than 32 bits are computed on as
      signed 32-bit integers, and any others at the greater width, unsigned if one of them is. */
  lemma OperationType(left: CtValue, right: CtValue, op: Op, result: Option<IntInfo>)
    requires Valid(left) && Valid(right) && !IsComparison(op)
    ensures var t := OpType(left, right, op, result);
      && (result.Some? && result.value.bits <= 64 ==> t == result.value)
      && (result == None ==>
            && t.bits >= OperandBits(left) && t.bits >= OperandBits(right) && t.bits >= 32
            && (t.bits > 32 ==> t.bits == OperandBits(left) || t.bits == OperandBits(right))
            && (t.isUnsigned <==>
                  && (OperandUnsigned(left) || OperandUnsigned(right))
                  && (OperandBits(left) >= 32 || OperandBits(right) >= 32)))
  {
  }

  /** Sums and differences of operands narrower than 31 bits do not wrap. */
  lemma SmallSums(left: CtValue, right: CtValue)
    requires Valid(left) && Valid(right) && OperandBits(left) < 31 && OperandBits(right) < 31
    ensures ValOf(Binary(left, right, Add, None)) == Some(Val(left) + Val(right))
    ensures ValOf(Binary(left, right, Sub, None)) == Some(Val(left) - Val(right))
  {
    hide *;
    SumIs(left, right, Add);
    SumIs(left, right, Sub);
    SmallRange(left);
    SmallRange(right);
    Pow2Double(30);
    InSigned32(Val(left) + Val(right));
    InSigned32(Val(left) - Val(right));
  }

  lemma SumIs(left: CtValue, right: CtValue, op: Op)
    requires Valid(left) && Valid(right) && OperandBits(left) < 31 && OperandBits(right) < 31
      && (op == Add || op == Sub)
    ensures ValOf(Binary(left, right, op, None))
         == Some(Rep(if op == Add then Val(left) + Val(right) else Val(left) - Val(right), 32, false))
  {
    hide *;
    Sums(op);
    Signed32(left, right, op);
    BinaryExact(left, right, op, None);
    ExactSum(op, Val(left), Val(right), ShiftCount(Masked(right, 32), 32), ValOf(Binary(left, right, op, None)));
  }

  lemma Sums(op: Op)
    requires op == Add || op == Sub
    ensures IsSum(op) && !IsComparison(op) && TypeOk(None)
  {
  }

  lemma ExactSum(op: Op, A: int, B: int, k: nat, v: Option<int>)
    requires (op == Add || op == Sub) && IsExact(op, A, B, k, IntInfo(32, false), v)
    ensures v == Some(Rep(if op == Add then A + B else A - B, 32, false))
  {
    hide Rep;
  }

  lemma Signed32(left: CtValue, right: CtValue, op: Op)
    requires Valid(left) && Valid(right) && OperandBits(left) < 31 && OperandBits(right) < 31 && !IsComparison(op)
    ensures OpType(left, right, op, None) == IntInfo(32, false)
  {
  }

  lemma SmallRange(v: CtValue)
    requires Valid(v) && OperandBits(v) < 31
    ensures 0 - Pow2(30) <= Val(v) < Pow2(30)
  {
    hide Pow2;
    match v
    case Char(_) =>
      Byte();
      Pow2Mono(7, 30);
    case Int(_, bits, u, _) =>
      hide Val, Wrap;
      Pow2Mono(bits, 30);
      Pow2Mono(bits - 1, 30);
  }

  lemma InSigned32(x: int)
    requires 0 - Pow2(31) <= x < Pow2(31)
    ensures Rep(x, 32, false) == x
  {
    Same(x, Pow2(32));
    RepUnique(x, x, 32, false);
  }
}
