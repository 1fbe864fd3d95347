/** What the integer expressions in template arguments compute, said by laws. */
module TemplateExprs {
  import opened Options
  import opened TemplateTypes

  type Values = map<string, int>

  // ---- when there is a value ----

  predicate PartOf(x: Expr, e: Expr) {
    x == e ||
    match e
    case Unary(_, a) => PartOf(x, a)
    case Bin(_, l, r) => PartOf(x, l) || PartOf(x, r)
    case _ => false
  }

  /** An expression of another kind, a name without a value, or a division by zero. */
  predicate Faulty(x: Expr, values: Values) {
    || x.Other?
    || (x.Name? && x.name !in values)
    || (x.Bin? && (x.op == Div || x.op == Mod) && EvalIntExpr(x.r, values) == Some(0))
  }

  /** Evaluation fails exactly when some part is faulty. */
  lemma {:induction false} FailsIff(e: Expr, values: Values)
    ensures EvalIntExpr(e, values) == None <==> exists x :: PartOf(x, e) && Faulty(x, values)
  {
    match e
    case Num(_) =>
    case Name(x) =>
      assert PartOf(e, e);
      assert Faulty(e, values) <==> x !in values;
    case Other =>
      assert PartOf(e, e);
      assert Faulty(e, values);
    case Unary(_, a) =>
      FailsIff(a, values);
      if x :| PartOf(x, a) && Faulty(x, values) { assert PartOf(x, e); }
    case Bin(_, l, r) =>
      FailsIff(l, values);
      FailsIff(r, values);
      if x :| PartOf(x, l) && Faulty(x, values) { assert PartOf(x, e); }
      if x :| PartOf(x, r) && Faulty(x, values) { assert PartOf(x, e); }
      if Faulty(e, values) { assert PartOf(e, e); }
  }

  // ---- what it is ----

  function Of(e: Expr, values: Values): int
    requires EvalIntExpr(e, values).Some?
  {
    EvalIntExpr(e, values).value
  }

  lemma Leaves(n: int, x: string, values: Values)
    ensures EvalIntExpr(Num(n), values) == Some(n)
    ensures x in values ==> EvalIntExpr(Name(x), values) == Some(values[x])
  {
  }

  /** Sums and differences undo each other; the signs are additive inverses. */
  lemma SumLaws(l: Expr, r: Expr, values: Values)
    requires EvalIntExpr(l, values).Some? && EvalIntExpr(r, values).Some?
    ensures EvalIntExpr(Bin(Sub, l, r), values).Some? && Of(Bin(Sub, l, r), values) + Of(r, values) == Of(l, values)
    ensures EvalIntExpr(Bin(Sub, Bin(Add, l, r), r), values) == EvalIntExpr(l, values)
    ensures EvalIntExpr(Bin(Add, l, r), values) == EvalIntExpr(Bin(Add, r, l), values)
    ensures EvalIntExpr(Unary(Minus, l), values).Some? && Of(Unary(Minus, l), values) + Of(l, values) == 0
    ensures EvalIntExpr(Unary(Plus, l), values) == EvalIntExpr(l, values)
    ensures EvalIntExpr(Unary(Complement, l), values).Some? && Of(Unary(Complement, l), values) + Of(l, values) == -1
  {
  }

  /** Products distribute over sums, one is neutral, and the sign comes out. */
  lemma ProductLaws(l: Expr, r: Expr, s: Expr, values: Values)
    requires EvalIntExpr(l, values).Some? && EvalIntExpr(r, values).Some? && EvalIntExpr(s, values).Some?
    ensures EvalIntExpr(Bin(Mul, l, r), values).Some?
    ensures EvalIntExpr(Bin(Mul, l, Bin(Add, r, s)), values)
         == EvalIntExpr(Bin(Add, Bin(Mul, l, r), Bin(Mul, l, s)), values)
    ensures EvalIntExpr(Bin(Mul, l, Num(1)), values) == EvalIntExpr(l, values)
    ensures EvalIntExpr(Bin(Mul, l, Unary(Minus, r)), values) == EvalIntExpr(Unary(Minus, Bin(Mul, l, r)), values)
  {
    var a, b, c := Of(l, values), Of(r, values), Of(s, values);
    ProductIs(l, r, values);
    ProductIs(l, s, values);
    ProductIs(l, Bin(Add, r, s), values);
    ProductIs(l, Num(1), values);
    ProductIs(l, Unary(Minus, r), values);
    Distribute(a, b, c);
    assert a * (-b) == -(a * b) by { NegTimes(b, a); }
  }

  lemma ProductIs(l: Expr, r: Expr, values: Values)
    requires EvalIntExpr(l, values).Some? && EvalIntExpr(r, values).Some?
    ensures EvalIntExpr(Bin(Mul, l, r), values) == Some(Of(l, values) * Of(r, values))
  {
  }

  lemma Distribute(a: int, b: int, c: int)
    ensures a * (b + c) == a * b + a * c
  {
  }

  /** Quotient and remainder of a truncating division: they recombine, the remainder is
      smaller than the divisor and has the sign of the dividend, and nothing else does. */
  predicate Truncates(a: int, b: int, q: int, m: int) {
    q * b + m == a && Amount(m) < Amount(b) && (m == 0 || (m > 0 <==> a > 0))
  }

  function Amount(a: int): nat {
    if a < 0 then -a else a
  }

  lemma DivisionLaws(l: Expr, r: Expr, values: Values)
    requires EvalIntExpr(l, values).Some? && EvalIntExpr(r, values).Some? && Of(r, values) != 0
    ensures EvalIntExpr(Bin(Div, l, r), values).Some? && EvalIntExpr(Bin(Mod, l, r), values).Some?
    ensures var q, m := Of(Bin(Div, l, r), values), Of(Bin(Mod, l, r), values);
      && Truncates(Of(l, values), Of(r, values), q, m)
      && forall q1, m1 :: Truncates(Of(l, values), Of(r, values), q1, m1) ==> q1 == q && m1 == m
  {
    var a, b := Of(l, values), Of(r, values);
    var q, m := Of(Bin(Div, l, r), values), Of(Bin(Mod, l, r), values);
    QuotientTruncates(a, b);
    forall q1, m1 | Truncates(a, b, q1, m1) ensures q1 == q && m1 == m {
      TruncatesOnce(a, b, q, m, q1, m1);
    }
  }

  lemma QuotientTruncates(a: int, b: int)
    requires b != 0
    ensures Truncates(a, b, Quotient(a, b), a - Quotient(a, b) * b)
  {
    DivMod(Amount(a), b);
    var q, r := Amount(a) / b, Amount(a) % b;
    assert Quotient(a, b) == if a >= 0 then q else -q;
    hide Quotient, Truncates;
    if a >= 0 { Forward(a, b, q, r); } else { Backward(a, b, q, r); }
  }

  lemma Forward(a: int, b: int, q: int, r: nat)
    requires a >= 0 && a - q * b == r && r < Amount(b)
    ensures Truncates(a, b, q, a - q * b)
  {
  }

  lemma Backward(a: int, b: int, q: int, r: nat)
    requires a < 0 && -a - q * b == r && r < Amount(b)
    ensures Truncates(a, b, -q, a - (-q) * b)
  {
    NegTimes(q, b);
  }

  lemma DivMod(n: int, b: int)
    requires b != 0
    ensures n - n / b * b == n % b && 0 <= n % b < Amount(b)
  {
  }

  lemma NegTimes(d: int, b: int)
    ensures (-d) * b == -(d * b)
  {
  }

  lemma TruncatesOnce(a: int, b: int, q: int, m: int, q1: int, m1: int)
    requires b != 0 && Truncates(a, b, q, m) && Truncates(a, b, q1, m1)
    ensures q == q1 && m == m1
  {
    var d := q - q1;
    assert d * b == q * b - q1 * b == m1 - m;
    NegTimes(d, b);
    if d >= 1 { Grows(d, b); }
    if d <= -1 { Grows(-d, b); }
  }

  lemma Grows(d: int, b: int)
    requires d >= 1
    ensures b >= 0 ==> d * b >= b
    ensures b <= 0 ==> d * b <= b
  {
  }

  // ---- binary digits ----

  /** Digit k of a two's-complement number of any length. */
  predicate Digit(a: int, k: nat)
    decreases k
  {
    if k == 0 then a % 2 == 1 else Digit(a / 2, k - 1)
  }

  lemma {:induction false} DigitwiseDigit(op: Op, a: int, b: int, k: nat)
    requires op == And || op == Or || op == Xor
    ensures Digit(Digitwise(op, a, b), k)
        <==> match op
             case And => Digit(a, k) && Digit(b, k)
             case Or => Digit(a, k) || Digit(b, k)
             case _ => Digit(a, k) != Digit(b, k)
    decreases k
  {
    var d := Digitwise(op, a, b);
    if Magnitude(a) + Magnitude(b) == 0 {
      if k > 0 { DigitwiseDigit(op, a, b, k - 1); }
    } else if k > 0 {
      assert d / 2 == Digitwise(op, a / 2, b / 2);
      DigitwiseDigit(op, a / 2, b / 2, k - 1);
    }
  }

  /** The bitwise operators act on every binary digit. */
  lemma BitwiseLaws(l: Expr, r: Expr, values: Values, k: nat)
    requires EvalIntExpr(l, values).Some? && EvalIntExpr(r, values).Some?
    ensures forall op <- {And, Or, Xor} :: EvalIntExpr(Bin(op, l, r), values).Some?
    ensures Digit(Of(Bin(And, l, r), values), k) <==> Digit(Of(l, values), k) && Digit(Of(r, values), k)
    ensures Digit(Of(Bin(Or, l, r), values), k) <==> Digit(Of(l, values), k) || Digit(Of(r, values), k)
    ensures Digit(Of(Bin(Xor, l, r), values), k) <==> Digit(Of(l, values), k) != Digit(Of(r, values), k)
  {
    DigitwiseDigit(And, Of(l, values), Of(r, values), k);
    DigitwiseDigit(Or, Of(l, values), Of(r, values), k);
    DigitwiseDigit(Xor, Of(l, values), Of(r, values), k);
  }

  /** A number is known by its digits. */
  lemma {:induction false} DigitsDecide(a: int, b: int)
    requires forall k: nat :: Digit(a, k) == Digit(b, k)
    ensures a == b
    decreases Magnitude(a) + Magnitude(b)
  {
    assert Digit(a, 0) == Digit(b, 0);
    if Magnitude(a) + Magnitude(b) != 0 {
      forall k: nat ensures Digit(a / 2, k) == Digit(b / 2, k) {
        assert Digit(a, k + 1) == Digit(b, k + 1);
      }
      DigitsDecide(a / 2, b / 2);
    }
  }
}
