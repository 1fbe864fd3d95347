/** Compile-time integers: 64-bit patterns with a width and a signedness, and the operators
    folded on them. */
module CtArith {
  import opened Options
  import opened Arith
  import BitInt

  datatype CtValue =
    | Int(intVal: int, bits: nat, isUnsigned: bool, isBool: bool)
    | Char(charVal: int)

  datatype Op = Add | Sub | Mul | Div | Mod | BitAnd | BitOr | BitXor | LShift | RShift
              | Eq | NotEq | Lt | Gt | Le | Ge | And | Or

  /** The width and signedness of an integer result type. */
  datatype IntInfo = IntInfo(bits: nat, isUnsigned: bool)

  // ---- 64-bit machine words ----

  function Wrap(x: int): (r: nat)
    ensures r < Pow2(64)
  {
    x % Pow2(64)
  }

  /** The cast from uint64 to int64. */
  function AsSigned(x: nat): int
    requires x < Pow2(64)
  {
    if x < Pow2(63) then x else x - Pow2(64)
  }

  function AndWord(a: nat, b: nat): nat {
    BitInt.ToNat(BitInt.And(BitInt.FromNat(a, 64), BitInt.FromNat(b, 64)))
  }

  function OrWord(a: nat, b: nat): nat {
    BitInt.ToNat(BitInt.Or(BitInt.FromNat(a, 64), BitInt.FromNat(b, 64)))
  }

  function XorWord(a: nat, b: nat): nat {
    BitInt.ToNat(BitInt.Xor(BitInt.FromNat(a, 64), BitInt.FromNat(b, 64)))
  }

  function MaskFor(bits: nat): nat {
    if bits >= 64 then Pow2(64) - 1 else if bits == 0 then 0 else Pow2(bits) - 1
  }

  function SignExtend(raw: nat, bits: nat): int
    requires raw < Pow2(64)
  {
    if bits == 0 then 0
    else if bits >= 64 then AsSigned(raw)
    else
      var sign := Pow2(bits - 1);
      AsSigned(Wrap(XorWord(AndWord(raw, MaskFor(bits)), sign) - sign))
  }

  function Clamp(bits: nat): nat {
    if bits == 0 then 1 else if bits > 64 then 64 else bits
  }

  function NormalizeInt(raw: nat, bits: nat, isUnsigned: bool, isBool: bool): CtValue
    requires raw < Pow2(64)
  {
    var bits := Clamp(bits);
    MaskBound(raw, MaskFor(bits));
    Int(if isUnsigned then AsSigned(AndWord(raw, MaskFor(bits))) else SignExtend(raw, bits), bits, isUnsigned, isBool)
  }

  lemma MaskBound(a: nat, b: nat)
    ensures AndWord(a, b) < Pow2(64)
  {
    BitInt.ToNatBound(BitInt.And(BitInt.FromNat(a, 64), BitInt.FromNat(b, 64)));
  }

  // ---- what a value means ----

  /** Unsigned values are read through the 64-bit pattern, others as they are. */
  function Val(v: CtValue): int {
    match v
    case Char(c) => c
    case Int(x, _, u, _) => if u then Wrap(x) else x
  }

  /** The representative of x modulo 2^bits in the range of the type. */
  function Rep(x: int, bits: nat, isUnsigned: bool): int
    requires bits > 0
  {
    var r := x % Pow2(bits);
    if isUnsigned || r < Pow2(bits - 1) then r else r - Pow2(bits)
  }

  predicate InRange(x: int, bits: nat, isUnsigned: bool) {
    if isUnsigned then 0 <= x < Pow2(bits)
    else bits > 0 && 0 - Pow2(bits - 1) <= x < Pow2(bits - 1)
  }

  predicate Valid(v: CtValue) {
    match v
    case Char(c) => -128 <= c < 128
    case Int(x, bits, u, _) => 1 <= bits <= 64 && InRange(x, 64, false) && InRange(Val(v), bits, u)
  }

  // ---- masking and sign extension are arithmetic modulo 2^bits ----

  lemma MaskIsMod(raw: nat, bits: nat)
    requires raw < Pow2(64) && bits <= 64
    ensures AndWord(raw, MaskFor(bits)) == raw % Pow2(bits)
  {
    hide Pow2;
    var w := BitInt.FromNat(raw, 64);
    var m := BitInt.FromNat(MaskFor(bits), 64);
    Pow2Zero();
    BitInt.OnesBits(bits, 64);
    hide BitInt.ToNat, BitInt.FromNat;
    assert BitInt.And(w, m) == BitInt.ZExt(w[..bits], 64);
    BitInt.ZExtKeeps(w[..bits], 64);
    BitInt.TruncIsMod(w, bits);
    BitInt.ToNatFromNat(raw, 64);
    Small(raw, Pow2(64));
  }

  lemma Small(x: nat, m: nat)
    requires x < m
    ensures x % m == x
  {
    ModUnique(x, 0, x, m);
  }

  lemma Pow2Zero()
    ensures Pow2(0) == 1
  {
  }

  lemma XorSign(r: nat, k: nat)
    requires k < 63 && r < Pow2(k + 1)
    ensures XorWord(r, Pow2(k)) == if r < Pow2(k) then r + Pow2(k) else r - Pow2(k)
  {
    hide Pow2, BitInt.ToNat, BitInt.FromNat;
    var w := BitInt.FromNat(r, 64);
    BitInt.PowerBits(k, 64);
    Pow2Mono(k + 1, 64);
    BitInt.ToNatFromNat(r, 64);
    Small(r, Pow2(64));
    BitInt.FlipBit(w, k);
    assert BitInt.Xor(w, BitInt.FromNat(Pow2(k), 64)) == w[..k] + [!w[k]] + w[k + 1..];
  }

  lemma {:induction false} Pow2Mono(a: nat, b: nat)
    requires a <= b
    ensures Pow2(a) <= Pow2(b)
  {
    if a < b { Pow2Mono(a, b - 1); }
  }

  lemma Pow2Double(n: nat)
    ensures Pow2(n + 1) == 2 * Pow2(n)
  {
  }

  /** (raw ^ sign) - sign on the masked pattern is the two's-complement representative. */
  lemma SignExtendIsRep(raw: nat, bits: nat)
    requires raw < Pow2(64) && 1 <= bits <= 64
    ensures SignExtend(raw, bits) == Rep(raw, bits, false)
  {
    hide Pow2, XorWord, AndWord, MaskFor;
    Pow2Double(63);
    Pow2Double(bits - 1);
    if bits == 64 {
      Small(raw, Pow2(64));
    } else {
      var r := raw % Pow2(bits);
      var k := bits - 1;
      MaskIsMod(raw, bits);
      XorSign(r, k);
      Pow2Mono(bits, 63);
      var d := XorWord(r, Pow2(k)) - Pow2(k);
      if r < Pow2(k) {
        Small(d, Pow2(64));
      } else {
        ModUnique(d, -1, d + Pow2(64), Pow2(64));
      }
    }
  }

  lemma RepIs(x: int, bits: nat, isUnsigned: bool)
    requires bits > 0
    ensures InRange(Rep(x, bits, isUnsigned), bits, isUnsigned)
    ensures Rep(x, bits, isUnsigned) == x % Pow2(bits) || Rep(x, bits, isUnsigned) == x % Pow2(bits) - Pow2(bits)
  {
    Pow2Double(bits - 1);
    hide Pow2;
  }

  lemma RepCongruent(x: int, bits: nat, isUnsigned: bool)
    requires bits > 0
    ensures Cong(Rep(x, bits, isUnsigned), x, Pow2(bits))
  {
    hide Pow2;
    CongMod(x, Pow2(bits));
    var r := x % Pow2(bits);
    CongIntro(r - Pow2(bits), r, -1, Pow2(bits));
  }

  /** Every integer has exactly one representative in a type's range. */
  lemma RepUnique(x: int, y: int, bits: nat, isUnsigned: bool)
    requires bits > 0
    ensures InRange(y, bits, isUnsigned) && Cong(y, x, Pow2(bits)) <==> y == Rep(x, bits, isUnsigned)
  {
    Pow2Double(bits - 1);
    RepIs(x, bits, isUnsigned);
    RepCongruent(x, bits, isUnsigned);
    if InRange(y, bits, isUnsigned) && Cong(y, x, Pow2(bits)) {
      var z, m := Rep(x, bits, isUnsigned), Pow2(bits);
      hide Pow2, Rep;
      assert Cong(y, z, m);
      hide Cong;
      CongUnique(y, z, m, if isUnsigned then 0 else 0 - Pow2(bits - 1));
    }
  }

  lemma SignedBack(x: nat)
    requires x < Pow2(64)
    ensures AsSigned(x) == Rep(x, 64, false) && Wrap(AsSigned(x)) == x
  {
    hide Pow2;
    Pow2Double(63);
    Small(x, Pow2(64));
    if x >= Pow2(63) { ModUnique(x - Pow2(64), -1, x, Pow2(64)); }
  }

  /** Normalising yields the unique value of the type congruent to the pattern. */
  lemma NormalizeIntIsRep(raw: nat, bits: nat, isUnsigned: bool, isBool: bool)
    requires raw < Pow2(64)
    ensures var v, b := NormalizeInt(raw, bits, isUnsigned, isBool), Clamp(bits);
      Valid(v) && v == Int(v.intVal, b, isUnsigned, isBool) && Val(v) == Rep(raw, b, isUnsigned)
  {
    hide Pow2, AndWord, SignExtend, MaskFor;
    var b := Clamp(bits);
    MaskIsMod(raw, b);
    SignExtendIsRep(raw, b);
    SignedBack(raw % Pow2(b));
    RepUnique(raw, Rep(raw, b, isUnsigned), b, isUnsigned);
    Pow2Mono(b, 64);
    RepUnique(raw % Pow2(b), AsSigned(raw % Pow2(b)), 64, false);
    Pow2Mono(b - 1, 63);
  }

  // ---- the folded operators ----

  /** Division and remainder truncate toward zero. */
  function TDiv(a: int, b: int): int
    requires b != 0
  {
    if a >= 0 then a / b else 0 - ((0 - a) / b)
  }

  function TMod(a: int, b: int): int
    requires b != 0
  {
    a - TDiv(a, b) * b
  }

  lemma TDivTruncates(a: int, b: int)
    requires b != 0
    ensures a == TDiv(a, b) * b + TMod(a, b)
    ensures (if TMod(a, b) < 0 then 0 - TMod(a, b) else TMod(a, b)) < (if b < 0 then 0 - b else b)
    ensures TMod(a, b) == 0 || (TMod(a, b) < 0 <==> a < 0)
  {
    assert a >= 0 ==> a == b * (a / b) + a % b;
    assert a < 0 ==> 0 - a == b * ((0 - a) / b) + (0 - a) % b;
  }

  predicate IsOrdering(op: Op) {
    op == Eq || op == NotEq || op == Lt || op == Gt || op == Le || op == Ge
  }

  predicate IsSum(op: Op) {
    op == Add || op == Sub || op == Mul || op == LShift
  }

  predicate IsQuotient(op: Op) {
    op == Div || op == Mod || op == RShift
  }

  predicate IsComparison(op: Op) {
    IsOrdering(op) || op == And || op == Or
  }

  function OperandBits(v: CtValue): nat {
    match v
    case Char(_) => 8
    case Int(_, bits, _, _) => if bits == 0 then 64 else bits
  }

  predicate OperandUnsigned(v: CtValue) {
    v.Int? && v.isUnsigned
  }

  /** A character is widened through its unsigned byte and normalised as a signed one. */
  function OperandWord(v: CtValue): (r: nat)
    ensures r < Pow2(64)
  {
    match v
    case Char(c) => Wrap(NormalizeInt(c % 256, 8, false, false).intVal)
    case Int(x, _, _, _) => Wrap(x)
  }

  function Max(a: nat, b: nat): nat {
    if a < b then b else a
  }

  /** The width and signedness an operation is carried out at. */
  function OpType(left: CtValue, right: CtValue, op: Op, result: Option<IntInfo>): IntInfo {
    var bits, uns := Max(OperandBits(left), OperandBits(right)), OperandUnsigned(left) || OperandUnsigned(right);
    if !IsComparison(op) && result.Some? then
      if result.value.bits <= 64 then result.value else IntInfo(bits, uns)
    else if !IsComparison(op) && bits < 32 then IntInfo(32, false)
    else IntInfo(bits, uns)
  }

  function Truthy(v: CtValue): bool {
    match v
    case Int(x, _, _, _) => x != 0
    case Char(c) => c != 0
  }

  function BoolResult(b: bool): CtValue {
    NormalizeInt(if b then 1 else 0, 1, true, true)
  }

  function Compare(op: Op, a: int, b: int): bool
    requires IsOrdering(op)
  {
    match op
    case Eq => a == b
    case NotEq => a != b
    case Lt => a < b
    case Gt => a > b
    case Le => a <= b
    case Ge => a >= b
  }

  /** The shift count is masked with the width minus one. */
  function ShiftCount(br: nat, bits: nat): nat
    requires bits >= 1
  {
    AndWord(br, bits - 1)
  }

  lemma NonZero(br: nat, bits: nat)
    requires 0 < br < Pow2(bits) && 1 <= bits <= 64
    ensures br < Pow2(64) && SignExtend(br, bits) != 0
  {
    hide Pow2, SignExtend;
    Pow2Mono(bits, 64);
    SignExtendIsRep(br, bits);
    Small(br, Pow2(bits));
  }

  predicate IsPattern(ar: nat, bits: nat) {
    1 <= bits <= 64 && ar < Pow2(bits) <= Pow2(64)
  }

  /** The 64-bit result of an arithmetic operator on masked patterns. */
  function Fold(op: Op, ar: nat, br: nat, t: IntInfo): (r: Option<nat>)
    requires IsPattern(ar, t.bits) && IsPattern(br, t.bits) && !IsComparison(op)
    ensures r.None? <==> (op == Div || op == Mod) && br == 0
  {
    var as_, bs := SignExtend(ar, t.bits), SignExtend(br, t.bits);
    match op
    case Add => Some(Wrap(ar + br))
    case Sub => Some(Wrap(ar - br))
    case Mul => Some(Wrap(ar * br))
    case Div =>
      if br == 0 then None
      else if !t.isUnsigned && t.bits == 64 && as_ == 0 - Pow2(63) && bs == -1 then Some(Wrap(0 - Pow2(63)))
      else if t.isUnsigned then Some(Wrap(ar / br))
      else NonZero(br, t.bits); Some(Wrap(TDiv(as_, bs)))
    case Mod =>
      if br == 0 then None
      else if !t.isUnsigned && t.bits == 64 && as_ == 0 - Pow2(63) && bs == -1 then Some(0)
      else if t.isUnsigned then Some(Wrap(ar % br))
      else NonZero(br, t.bits); Some(Wrap(TMod(as_, bs)))
    case BitAnd => Some(AndWord(ar, br))
    case BitOr => Some(OrWord(ar, br))
    case BitXor => Some(XorWord(ar, br))
    case LShift => Some(Wrap(ar * Pow2(ShiftCount(br, t.bits))))
    case RShift =>
      var k := ShiftCount(br, t.bits);
      Some(if t.isUnsigned then Wrap(ar / Pow2(k)) else Wrap(as_ / Pow2(k)))
  }

  function Masked(v: CtValue, bits: nat): (r: nat)
    requires bits <= 64
    ensures r < Pow2(bits) <= Pow2(64) && (bits > 0 ==> IsPattern(r, bits))
  {
    Pow2Mono(bits, 64);
    MaskIsMod(OperandWord(v), bits);
    AndWord(OperandWord(v), MaskFor(bits))
  }

  function Binary(left: CtValue, right: CtValue, op: Op, result: Option<IntInfo>): Option<CtValue> {
    var t := OpType(left, right, op, result);
    if t.bits > 64 || t.bits == 0 then None
    else
      var ar, br := Masked(left, t.bits), Masked(right, t.bits);
      if op == And then Some(BoolResult(Truthy(left) && Truthy(right)))
      else if op == Or then Some(BoolResult(Truthy(left) || Truthy(right)))
      else if IsComparison(op) then
        Some(BoolResult(if t.isUnsigned then Compare(op, ar, br)
                        else Compare(op, SignExtend(ar, t.bits), SignExtend(br, t.bits))))
      else
        match Fold(op, ar, br, t)
        case None => None
        case Some(w) => FoldBound(op, ar, br, t); Some(NormalizeInt(w, t.bits, t.isUnsigned, false))
  }

  lemma FoldBound(op: Op, ar: nat, br: nat, t: IntInfo)
    requires IsPattern(ar, t.bits) && IsPattern(br, t.bits) && !IsComparison(op)
    ensures Fold(op, ar, br, t).Some? ==> Fold(op, ar, br, t).value < Pow2(64)
  {
    hide Pow2;
    WordBound(ar, br);
  }

  lemma WordBound(a: nat, b: nat)
    ensures AndWord(a, b) < Pow2(64) && OrWord(a, b) < Pow2(64) && XorWord(a, b) < Pow2(64)
  {
    hide Pow2;
    BitInt.ToNatBound(BitInt.And(BitInt.FromNat(a, 64), BitInt.FromNat(b, 64)));
    BitInt.ToNatBound(BitInt.Or(BitInt.FromNat(a, 64), BitInt.FromNat(b, 64)));
    BitInt.ToNatBound(BitInt.Xor(BitInt.FromNat(a, 64), BitInt.FromNat(b, 64)));
  }

  // ---- folding is exact arithmetic modulo 2^bits ----

  lemma RepCong(x: int, y: int, bits: nat, isUnsigned: bool)
    requires bits > 0 && Cong(x, y, Pow2(bits))
    ensures Rep(x, bits, isUnsigned) == Rep(y, bits, isUnsigned)
  {
  }

  lemma OperandIsVal(v: CtValue)
    requires Valid(v)
    ensures Cong(OperandWord(v), Val(v), Pow2(64))
  {
    hide Pow2, NormalizeInt;
    match v
    case Int(x, _, _, _) =>
      CongMod(x, Pow2(64));
    case Char(c) =>
      Byte();
      NormalizeIntIsRep(c % 256, 8, false, false);
      CongMod(c, 256);
      RepUnique(c % 256, c, 8, false);
      CongMod(c, Pow2(64));
  }

  lemma Byte()
    ensures Pow2(8) == 256 && Pow2(7) == 128 && Pow2(64) > 256
  {
    Pow2Add(8, 56);
    Pow2Mono(1, 56);
  }

  /** The masked pattern of an operand is its value modulo 2^bits. */
  lemma MaskedIsMod(v: CtValue, bits: nat)
    requires Valid(v) && 1 <= bits <= 64
    ensures Masked(v, bits) == Val(v) % Pow2(bits)
    ensures Rep(Masked(v, bits), bits, true) == Rep(Val(v), bits, true) == Masked(v, bits)
    ensures SignExtend(Masked(v, bits), bits) == Rep(Val(v), bits, false)
  {
    hide Pow2, OperandWord, SignExtend, MaskFor, AndWord;
    MaskIsMod(OperandWord(v), bits);
    OperandIsVal(v);
    CongPow2(OperandWord(v), Val(v), bits, 64);
    var m := Masked(v, bits);
    Small(m, Pow2(bits));
    SignExtendIsRep(m, bits);
    RepCong(m, Val(v), bits, false);
    RepCong(m, Val(v), bits, true);
  }

  /** The integer an arithmetic operator stands for: sums, differences, products and left
      shifts of the operands' own values, quotients, remainders and right shifts of what
      the operands are at the operation's type. */
  function Exact(op: Op, A: int, B: int, k: nat, t: IntInfo): int
    requires (IsSum(op) || IsQuotient(op)) && t.bits > 0
    requires (op == Div || op == Mod) ==> Rep(B, t.bits, t.isUnsigned) != 0
  {
    var a, b := Rep(A, t.bits, t.isUnsigned), Rep(B, t.bits, t.isUnsigned);
    match op
    case Add => A + B
    case Sub => A - B
    case Mul => A * B
    case Div => TDiv(a, b)
    case Mod => TMod(a, b)
    case LShift => A * Pow2(k)
    case RShift => a / Pow2(k)
  }

  lemma WrapCong(x: int, y: int, bits: nat)
    requires bits <= 64 && Cong(x, y, Pow2(bits))
    ensures Cong(Wrap(x), y, Pow2(bits))
  {
    hide Pow2;
    CongMod(x, Pow2(64));
    CongPow2(Wrap(x), x, bits, 64);
  }

  /** A pattern holding a number modulo 2^bits. */
  predicate Holds(ar: nat, A: int, bits: nat) {
    IsPattern(ar, bits) && Cong(ar, A, Pow2(bits))
  }

  lemma FoldSums(op: Op, ar: nat, br: nat, A: int, B: int, t: IntInfo)
    requires Holds(ar, A, t.bits) && Holds(br, B, t.bits) && IsSum(op)
    ensures var r := Fold(op, ar, br, t);
      r.Some? && Cong(r.value, Exact(op, A, B, ShiftCount(br, t.bits), t), Pow2(t.bits))
  {
    hide Pow2, ShiftCount, SignExtend, Cong, Wrap;
    var m := Pow2(t.bits);
    var k := ShiftCount(br, t.bits);
    CongAdd(ar, A, br, B, m);
    CongMul(ar, A, br, B, m);
    Same(Pow2(k), m);
    CongMul(ar, A, Pow2(k), Pow2(k), m);
    match op
    case Add => WrapCong(ar + br, A + B, t.bits);
    case Sub => WrapCong(ar - br, A - B, t.bits);
    case Mul => WrapCong(ar * br, A * B, t.bits);
    case LShift => WrapCong(ar * Pow2(k), A * Pow2(k), t.bits);
  }

  lemma Same(x: int, m: nat)
    requires m > 0
    ensures Cong(x, x, m)
  {
  }

  /** Quotients, remainders and right shifts, including the one overflowing quotient. */
  lemma FoldQuotients(op: Op, ar: nat, br: nat, A: int, B: int, t: IntInfo)
    requires Holds(ar, A, t.bits) && Holds(br, B, t.bits) && IsQuotient(op)
    requires op != RShift ==> br != 0
    ensures op != RShift ==> Rep(B, t.bits, t.isUnsigned) != 0
    ensures var r := Fold(op, ar, br, t);
      r.Some? && Cong(r.value, Exact(op, A, B, ShiftCount(br, t.bits), t), Pow2(t.bits))
  {
    hide Pow2, ShiftCount, SignExtend, TDiv, TMod, Rep, Wrap, Cong, AndWord, OrWord, XorWord;
    AtType(ar, A, t.bits);
    AtType(br, B, t.bits);
    var x := Exact(op, A, B, ShiftCount(br, t.bits), t);
    Same(x, Pow2(t.bits));
    WrapCong(x, x, t.bits);
    if op != RShift {
      if t.isUnsigned { Unsigned(ar, br); }
      else if t.bits == 64 { Overflow(); }
    }
  }

  lemma Unsigned(a: nat, b: nat)
    requires b > 0
    ensures TDiv(a, b) == a / b && TMod(a, b) == a % b
  {
    assert a == b * (a / b) + a % b;
  }

  /** The one quotient that leaves the range wraps around. */
  lemma Overflow()
    ensures Cong(Wrap(0 - Pow2(63)), TDiv(0 - Pow2(63), -1), Pow2(64)) && TMod(0 - Pow2(63), -1) == 0
    ensures Cong(0, 0, Pow2(64))
  {
    Pow2Double(63);
    hide Pow2;
    CongIntro(0 - Pow2(63), Pow2(63), -1, Pow2(64));
    WrapCong(0 - Pow2(63), Pow2(63), 64);
  }

  lemma AtType(ar: nat, A: int, bits: nat)
    requires Holds(ar, A, bits)
    ensures SignExtend(ar, bits) == Rep(A, bits, false)
    ensures Rep(A, bits, true) == ar
    ensures Rep(A, bits, false) == 0 <==> ar == 0
  {
    hide Pow2, SignExtend;
    SignExtendIsRep(ar, bits);
    RepCong(ar, A, bits, false);
    RepCong(ar, A, bits, true);
    Small(ar, Pow2(bits));
  }

  ghost predicate TypeOk(result: Option<IntInfo>) {
    result.Some? ==> result.value.bits > 0
  }

  lemma OpTypeBits(left: CtValue, right: CtValue, op: Op, result: Option<IntInfo>)
    requires Valid(left) && Valid(right) && TypeOk(result)
    ensures 1 <= OpType(left, right, op, result).bits <= 64
  {
  }

  lemma MaskedHolds(v: CtValue, bits: nat)
    requires Valid(v) && 1 <= bits <= 64
    ensures Holds(Masked(v, bits), Val(v), bits)
  {
    hide Pow2, Masked, Valid, Val;
    Pow2Mono(bits, 64);
    MaskedIsMod(v, bits);
    CongMod(Val(v), Pow2(bits));
  }

  ghost predicate TypedAs(v: CtValue, t: IntInfo) {
    Valid(v) && v.Int? && v.bits == t.bits && v.isUnsigned == t.isUnsigned && !v.isBool
  }

  /** The value of a folded operation, given the pattern computed for it. */
  ghost predicate Yields(r: Option<CtValue>, w: Option<nat>, t: IntInfo)
    requires t.bits > 0
  {
    && (r.None? <==> w.None?)
    && (r.Some? ==>
          && TypedAs(r.value, t) && w.Some? && Val(r.value) == Rep(w.value, t.bits, t.isUnsigned))
  }

  lemma NormalizeYields(w: Option<nat>, t: IntInfo)
    requires 1 <= t.bits <= 64 && (w.Some? ==> w.value < Pow2(64))
    ensures Yields(if w.Some? then Some(NormalizeInt(w.value, t.bits, t.isUnsigned, false)) else None, w, t)
  {
    hide Pow2, NormalizeInt, Rep, Valid, Val;
    if w.Some? { NormalizeIntIsRep(w.value, t.bits, t.isUnsigned, false); }
  }

  lemma BinaryIsFold(left: CtValue, right: CtValue, op: Op, result: Option<IntInfo>)
    requires Valid(left) && Valid(right) && TypeOk(result) && !IsComparison(op)
    ensures var t := OpType(left, right, op, result);
      && 1 <= t.bits <= 64
      && Yields(Binary(left, right, op, result), Fold(op, Masked(left, t.bits), Masked(right, t.bits), t), t)
  {
    OpTypeBits(left, right, op, result);
    var t := OpType(left, right, op, result);
    hide Pow2, OpType, Masked, Fold, NormalizeInt, Rep, Valid, SignExtend, Val, Yields, TypedAs;
    FoldBound(op, Masked(left, t.bits), Masked(right, t.bits), t);
    NormalizeYields(Fold(op, Masked(left, t.bits), Masked(right, t.bits), t), t);
  }

  /** The outcome of an arithmetic operator on the integers A and B at type t: nothing for a
      zero divisor, otherwise the representative of the exact result. */
  ghost predicate IsExact(op: Op, A: int, B: int, k: nat, t: IntInfo, v: Option<int>) {
    && t.bits > 0 && (IsSum(op) || IsQuotient(op))
    && if (op == Div || op == Mod) && Rep(B, t.bits, t.isUnsigned) == 0 then v == None
       else v == Some(Rep(Exact(op, A, B, k, t), t.bits, t.isUnsigned))
  }

  function ValOf(r: Option<CtValue>): Option<int> {
    if r.Some? then Some(Val(r.value)) else None
  }

  function RepOf(w: Option<nat>, t: IntInfo): Option<int>
    requires t.bits > 0
  {
    if w.Some? then Some(Rep(w.value, t.bits, t.isUnsigned)) else None
  }

  /** Folding an arithmetic operator fails exactly on a zero divisor (after reduction to the
      operation's type) and otherwise yields the operation's exact result modulo 2^bits. */
  lemma BinaryExact(left: CtValue, right: CtValue, op: Op, result: Option<IntInfo>)
    requires Valid(left) && Valid(right) && TypeOk(result)
    requires IsSum(op) || IsQuotient(op)
    ensures var t := OpType(left, right, op, result); var r := Binary(left, right, op, result);
      && 1 <= t.bits <= 64
      && IsExact(op, Val(left), Val(right), ShiftCount(Masked(right, t.bits), t.bits), t, ValOf(r))
      && (r.Some? ==> TypedAs(r.value, t))
  {
    hide *;
    NoComparison(op);
    OpTypeBits(left, right, op, result);
    var t := OpType(left, right, op, result);
    BinaryIsFold(left, right, op, result);
    MaskedHolds(left, t.bits);
    MaskedHolds(right, t.bits);
    FoldExact(op, Masked(left, t.bits), Masked(right, t.bits), Val(left), Val(right), t);
    YieldsRep(Binary(left, right, op, result), Fold(op, Masked(left, t.bits), Masked(right, t.bits), t), t);
  }

  lemma YieldsRep(r: Option<CtValue>, w: Option<nat>, t: IntInfo)
    requires t.bits > 0 && Yields(r, w, t)
    ensures ValOf(r) == RepOf(w, t) && (r.Some? ==> TypedAs(r.value, t))
  {
  }

  lemma NoComparison(op: Op)
    requires IsSum(op) || IsQuotient(op)
    ensures !IsComparison(op)
  {
  }

  lemma FoldExact(op: Op, ar: nat, br: nat, A: int, B: int, t: IntInfo)
    requires Holds(ar, A, t.bits) && Holds(br, B, t.bits) && (IsSum(op) || IsQuotient(op))
    ensures IsExact(op, A, B, ShiftCount(br, t.bits), t, RepOf(Fold(op, ar, br, t), t))
  {
    hide Pow2, Fold, ShiftCount, Exact, Cong, Rep;
    AtType(br, B, t.bits);
    if IsSum(op) {
      FoldSums(op, ar, br, A, B, t);
    } else if op == RShift || br != 0 {
      FoldQuotients(op, ar, br, A, B, t);
    }
    var r := Fold(op, ar, br, t);
    if r.Some? { RepCong(r.value, Exact(op, A, B, ShiftCount(br, t.bits), t), t.bits, t.isUnsigned); }
  }

  /** At a width that is a power of two the shift count is the right operand modulo it. */
  lemma ShiftCountIsMod(x: int, k: nat)
    requires k <= 6
    ensures Pow2(k) <= 64 && ShiftCount(x % Pow2(Pow2(k)), Pow2(k)) == x % Pow2(Pow2(k)) % Pow2(k)
  {
    Widths();
    Pow2Mono(k, 6);
    Pow2Mono(Pow2(k), 64);
    hide Pow2;
    MaskIsMod(x % Pow2(Pow2(k)), k);
    if k == 0 { Pow2Zero(); }
  }

  lemma Widths()
    ensures Pow2(6) == 64
  {
  }

  /** Quotient and remainder of one division recombine to the dividend. */
  lemma DivModRecombine(left: CtValue, right: CtValue, result: Option<IntInfo>)
    requires Valid(left) && Valid(right) && TypeOk(result)
    requires Binary(left, right, Div, result).Some?
    ensures var t := OpType(left, right, Div, result);
      && t.bits > 0 && Binary(left, right, Mod, result).Some?
      && Cong(Val(Binary(left, right, Div, result).value) * Val(right) + Val(Binary(left, right, Mod, result).value),
              Val(left), Pow2(t.bits))
  {
    var t := OpType(left, right, Div, result);
    SameType(left, right, result);
    hide *;
    DivIs(left, right, result);
    ModIs(left, right, result);
    Recombine(Val(left), Val(right), t.bits, t.isUnsigned,
              Val(Binary(left, right, Div, result).value), Val(Binary(left, right, Mod, result).value));
  }

  lemma SameType(left: CtValue, right: CtValue, result: Option<IntInfo>)
    ensures OpType(left, right, Mod, result) == OpType(left, right, Div, result)
  {
  }

  lemma DivIs(left: CtValue, right: CtValue, result: Option<IntInfo>)
    requires Valid(left) && Valid(right) && TypeOk(result)
    ensures var t := OpType(left, right, Div, result); var r := Binary(left, right, Div, result);
      && t.bits > 0 && (r.Some? <==> Rep(Val(right), t.bits, t.isUnsigned) != 0)
      && (r.Some? ==>
            var a, b := Rep(Val(left), t.bits, t.isUnsigned), Rep(Val(right), t.bits, t.isUnsigned);
            Val(r.value) == Rep(TDiv(a, b), t.bits, t.isUnsigned))
  {
    hide Pow2, OpType, Binary, Valid, Val, Rep, TDiv, ShiftCount, Masked;
    BinaryExact(left, right, Div, result);
  }

  lemma ModIs(left: CtValue, right: CtValue, result: Option<IntInfo>)
    requires Valid(left) && Valid(right) && TypeOk(result)
    ensures var t := OpType(left, right, Mod, result); var r := Binary(left, right, Mod, result);
      && t.bits > 0 && (r.Some? <==> Rep(Val(right), t.bits, t.isUnsigned) != 0)
      && (r.Some? ==>
            var a, b := Rep(Val(left), t.bits, t.isUnsigned), Rep(Val(right), t.bits, t.isUnsigned);
            Val(r.value) == Rep(TMod(a, b), t.bits, t.isUnsigned))
  {
    hide Pow2, OpType, Binary, Valid, Val, Rep, TMod, ShiftCount, Masked;
    BinaryExact(left, right, Mod, result);
  }

  lemma Recombine(A: int, B: int, bits: nat, uns: bool, q: int, r: int)
    requires bits > 0 && Rep(B, bits, uns) != 0
    requires q == Rep(TDiv(Rep(A, bits, uns), Rep(B, bits, uns)), bits, uns)
    requires r == Rep(TMod(Rep(A, bits, uns), Rep(B, bits, uns)), bits, uns)
    ensures Cong(q * B + r, A, Pow2(bits))
  {
    hide Rep, TDiv, TMod, Cong, Pow2;
    var m, a, b := Pow2(bits), Rep(A, bits, uns), Rep(B, bits, uns);
    TDivTruncates(a, b);
    RepCongruent(TDiv(a, b), bits, uns);
    RepCongruent(TMod(a, b), bits, uns);
    RepCongruent(A, bits, uns);
    RepCongruent(B, bits, uns);
    Symmetric(b, B, m);
    CongMul(q, TDiv(a, b), B, b, m);
    CongAdd(q * B, TDiv(a, b) * b, r, TMod(a, b), m);
    Transitive(q * B + r, a, A, m);
  }

  lemma Symmetric(x: int, y: int, m: nat)
    requires m > 0 && Cong(x, y, m)
    ensures Cong(y, x, m)
  {
  }

  lemma Transitive(x: int, y: int, z: int, m: nat)
    requires m > 0 && Cong(x, y, m) && Cong(y, z, m)
    ensures Cong(x, z, m)
  {
  }

  /** The bitwise operators act on each of the low `bits` bits of the operands. */
  lemma BitwiseExact(left: CtValue, right: CtValue, op: Op, result: Option<IntInfo>)
    requires Valid(left) && Valid(right) && TypeOk(result) && (op == BitAnd || op == BitOr || op == BitXor)
    ensures var t := OpType(left, right, op, result); var r := Binary(left, right, op, result);
      && 1 <= t.bits <= 64 && r.Some? && Valid(r.value)
      && var x, y := BitInt.FromNat(Val(left) % Pow2(t.bits), 64), BitInt.FromNat(Val(right) % Pow2(t.bits), 64);
         var z := if op == BitAnd then BitInt.And(x, y) else if op == BitOr then BitInt.Or(x, y) else BitInt.Xor(x, y);
         Val(r.value) == Rep(BitInt.ToNat(z), t.bits, t.isUnsigned)
  {
    hide Pow2, OpType, Binary, Valid, Rep, Val, SignExtend, ShiftCount, TDiv, TMod, BitInt.ToNat, BitInt.FromNat,
        Masked, TypeOk;
    OpTypeBits(left, right, op, result);
    var t := OpType(left, right, op, result);
    BinaryIsFold(left, right, op, result);
    MaskedIsMod(left, t.bits);
    MaskedIsMod(right, t.bits);
  }

  // ---- comparisons ----

  lemma BoolResultIs(b: bool)
    ensures Valid(BoolResult(b)) && Val(BoolResult(b)) == if b then 1 else 0
  {
    NormalizeIntIsRep(if b then 1 else 0, 1, true, true);
    Small(if b then 1 else 0, Pow2(1));
  }

  lemma InWiderRange(v: CtValue, bits: nat)
    requires Valid(v) && OperandBits(v) <= bits <= 64
    ensures OperandUnsigned(v) ==> Rep(Val(v), bits, true) == Val(v)
    ensures !OperandUnsigned(v) ==> Rep(Val(v), bits, false) == Val(v)
    ensures !OperandUnsigned(v) ==> Rep(Val(v), bits, true) == if Val(v) < 0 then Val(v) + Pow2(bits) else Val(v)
  {
    Byte();
    Pow2Mono(OperandBits(v), bits);
    Pow2Mono(OperandBits(v) - 1, bits - 1);
    Pow2Double(bits - 1);
    hide Pow2, Rep, Cong;
    var x := Val(v);
    Same(x, Pow2(bits));
    RepUnique(x, x, bits, OperandUnsigned(v));
    if !OperandUnsigned(v) {
      var y := if x < 0 then x + Pow2(bits) else x;
      CongIntro(y, x, if x < 0 then 1 else 0, Pow2(bits));
      RepUnique(x, y, bits, true);
    }
  }

  lemma ComparesReps(left: CtValue, right: CtValue, op: Op, result: Option<IntInfo>)
    requires Valid(left) && Valid(right) && IsOrdering(op)
    ensures var t := OpType(left, right, op, result);
      && 1 <= t.bits <= 64 && OperandBits(left) <= t.bits && OperandBits(right) <= t.bits
      && t.isUnsigned == (OperandUnsigned(left) || OperandUnsigned(right))
      && Binary(left, right, op, result)
         == Some(BoolResult(Compare(op, Rep(Val(left), t.bits, t.isUnsigned), Rep(Val(right), t.bits, t.isUnsigned))))
  {
    var t := OpType(left, right, op, result);
    CompareType(left, right, op, result);
    hide Pow2, Masked, SignExtend, Rep, BoolResult, Compare, OpType, Valid, Val, NormalizeInt;
    MaskedIsMod(left, t.bits);
    MaskedIsMod(right, t.bits);
  }

  lemma CompareType(left: CtValue, right: CtValue, op: Op, result: Option<IntInfo>)
    requires Valid(left) && Valid(right) && IsComparison(op)
    ensures var t := OpType(left, right, op, result);
      && 1 <= t.bits <= 64 && OperandBits(left) <= t.bits && OperandBits(right) <= t.bits
      && t.isUnsigned == (OperandUnsigned(left) || OperandUnsigned(right))
  {
  }

  /** Values of the same signedness compare as the integers they stand for. */
  lemma CompareExact(left: CtValue, right: CtValue, op: Op, result: Option<IntInfo>)
    requires Valid(left) && Valid(right) && IsOrdering(op)
    requires OperandUnsigned(left) == OperandUnsigned(right)
    ensures Binary(left, right, op, result) == Some(BoolResult(Compare(op, Val(left), Val(right))))
  {
    ComparesReps(left, right, op, result);
    var t := OpType(left, right, op, result);
    InWiderRange(left, t.bits);
    InWiderRange(right, t.bits);
  }

  /** With one signed and one unsigned operand all six comparisons give the integer answer
      exactly when the signed one is not negative, or when its wrapped value still lies
      below the unsigned one. */
  lemma MixedCompare(s: CtValue, u: CtValue, result: Option<IntInfo>)
    requires Valid(s) && Valid(u) && !OperandUnsigned(s) && OperandUnsigned(u)
    ensures (forall op :: IsOrdering(op) ==>
              Binary(s, u, op, result) == Some(BoolResult(Compare(op, Val(s), Val(u)))))
        <==> Val(s) >= 0 || Val(s) + Pow2(Max(OperandBits(s), OperandBits(u))) < Val(u)
  {
    hide Binary, Pow2, Rep, NormalizeInt;
    var bits := Max(OperandBits(s), OperandBits(u));
    InWiderRange(s, bits);
    InWiderRange(u, bits);
    var w := if Val(s) < 0 then Val(s) + Pow2(bits) else Val(s);
    BoolResultIs(true);
    BoolResultIs(false);
    hide Binary, BoolResult, Pow2, Valid, Rep, NormalizeInt;
    forall op | IsOrdering(op)
      ensures Binary(s, u, op, result) == Some(BoolResult(Compare(op, w, Val(u))))
    {
      ComparesReps(s, u, op, result);
    }
    hide OpType, Val;
    if Val(s) < 0 && w >= Val(u) {
      assert Binary(s, u, Lt, result) == Some(BoolResult(Compare(Lt, w, Val(u))));
    }
  }

  /** -1 < 1 is false if the -1 is an int32 and the 1 a uint32. */
  lemma MinusOneNotLess()
    ensures var s, u := Int(-1, 32, false, false), Int(1, 32, true, false);
      Valid(s) && Valid(u) && Val(s) < Val(u) && Binary(s, u, Lt, None) == Some(BoolResult(false))
  {
    var s, u := Int(-1, 32, false, false), Int(1, 32, true, false);
    OnesValid();
    hide *;
    ComparesReps(s, u, Lt, None);
    InWiderRange(s, 32);
    InWiderRange(u, 32);
  }

  lemma OnesValid()
    ensures var s, u := Int(-1, 32, false, false), Int(1, 32, true, false);
      && Valid(s) && Valid(u) && Val(s) == -1 && Val(u) == 1 && !OperandUnsigned(s) && OperandUnsigned(u)
      && OperandBits(s) == 32 && OperandBits(u) == 32 && IsOrdering(Lt) && OpType(s, u, Lt, None) == IntInfo(32, true)
      && !Compare(Lt, -1 + Pow2(32), 1)
  {
    WordSizes();
    hide Pow2;
    Small(1, Pow2(64));
  }

  lemma WordSizes()
    ensures Pow2(31) >= 2 && Pow2(32) == 2 * Pow2(31) && Pow2(63) >= 2 && Pow2(64) == 2 * Pow2(63)
  {
    Pow2Double(31);
    Pow2Double(63);
    Pow2Mono(1, 31);
    Pow2Mono(1, 63);
    Pow2Double(0);
  }

  // ---- casts ----

  /** Cast to an integer type other than char. */
  function CastInt(v: CtValue, bits: nat, isUnsigned: bool, isBool: bool): Option<CtValue> {
    if bits > 64 then None
    else Some(NormalizeInt(Wrap(if v.Int? then v.intVal else v.charVal), bits, isUnsigned, isBool))
  }

  /** A cast reduces the value modulo the new width, and undoes a widening cast. */
  lemma CastExact(v: CtValue, bits: nat, isUnsigned: bool, isBool: bool)
    requires Valid(v) && 1 <= bits <= 64
    ensures var r := CastInt(v, bits, isUnsigned, isBool);
      && r.Some? && Valid(r.value) && Val(r.value) == Rep(Val(v), bits, isUnsigned)
      && (InRange(Val(v), bits, isUnsigned) ==> Val(r.value) == Val(v))
  {
    var x := if v.Int? then v.intVal else v.charVal;
    hide Pow2, NormalizeInt, Rep;
    NormalizeIntIsRep(Wrap(x), bits, isUnsigned, isBool);
    CongMod(x, Pow2(64));
    SameWord(v);
    Transitive(Wrap(x), x, Val(v), Pow2(64));
    CongPow2(Wrap(x), Val(v), bits, 64);
    RepCong(Wrap(x), Val(v), bits, isUnsigned);
    Same(Val(v), Pow2(bits));
    RepUnique(Val(v), Val(v), bits, isUnsigned);
  }

  lemma SameWord(v: CtValue)
    ensures Cong(if v.Int? then v.intVal else v.charVal, Val(v), Pow2(64))
  {
    hide Pow2;
    if v.Int? {
      CongMod(v.intVal, Pow2(64));
      Symmetric(Wrap(v.intVal), v.intVal, Pow2(64));
    }
  }
}
