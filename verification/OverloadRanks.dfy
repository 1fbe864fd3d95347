/** Which conversions there are and how far each is from identity, order of tests aside. */
module OverloadRanks {
  import opened Options
  import opened Overload

  /** An integer other than an enum, which converts to nothing but itself. */
  predicate IsInteger(t: Ty) {
    t.shape.Plain? && IntegerWidth(t.shape) > 0
  }

  predicate IsFloat(t: Ty) {
    t.shape.Plain? && FloatWidth(t.shape) > 0
  }

  predicate IsBool(t: Ty) {
    t.shape == Plain(Bool)
  }

  /** An integer to one that is no narrower, an integer to a float, a float to one that is no
      narrower. */
  predicate Widens(from: Ty, to: Ty) {
    || (IsInteger(from) && IsInteger(to) && !IsBool(to) && IntegerWidth(from.shape) <= IntegerWidth(to.shape))
    || (IsInteger(from) && IsFloat(to))
    || (IsFloat(from) && IsFloat(to) && FloatWidth(from.shape) <= FloatWidth(to.shape))
  }

  /** An array to a pointer or a slice of its elements, a function to a function pointer. */
  predicate Decays(from: Ty, to: Ty) {
    || (from.shape.Array? && to.shape.Pointer?)
    || (from.shape.Array? && to.shape.Slice? && TypesEqual(from.shape.elem, to.shape.elem))
    || (from.shape.Function? && to.shape.Pointer? && to.shape.base.shape.Function?)
  }

  /** A string to a view, and both to a read-only C string. */
  predicate Views(from: Ty, to: Ty) {
    || (from.shape == Plain(String) && to.shape == Plain(Str))
    || ((from.shape == Plain(String) || from.shape == Plain(Str)) && IsConstCharPointer(to))
  }

  /** A read-only C string is a pointer to constant char; typedefs of the pointer and of what it
      points to make no difference, and their own constness does not count. */
  lemma ConstCharPointers(p: Ty, b: Ty)
    ensures p.shape == Pointer(b) && !b.shape.Typedef? ==>
      (IsConstCharPointer(p) <==> b.shape == Plain(Char) && b.constant)
    ensures p.shape == Pointer(b) && b.shape.Typedef? ==>
      (IsConstCharPointer(p) <==> IsConstCharPointer(p.(shape := Pointer(b.shape.aliased))))
    ensures p.shape.Typedef? ==> (IsConstCharPointer(p) <==> IsConstCharPointer(p.shape.aliased))
    ensures !p.shape.Typedef? && !p.shape.Pointer? ==> !IsConstCharPointer(p)
  {
  }

  /** For types without typedefs on top: the four classes of conversions, none of which depends
      on the order in which the code tries them. */
  lemma RankClasses(from: Ty, to: Ty)
    requires !from.shape.Typedef? && !to.shape.Typedef?
    ensures var r := ConversionRank(from, to);
      && -1 <= r <= 3
      && (r == 0 <==> TypesEqual(from, to))
      && (r == 1 <==> !TypesEqual(from, to) && (Widens(from, to) || Decays(from, to) || Views(from, to)))
      && (r == 2 <==> !TypesEqual(from, to)
                      && ((IsInteger(from) && IsBool(to)) || (from.shape.Pointer? && to.shape.Pointer?)))
      && (r == 3 <==> IsInteger(from) && to.shape.Pointer?)
  {
    hide TypesEqual;
    Shapes(from, to);
  }

  lemma Shapes(from: Ty, to: Ty)
    ensures TypesEqual(from, to) && IsInteger(from) ==> !to.shape.Pointer?
    ensures IsConstCharPointer(to) && !to.shape.Typedef? ==> to.shape.Pointer?
  {
  }

  /** The widths behind "no narrower": a signed and an unsigned integer of one name agree, and
      each size is twice the one before it. */
  lemma Widths()
    ensures IntegerWidth(Plain(Int8)) == IntegerWidth(Plain(UInt8)) == IntegerWidth(Plain(Char)) == 8
    ensures IntegerWidth(Plain(Int16)) == IntegerWidth(Plain(UInt16)) == 2 * IntegerWidth(Plain(Int8))
    ensures IntegerWidth(Plain(Int32)) == IntegerWidth(Plain(UInt32)) == 2 * IntegerWidth(Plain(Int16))
    ensures IntegerWidth(Plain(Int64)) == IntegerWidth(Plain(UInt64)) == 2 * IntegerWidth(Plain(Int32))
    ensures IntegerWidth(Plain(ISize)) == IntegerWidth(Plain(USize)) == IntegerWidth(Plain(Int64))
    ensures IntegerWidth(Plain(Int128)) == IntegerWidth(Plain(UInt128)) == 2 * IntegerWidth(Plain(Int64))
  {
  }

  lemma FloatWidths()
    ensures FloatWidth(Plain(Float16)) == 16 && FloatWidth(Plain(Float32)) == 2 * FloatWidth(Plain(Float16))
    ensures FloatWidth(Plain(Float64)) == 2 * FloatWidth(Plain(Float32))
    ensures FloatWidth(Plain(Float128)) == 2 * FloatWidth(Plain(Float64))
  {
  }

  /** No kind is both an integer and a float, and text is neither. */
  lemma OneOrOther(k: Kind)
    ensures IntegerWidth(Plain(k)) == 0 || FloatWidth(Plain(k)) == 0
    ensures k == Void || k == Str || k == String <==> IntegerWidth(Plain(k)) + FloatWidth(Plain(k)) == 0
  {
  }

  // ---- equality of types ----

  /** A type without its constness and the names of its typedefs. */
  function Erased(t: Ty): Ty {
    Ty(match t.shape
       case Pointer(b) => Pointer(Erased(b))
       case Array(e, n) => Array(Erased(e), n)
       case Slice(e) => Slice(Erased(e))
       case Optional(e) => Optional(Erased(e))
       case Result(s, e) => Result(Erased(s), Erased(e))
       case Typedef(_, x) => Typedef("", Erased(x))
       case Function(r, ps) => Function(Erased(r), seq(|ps|, i requires 0 <= i < |ps| => Erased(ps[i])))
       case other => other,
       t.atomic, false)
  }

  function Tag(t: Ty): nat {
    match t.shape
    case Plain(_) => 0
    case Pointer(_) => 1
    case Array(_, _) => 2
    case Slice(_) => 3
    case Optional(_) => 4
    case Result(_, _) => 5
    case Struct(_) => 6
    case Class(_) => 7
    case Union(_) => 8
    case Enum(_) => 9
    case Typedef(_, _) => 10
    case Function(_, _) => 11
  }

  lemma ErasedTag(t: Ty)
    ensures Tag(Erased(t)) == Tag(t)
  {
  }

  lemma EqualTags(a: Ty, b: Ty)
    requires TypesEqual(a, b)
    ensures Tag(a) == Tag(b)
  {
  }

  /** Equal types are the same but for constness and typedef names, at every level. */
  lemma {:induction false} EqualIsErased(a: Ty, b: Ty)
    ensures TypesEqual(a, b) <==> Erased(a) == Erased(b)
    decreases a, 1
  {
    ErasedTag(a);
    ErasedTag(b);
    if Tag(a) != Tag(b) {
      if TypesEqual(a, b) { EqualTags(a, b); }
      hide *;
    } else {
      SameTag(a, b);
    }
  }

  lemma {:induction false} SameTag(a: Ty, b: Ty)
    requires Tag(a) == Tag(b)
    ensures TypesEqual(a, b) <==> Erased(a) == Erased(b)
    decreases a, 0
  {
    match a.shape
    case Pointer(x) => EqualIsErased(x, b.shape.base);
    case Array(x, _) => EqualIsErased(x, b.shape.elem);
    case Slice(x) => EqualIsErased(x, b.shape.elem);
    case Optional(x) => EqualIsErased(x, b.shape.elem);
    case Result(x, e) =>
      EqualIsErased(x, b.shape.success);
      EqualIsErased(e, b.shape.error);
    case Typedef(_, x) => EqualIsErased(x, b.shape.aliased);
    case Function(_, _) => SameSignature(a, b);
    case _ =>
  }

  lemma {:induction false} SameSignature(a: Ty, b: Ty)
    requires a.shape.Function? && b.shape.Function?
    ensures TypesEqual(a, b) <==> Erased(a) == Erased(b)
    decreases a, 0, 0
  {
    var ps, qs := a.shape.params, b.shape.params;
    EqualIsErased(a.shape.ret, b.shape.ret);
    var es, fs := Erased(a).shape.params, Erased(b).shape.params;
    if |ps| == |qs| {
      forall i | 0 <= i < |ps| ensures TypesEqual(ps[i], qs[i]) <==> es[i] == fs[i] { EqualIsErased(ps[i], qs[i]); }
    }
  }

  // ---- what the ranks decide ----

  lemma {:induction false} SumZero(args: seq<Ty>, params: seq<Ty>, n: nat)
    requires n <= |args| && n <= |params|
    ensures RankSum(args, params, n) == 0 <==>
      forall i :: 0 <= i < n ==> TypesEqual(Strip(args[i]), Strip(params[i]))
  {
    hide ConversionRank, TypesEqual, Strip;
    if n > 0 {
      SumZero(args, params, n - 1);
      RankThroughTypedefs(args[n - 1], params[n - 1]);
      RankAtLeast(args[n - 1], params[n - 1]);
    }
  }

  lemma RankAtLeast(from: Ty, to: Ty)
    ensures ConversionRank(from, to) >= -1
  {
    hide TypesEqual;
  }

  lemma {:induction false} SumViable(args: seq<Ty>, params: seq<Ty>, n: nat)
    requires n <= |args| && n <= |params|
    ensures RankSum(args, params, n) >= 0 <==> forall i :: 0 <= i < n ==> ConversionRank(args[i], params[i]) >= 0
  {
    hide ConversionRank;
    if n > 0 { SumViable(args, params, n - 1); }
  }

  /** A candidate can be called exactly if it is a function, defaults make up for the arguments
      that are missing, only a variadic one gets too many, and every argument that meets a
      parameter converts to it. */
  lemma CallableIff(s: Symbol, args: seq<Ty>)
    ensures Cost(s, args).Some? <==>
      && s.ty.shape.Function?
      && var params := s.ty.shape.params;
         && |params| <= |args| + s.defaults && (s.varArg || |args| <= |params|)
         && forall i :: 0 <= i < |args| && i < |params| ==> ConversionRank(args[i], params[i]) >= 0
  {
    hide ConversionRank, RankSum;
    if s.ty.shape.Function? {
      var params := s.ty.shape.params;
      SumViable(args, params, Min(|args|, |params|));
    }
  }

  /** Each argument counts for itself: another argument in place i changes the sum by the
      difference of the two ranks. */
  lemma {:induction false} SumShifts(args: seq<Ty>, params: seq<Ty>, n: nat, i: nat, a: Ty)
    requires i < n <= |args| && n <= |params|
    requires RankSum(args, params, n) >= 0 && ConversionRank(a, params[i]) >= 0
    ensures RankSum(args[i := a], params, n)
         == RankSum(args, params, n) - ConversionRank(args[i], params[i]) + ConversionRank(a, params[i])
  {
    hide ConversionRank;
    SumViable(args, params, n);
    SumViable(args[i := a], params, n);
    if i < n - 1 { SumShifts(args, params, n - 1, i, a); } else { SumSame(args, params, n - 1, i, a); }
  }

  lemma {:induction false} SumSame(args: seq<Ty>, params: seq<Ty>, n: nat, i: nat, a: Ty)
    requires n <= i < |args| && n <= |params|
    ensures RankSum(args[i := a], params, n) == RankSum(args, params, n)
  {
    hide ConversionRank;
    if n > 0 { SumSame(args, params, n - 1, i, a); }
  }

  /** A variadic candidate costs one more than the same function without the ellipsis. */
  lemma VariadicDearer(s: Symbol, args: seq<Ty>)
    requires !s.varArg && Cost(s, args).Some?
    ensures Cost(s.(varArg := true), args) == Some(Cost(s, args).value + 1)
  {
    hide RankSum;
  }

  /** The candidate takes each argument at exactly its type. */
  ghost predicate Matches(s: Symbol, args: seq<Ty>) {
    && s.ty.shape.Function? && !s.varArg && |args| <= |s.ty.shape.params| <= |args| + s.defaults
    && forall i :: 0 <= i < |args| ==> TypesEqual(Strip(args[i]), Strip(s.ty.shape.params[i]))
  }

  /** A candidate that matches is better than every viable one that needs a conversion or is
      variadic, whatever their defaults; so it is chosen if it is the only one that matches. */
  lemma MatchWins(cands: multiset<Symbol>, args: seq<Ty>, s: Symbol, r: Option<Symbol>)
    requires Matches(s, args) && cands[s] == 1 && Chosen(cands, args, r)
    requires forall t <- cands :: t != s ==> !Matches(t, args)
    ensures r == Some(s)
  {
    MatchIsFree(s, args);
    forall t | t in cands && t != s && Cost(t, args).Some? ensures Better(s, t, args) { MatchIsFree(t, args); }
    hide Cost, Matches;
    ChoiceUnique(cands, args, r, Some(s));
  }

  /** A call costs nothing exactly if the candidate matches. */
  lemma MatchIsFree(s: Symbol, args: seq<Ty>)
    ensures Cost(s, args) == Some(0) <==> Matches(s, args)
  {
    if s.ty.shape.Function? {
      var params := s.ty.shape.params;
      SumZero(args, params, Min(|args|, |params|));
    }
    hide RankSum, TypesEqual, Strip;
  }
}
