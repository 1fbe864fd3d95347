/** Choosing one of several functions of the same name by the conversions its call needs. */
module Overload {
  import opened Options

  datatype Kind = Void | Char | Bool | Int8 | Int16 | Int32 | Int64 | Int128
                | UInt8 | UInt16 | UInt32 | UInt64 | UInt128 | ISize | USize
                | Float16 | Float32 | Float64 | Float128 | Str | String

  datatype Ty = Ty(shape: Shape, atomic: bool, constant: bool)

  datatype Shape =
    | Plain(k: Kind)
    | Pointer(base: Ty)
    | Array(elem: Ty, size: int)
    | Slice(elem: Ty)
    | Optional(elem: Ty)
    | Result(success: Ty, error: Ty)
    | Struct(name: string)
    | Class(name: string)
    | Union(name: string)
    | Enum(name: string)
    | Typedef(name: string, aliased: Ty)
    | Function(ret: Ty, params: seq<Ty>)

  predicate TypesEqual(a: Ty, b: Ty) {
    && a.atomic == b.atomic
    && match (a.shape, b.shape)
       case (Plain(k), Plain(m)) => k == m
       case (Pointer(x), Pointer(y)) => TypesEqual(x, y)
       case (Array(x, n), Array(y, m)) => n == m && TypesEqual(x, y)
       case (Slice(x), Slice(y)) => TypesEqual(x, y)
       case (Optional(x), Optional(y)) => TypesEqual(x, y)
       case (Result(x, e), Result(y, f)) => TypesEqual(x, y) && TypesEqual(e, f)
       case (Struct(n), Struct(m)) => n == m
       case (Class(n), Class(m)) => n == m
       case (Union(n), Union(m)) => n == m
       case (Enum(n), Enum(m)) => n == m
       case (Typedef(_, x), Typedef(_, y)) => TypesEqual(x, y)
       case (Function(r, ps), Function(q, qs)) =>
         TypesEqual(r, q) && |ps| == |qs| && forall i :: 0 <= i < |ps| ==> TypesEqual(ps[i], qs[i])
       case _ => false
  }

  function Strip(t: Ty): (r: Ty)
    ensures !r.shape.Typedef?
  {
    if t.shape.Typedef? then Strip(t.shape.aliased) else t
  }

  function IntegerWidth(s: Shape): nat {
    match s
    case Plain(k) =>
      (match k
       case Bool => 1
       case Char => 8
       case Int8 => 8
       case UInt8 => 8
       case Int16 => 16
       case UInt16 => 16
       case Int32 => 32
       case UInt32 => 32
       case Int64 => 64
       case UInt64 => 64
       case ISize => 64
       case USize => 64
       case Int128 => 128
       case UInt128 => 128
       case _ => 0)
    case Enum(_) => 32
    case _ => 0
  }

  function FloatWidth(s: Shape): nat {
    if !s.Plain? then 0
    else match s.k
      case Float16 => 16
      case Float32 => 32
      case Float64 => 64
      case Float128 => 128
      case _ => 0
  }

  predicate IsConstCharPointer(t: Ty) {
    var s := Strip(t);
    s.shape.Pointer? && var b := Strip(s.shape.base); b.shape == Plain(Char) && b.constant
  }

  /** How far a conversion is from identity; -1 if there is none. */
  function ConversionRank(from: Ty, to: Ty): int {
    if TypesEqual(from, to) then 0 else StrippedRank(Strip(from), Strip(to))
  }

  function StrippedRank(from: Ty, to: Ty): int {
    var f, t := from.shape, to.shape;
    var fw, tw, fb, tb := IntegerWidth(f), IntegerWidth(t), FloatWidth(f), FloatWidth(t);
    if TypesEqual(from, to) then 0
    else if f.Array? && t.Pointer? then 1
    else if f.Array? && t.Slice? && TypesEqual(f.elem, t.elem) then 1
    else if (f == Plain(Str) || f == Plain(String)) && IsConstCharPointer(to) then 1
    else if f == Plain(String) && t == Plain(Str) then 1
    else if f.Enum? || t.Enum? then -1
    else if fw > 0 && t == Plain(Bool) then 2
    else if fw > 0 && tw > 0 && tw >= fw then 1
    else if fw > 0 && tb > 0 then 1
    else if fb > 0 && tb > 0 && tb >= fb then 1
    else if f.Pointer? && t.Pointer? then 2
    else if f.Function? && t.Pointer? && t.base.shape.Function? then 1
    else if fw > 0 && t.Pointer? then 3
    else -1
  }

  lemma {:induction false} EqualStripped(a: Ty, b: Ty)
    requires TypesEqual(a, b)
    ensures TypesEqual(Strip(a), Strip(b))
  {
    if a.shape.Typedef? { EqualStripped(a.shape.aliased, b.shape.aliased); }
  }

  /** A typedef converts exactly as the type it names, on either side. */
  lemma RankThroughTypedefs(a: Ty, b: Ty)
    ensures ConversionRank(a, b) == ConversionRank(Strip(a), Strip(b))
    ensures ConversionRank(a, b) == 0 <==> TypesEqual(Strip(a), Strip(b))
  {
    if TypesEqual(a, b) { EqualStripped(a, b); }
    hide TypesEqual;
  }

  // ---- resolution ----

  datatype Symbol = Symbol(id: nat, ty: Ty, varArg: bool, defaults: nat)

  function MinArgs(s: Symbol): nat
    requires s.ty.shape.Function?
  {
    var fixed := |s.ty.shape.params|;
    if fixed > s.defaults then fixed - s.defaults else 0
  }

  function Min(a: nat, b: nat): nat {
    if a < b then a else b
  }

  /** The sum of the ranks of the first n arguments; -1 if one of them does not convert. */
  function RankSum(args: seq<Ty>, params: seq<Ty>, n: nat): (r: int)
    requires n <= |args| && n <= |params|
    ensures r >= -1
  {
    if n == 0 then 0
    else
      var r, k := RankSum(args, params, n - 1), ConversionRank(args[n - 1], params[n - 1]);
      if r < 0 || k < 0 then -1 else r + k
  }

  /** The total conversion rank of a call, one more for a variadic function; nothing if the
      function cannot be called with these arguments. */
  function Cost(s: Symbol, args: seq<Ty>): (c: Option<nat>) {
    if !s.ty.shape.Function? then None
    else
      var params := s.ty.shape.params;
      if |args| < MinArgs(s) || (!s.varArg && |args| > |params|) then None
      else
        var r := RankSum(args, params, Min(|args|, |params|));
        if r < 0 then None else Some(r + if s.varArg then 1 else 0)
  }

  /** Fewer conversions first, then fewer default arguments. */
  predicate Better(s: Symbol, t: Symbol, args: seq<Ty>) {
    && Cost(s, args).Some? && Cost(t, args).Some?
    && var c, d := Cost(s, args).value, Cost(t, args).value;
       c < d || (c == d && s.defaults < t.defaults)
  }

  /** The one viable candidate that is better than every other; none if there is no viable
      candidate or two share the best place. */
  ghost predicate Chosen(cands: multiset<Symbol>, args: seq<Ty>, r: Option<Symbol>) {
    match r
    case Some(s) =>
      && cands[s] == 1 && Cost(s, args).Some?
      && forall t <- cands :: t != s && Cost(t, args).Some? ==> Better(s, t, args)
    case None =>
      forall s <- cands :: Cost(s, args).Some? ==>
        cands[s] >= 2 || exists t :: t in cands && t != s && Cost(t, args).Some? && !Better(s, t, args)
  }

  /** The choice depends on the candidates only, not on the order of their declarations. */
  lemma ChoiceUnique(cands: multiset<Symbol>, args: seq<Ty>, r: Option<Symbol>, q: Option<Symbol>)
    requires Chosen(cands, args, r) && Chosen(cands, args, q)
    ensures r == q
  {
    hide Cost;
    if r.Some? && q.Some? { assert r.value in cands && q.value in cands; }
  }

  /** The candidate is the best of those seen, or ties with another of them. */
  ghost predicate Leads(cands: multiset<Symbol>, args: seq<Ty>, s: Symbol, tied: bool) {
    && s in cands && Cost(s, args).Some?
    && (forall t <- cands :: Cost(t, args).Some? ==> !Better(t, s, args))
    && (tied <==> cands[s] >= 2 || exists t :: t in cands && t != s && Cost(t, args).Some? && !Better(s, t, args))
  }

  ghost predicate NoneViable(cands: multiset<Symbol>, args: seq<Ty>) {
    forall t <- cands :: Cost(t, args) == None
  }

  lemma LeadNext(cands: multiset<Symbol>, args: seq<Ty>, s: Symbol, tied: bool, t: Symbol)
    requires Leads(cands, args, s, tied)
    ensures var more := cands + multiset{t};
      && (Cost(t, args) == None ==> Leads(more, args, s, tied))
      && (Better(t, s, args) ==> Leads(more, args, t, false))
      && (Cost(t, args).Some? && !Better(t, s, args) ==> Leads(more, args, s, tied || !Better(s, t, args)))
  {
    hide Cost;
    var more := cands + multiset{t};
    assert forall x :: x in more <==> x in cands || x == t;
    if Better(t, s, args) {
      assert t !in cands;
      forall x | x in cands && Cost(x, args).Some? ensures Better(t, x, args) {
        assert !Better(x, s, args);
      }
    } else if Cost(t, args).Some? {
      if !Better(s, t, args) && t != s { assert t in more; }
    }
    if tied && cands[s] < 2 {
      var x :| x in cands && x != s && Cost(x, args).Some? && !Better(s, x, args);
      assert x in more;
    }
  }

  lemma LeadFirst(cands: multiset<Symbol>, args: seq<Ty>, t: Symbol)
    requires NoneViable(cands, args) && Cost(t, args).Some?
    ensures Leads(cands + multiset{t}, args, t, false)
  {
    hide Cost;
    assert t !in cands;
  }

  lemma LeaderChosen(cands: multiset<Symbol>, args: seq<Ty>, s: Symbol, tied: bool)
    requires Leads(cands, args, s, tied)
    ensures Chosen(cands, args, if tied then None else Some(s))
  {
    hide Cost;
    if tied {
      forall x | x in cands && Cost(x, args).Some?
        ensures cands[x] >= 2 || exists t :: t in cands && t != x && Cost(t, args).Some? && !Better(x, t, args)
      {
        if x != s && cands[x] < 2 {
          assert !Better(x, s, args);
        }
      }
    }
  }

  class OverloadSet {
    var candidates: seq<Symbol>

    constructor ()
      ensures candidates == []
    {
      candidates := [];
    }

    method Add(sym: Symbol)
      modifies this
      ensures candidates == old(candidates) + [sym]
    {
      candidates := candidates + [sym];
    }

    /** The ranks of the arguments against the parameters, summed while they convert. */
    method TotalRank(args: seq<Ty>, params: seq<Ty>) returns (viable: bool, totalRank: nat)
      ensures var n := Min(|args|, |params|);
        if viable then RankSum(args, params, n) == totalRank else RankSum(args, params, n) == -1
    {
      hide ConversionRank;
      var checked := Min(|args|, |params|);
      viable, totalRank := true, 0;
      var i := 0;
      while i < checked
        invariant i <= checked && RankSum(args, params, i) == totalRank
      {
        var rank := ConversionRank(args[i], params[i]);
        if rank < 0 {
          StaysNegative(args, params, i + 1, checked);
          return false, totalRank;
        }
        totalRank := totalRank + rank;
        i := i + 1;
      }
    }

    method Resolve(args: seq<Ty>) returns (r: Option<Symbol>)
      ensures Chosen(multiset(candidates), args, r)
    {
      hide RankSum, ConversionRank;
      var best: Option<Symbol> := None;
      var bestRank, bestDefaults, ambiguous := 0, 0, false;
      var k := 0;
      while k < |candidates|
        invariant k <= |candidates|
        invariant best == None ==> NoneViable(multiset(candidates[..k]), args) && !ambiguous
        invariant best.Some? ==>
          && Cost(best.value, args) == Some(bestRank) && best.value.defaults == bestDefaults
          && Leads(multiset(candidates[..k]), args, best.value, ambiguous)
      {
        var sym := candidates[k];
        ghost var seen := multiset(candidates[..k]);
        assert candidates[..k + 1] == candidates[..k] + [sym];
        assert multiset(candidates[..k + 1]) == seen + multiset{sym};
        k := k + 1;
        if best.Some? { LeadNext(seen, args, best.value, ambiguous, sym); }
        hide Leads;
        if !sym.ty.shape.Function? { continue; }
        var params := sym.ty.shape.params;
        if sym.varArg {
          if |args| < MinArgs(sym) { continue; }
        } else {
          if |args| < MinArgs(sym) || |args| > |params| { continue; }
        }
        var viable, totalRank := TotalRank(args, params);
        if !viable { continue; }
        if sym.varArg { totalRank := totalRank + 1; }
        if best == None { LeadFirst(seen, args, sym); }
        if best == None || totalRank < bestRank || (totalRank == bestRank && sym.defaults < bestDefaults) {
          best, bestRank, bestDefaults, ambiguous := Some(sym), totalRank, sym.defaults, false;
        } else if totalRank == bestRank && sym.defaults == bestDefaults {
          ambiguous := true;
        }
      }
      assert candidates[..k] == candidates;
      if best.Some? { LeaderChosen(multiset(candidates), args, best.value, ambiguous); }
      if ambiguous { return None; }
      r := best;
    }
  }

  lemma {:induction false} StaysNegative(args: seq<Ty>, params: seq<Ty>, i: nat, n: nat)
    requires i <= n <= |args| && n <= |params| && RankSum(args, params, i) == -1
    ensures RankSum(args, params, n) == -1
  {
    hide ConversionRank;
    if i < n { StaysNegative(args, params, i, n - 1); }
  }
}
