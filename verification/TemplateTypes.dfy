/** Types inside template declarations and the integer expressions of their arguments. */
module TemplateTypes {
  import opened Options

  datatype Ty =
    | Null
    | Prim(name: string)
    | Placed(name: string)                         // the type registered for an instance
    | Var(name: string)
    | Pointer(base: Ty)
    | Slice(elem: Ty)
    | Optional(elem: Ty)
    | Alias(name: string, aliased: Ty)
    | Array(elem: Ty, size: int, sizeParam: string)
    | Result(success: Ty, error: Ty)
    | Function(ret: Ty, params: seq<Ty>)
    | Instance(template: string, args: seq<Ty>, values: seq<ValueArg>)

  datatype ValueArg = Given(n: int) | Named(name: string) | Computed(e: Expr)

  datatype Expr =
    | Num(n: int)
    | Name(name: string)
    | Unary(sign: Sign, e: Expr)
    | Bin(op: Op, l: Expr, r: Expr)
    | Other

  datatype Sign = Plus | Minus | Complement
  datatype Op = Add | Sub | Mul | Div | Mod | And | Or | Xor

  /** Quotients truncate toward zero. */
  function Quotient(a: int, b: int): int
    requires b != 0
  {
    if a >= 0 then a / b else -((-a) / b)
  }

  function Magnitude(a: int): nat {
    if a >= 0 then a else -1 - a
  }

  /** The operator on the binary digits of two's-complement numbers, lowest first. */
  function Digitwise(op: Op, a: int, b: int): int
    decreases Magnitude(a) + Magnitude(b)
  {
    var last := (match op
                 case And => a % 2 == 1 && b % 2 == 1
                 case Or => a % 2 == 1 || b % 2 == 1
                 case _ => a % 2 != b % 2);
    if Magnitude(a) + Magnitude(b) == 0 then if last then -1 else 0
    else (if last then 1 else 0) + 2 * Digitwise(op, a / 2, b / 2)
  }

  function EvalIntExpr(e: Expr, values: map<string, int>): Option<int> {
    match e
    case Num(n) => Some(n)
    case Name(x) => if x in values then Some(values[x]) else None
    case Unary(sign, a) =>
      (match EvalIntExpr(a, values)
       case None => None
       case Some(n) => Some(match sign case Plus => n case Minus => -n case Complement => -1 - n))
    case Bin(op, l, r) =>
      (match (EvalIntExpr(l, values), EvalIntExpr(r, values))
       case (Some(a), Some(b)) =>
         (match op
          case Add => Some(a + b)
          case Sub => Some(a - b)
          case Mul => Some(a * b)
          case Div => if b == 0 then None else Some(Quotient(a, b))
          case Mod => if b == 0 then None else Some(a - Quotient(a, b) * b)
          case And => Some(Digitwise(And, a, b))
          case Or => Some(Digitwise(Or, a, b))
          case Xor => Some(Digitwise(Xor, a, b)))
       case _ => None)
    case Other => None
  }

  function Size(t: Ty): (n: nat)
    ensures n > 0
  {
    match t
    case Pointer(b) => 1 + Size(b)
    case Slice(e) => 1 + Size(e)
    case Optional(e) => 1 + Size(e)
    case Alias(_, a) => 1 + Size(a)
    case Array(e, _, _) => 1 + Size(e)
    case Result(s, e) => 1 + Size(s) + Size(e)
    case Function(r, ps) => 1 + Size(r) + SizeAll(ps)
    case Instance(_, args, _) => 1 + SizeAll(args)
    case _ => 1
  }

  function SizeAll(ts: seq<Ty>): nat {
    if ts == [] then 0 else Size(ts[0]) + SizeAll(ts[1..])
  }

  /** Parts are smaller than the whole. */
  lemma SizeParts(t: Ty)
    ensures t.Pointer? ==> Size(t.base) < Size(t)
    ensures t.Slice? || t.Optional? || t.Array? ==> Size(t.elem) < Size(t)
    ensures t.Alias? ==> Size(t.aliased) < Size(t)
    ensures t.Result? ==> Size(t.success) < Size(t) && Size(t.error) < Size(t)
    ensures t.Instance? ==> SizeAll(t.args) < Size(t)
    ensures t.Function? ==> Size(t.ret) < Size(t) && SizeAll(t.params) + 1 < Size(t)
  {
  }

  lemma {:induction false} SizeOne(ts: seq<Ty>, i: nat)
    requires i < |ts|
    ensures Size(ts[i]) <= SizeAll(ts)
  {
    if i > 0 { SizeOne(ts[1..], i - 1); }
  }

  datatype Param = Param(name: string, isType: bool)
  datatype Template = Template(params: seq<Param>, isClass: bool, body: seq<Ty>, cloneable: bool)
  type Templates = map<string, Template>

  function TypeParams(params: seq<Param>): seq<string> {
    if params == [] then []
    else TypeParams(params[..|params| - 1])
         + if params[|params| - 1].isType then [params[|params| - 1].name] else []
  }

  function ValueParams(params: seq<Param>): seq<string> {
    if params == [] then []
    else ValueParams(params[..|params| - 1])
         + if params[|params| - 1].isType then [] else [params[|params| - 1].name]
  }

  /** Names paired with arguments, in order, as far as both go. */
  function Bind<T>(names: seq<string>, args: seq<T>): map<string, T> {
    if names == [] then map[]
    else
      var n := |names| - 1;
      var m := Bind(names[..n], args);
      if n < |args| then m[names[n] := args[n]] else m
  }

  /** Exactly the names with an argument are bound; of equal names the last one counts. */
  lemma {:induction false} BindIs<T>(names: seq<string>, args: seq<T>, k: nat)
    requires k < |names| && k < |args|
    ensures names[k] in Bind(names, args)
    ensures (forall j :: k < j < |names| && j < |args| ==> names[j] != names[k])
      ==> Bind(names, args)[names[k]] == args[k]
  {
    var n := |names| - 1;
    if k < n { BindIs(names[..n], args, k); }
  }

  lemma {:induction false} BoundNames<T>(names: seq<string>, args: seq<T>, x: string)
    ensures x in Bind(names, args) <==> exists k :: 0 <= k < |names| && k < |args| && names[k] == x
  {
    if names != [] {
      var n := |names| - 1;
      BoundNames(names[..n], args, x);
      assert forall k :: 0 <= k < n ==> names[..n][k] == names[k];
    }
  }

  /** Parameter i takes the argument at its place among the parameters of its sort. */
  lemma {:induction false} ParamPlace(params: seq<Param>, i: nat)
    requires i < |params|
    ensures var t, v := |TypeParams(params[..i])|, |ValueParams(params[..i])|;
      && t + v == i
      && (params[i].isType ==> t < |TypeParams(params)| && TypeParams(params)[t] == params[i].name)
      && (!params[i].isType ==> v < |ValueParams(params)| && ValueParams(params)[v] == params[i].name)
    decreases |params|
  {
    var n := |params| - 1;
    if i < n {
      assert params[..n][..i] == params[..i];
      ParamPlace(params[..n], i);
    }
    ParamCount(params[..i]);
  }

  lemma {:induction false} ParamCount(params: seq<Param>)
    ensures |TypeParams(params)| + |ValueParams(params)| == |params|
  {
    if params != [] { ParamCount(params[..|params| - 1]); }
  }

  /** Every type variable is one of `vars`, and every use of a known template names a type
      for each of its type parameters. */
  predicate Fine(env: Templates, canonical: string -> string, t: Ty, vars: set<string>) {
    match t
    case Var(x) => x in vars
    case Pointer(b) => Fine(env, canonical, b, vars)
    case Slice(e) => Fine(env, canonical, e, vars)
    case Optional(e) => Fine(env, canonical, e, vars)
    case Alias(_, a) => Fine(env, canonical, a, vars)
    case Array(e, _, _) => Fine(env, canonical, e, vars)
    case Result(s, e) => Fine(env, canonical, s, vars) && Fine(env, canonical, e, vars)
    case Function(r, ps) =>
      Fine(env, canonical, r, vars) && forall i :: 0 <= i < |ps| ==> Fine(env, canonical, ps[i], vars)
    case Instance(tpl, args, _) =>
      && (forall i :: 0 <= i < |args| ==> Fine(env, canonical, args[i], vars))
      && (canonical(tpl) in env ==> |TypeParams(env[canonical(tpl)].params)| <= |args|)
    case _ => true
  }

  /** The analyser's checks on the templates themselves; a template registered under some
      spelling is registered under its canonical name too. */
  ghost predicate Checked(env: Templates, canonical: string -> string) {
    && (forall k <- env :: canonical(k) in env && env[canonical(k)] == env[k])
    && (forall k <- env :: forall i :: 0 <= i < |env[k].body| ==>
          Fine(env, canonical, env[k].body[i], set x | x in TypeParams(env[k].params)))
  }
}
