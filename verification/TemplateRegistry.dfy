/** The registry of template instances: one clone per key, states that detect recursion, and
    a limit on how deep instantiations may nest. */
module TemplateRegistry {
  import opened Options
  import opened TemplateTypes

  const MAX_DEPTH: nat := 64

  datatype Status = NotInstantiated | Instantiating | Done
  datatype Decl = Decl(id: nat, name: string, types: seq<Ty>)

  datatype Error =
    | Recursive(template: string)
    | DepthLimit
    | UnknownTemplate(template: string)
    | CannotEvaluate
    | UnknownValue(name: string)
    | CloneFailed(key: string)

  /** The registry's fields, and the keys cloned so far in order. */
  datatype State = State(states: map<string, Status>, done: map<string, Decl>, pending: seq<Decl>,
                         errors: seq<Error>, depth: nat, structs: set<string>, cloned: seq<string>)

  predicate InProgress(s: State, k: string) {
    k in s.states && s.states[k] == Instantiating
  }

  predicate Started(s: State, k: string) {
    k in s.states && s.states[k] != NotInstantiated
  }

  /** No key is cloned twice, cloned keys are those in progress or done, and every finished
      instance waits in the queue. */
  ghost predicate Valid(s: State) {
    && s.depth <= MAX_DEPTH
    && (forall i, j :: 0 <= i < j < |s.cloned| ==> s.cloned[i] != s.cloned[j])
    && (forall k :: k in s.cloned <==> Started(s, k))
    && (forall k <- s.done :: k in s.states && s.states[k] == Done && s.done[k] in s.pending)
    && (forall k :: k in s.states && s.states[k] == Done && k !in s.done ==> CloneFailed(k) in s.errors)
  }

  /** What every call keeps, however it ends: the depth, the keys in progress, and everything
      already answered. */
  ghost predicate Kept(s: State, t: State) {
    && t.depth == s.depth
    && (forall k :: InProgress(s, k) <==> InProgress(t, k))
    && (forall k <- s.states :: s.states[k] == Done ==> k in t.states && t.states[k] == Done)
    && (forall k <- s.done :: k in t.done && t.done[k] == s.done[k])
    && (forall k <- t.done :: k in s.done || !(k in s.states && s.states[k] == Done))
    && s.pending <= t.pending && s.errors <= t.errors && s.cloned <= t.cloned && s.structs <= t.structs
  }

  lemma KeptTrans(s: State, t: State, u: State)
    requires Kept(s, t) && Kept(t, u)
    ensures Kept(s, u)
  {
  }

  lemma KeptSelf(s: State)
    ensures Kept(s, s)
  {
  }

  lemma ReportKept(s: State, e: Error)
    requires Valid(s)
    ensures var t := s.(errors := s.errors + [e]); Valid(t) && Kept(s, t)
  {
  }

  lemma DeeperValid(s: State)
    requires Valid(s) && s.depth < MAX_DEPTH
    ensures Valid(s.(depth := s.depth + 1))
  {
  }

  lemma PlacedKept(s: State, name: string)
    requires Valid(s)
    ensures Valid(s.(structs := s.structs + {name})) && Kept(s, s.(structs := s.structs + {name}))
  {
  }

  lemma DeeperKept(s: State, t: State)
    requires Valid(t) && Kept(s.(depth := s.depth + 1), t) && s.depth < MAX_DEPTH
    ensures var u := t.(depth := s.depth); Valid(u) && Kept(s, u)
  {
    var m, u := s.(depth := s.depth + 1), t.(depth := s.depth);
    assert forall k :: (InProgress(s, k) <==> InProgress(m, k)) && (InProgress(t, k) <==> InProgress(u, k));
    assert forall k :: Started(t, k) <==> Started(u, k);
  }

  function Begin(s: State, key: string): State {
    s.(states := s.states[key := Instantiating], depth := s.depth + 1, cloned := s.cloned + [key])
  }

  lemma BeginIs(s: State, key: string)
    ensures Begin(s, key).depth == s.depth + 1 && Begin(s, key).errors == s.errors
  {
  }

  lemma BeginValid(s: State, key: string)
    requires Valid(s) && !Started(s, key) && s.depth < MAX_DEPTH
    ensures Valid(Begin(s, key))
  {
    var t := Begin(s, key);
    assert forall k :: k in t.cloned <==> k in s.cloned || k == key;
    assert forall k :: k != key ==> (Started(t, k) <==> Started(s, k));
  }

  /** An unknown template leaves the key as if it had never been asked for. */
  lemma UnknownKept(s: State, key: string, e: Error)
    requires Valid(s) && !Started(s, key)
    ensures var t := s.(states := s.states[key := NotInstantiated], errors := s.errors + [e]); Valid(t) && Kept(s, t)
  {
    var t := s.(states := s.states[key := NotInstantiated], errors := s.errors + [e]);
    assert forall k :: Started(t, k) <==> Started(s, k);
  }

  function Failed(s: State, t: State, key: string): State {
    t.(states := t.states[key := Done], depth := s.depth, errors := t.errors + [CloneFailed(key)])
  }

  function Finished(s: State, t: State, key: string, d: Decl): State {
    t.(states := t.states[key := Done], depth := s.depth, done := t.done[key := d], pending := t.pending + [d])
  }

  lemma KeyUntouched(s: State, t: State, key: string)
    requires Valid(s) && !Started(s, key) && Valid(t) && Kept(Begin(s, key), t)
    ensures InProgress(t, key) && key !in t.done && key !in s.done
    ensures forall k :: k != key ==> (InProgress(s, k) <==> InProgress(t, k))
  {
    var m := Begin(s, key);
    assert InProgress(m, key);
    assert forall k :: k != key ==> (InProgress(s, k) <==> InProgress(m, k));
  }

  lemma NoAnswer(s: State, key: string)
    requires Valid(s) && key in s.states && s.states[key] == Done && key !in s.done
    ensures CloneFailed(key) in s.errors
  {
  }

  lemma ErrorsGrow(s: State, t: State)
    requires Kept(s, t)
    ensures s.errors <= t.errors && t.depth == s.depth
  {
  }

  lemma StructsGrow(s: State, t: State)
    requires Kept(s, t)
    ensures s.structs <= t.structs
  {
  }

  /** No error was added, and no clone has ever failed. */
  ghost predicate Quiet(was: seq<Error>, now: seq<Error>) {
    now == was && forall k :: CloneFailed(k) !in now
  }

  /** A quiet stretch is quiet in all its parts. */
  lemma QuietParts(s: State, t: State, u: State)
    requires Kept(s, t) && Kept(t, u)
    ensures Quiet(s.errors, u.errors) ==> Quiet(s.errors, t.errors) && Quiet(t.errors, u.errors)
  {
  }

  /** The keys in progress. */
  ghost function Busy(s: State): set<string> {
    set k | k in s.states && InProgress(s, k)
  }

  lemma BusyKept(s: State, t: State)
    requires Kept(s, t)
    ensures Busy(s) == Busy(t)
  {
    assert forall k :: (k in Busy(s) <==> InProgress(s, k)) && (k in Busy(t) <==> InProgress(t, k));
  }

  lemma BusyDeeper(s: State, d: nat)
    ensures Busy(s.(depth := d)) == Busy(s)
  {
    assert forall k :: InProgress(s.(depth := d), k) <==> InProgress(s, k);
  }

  /** Where nothing stands in the way, a quiet registry stays quiet. */
  ghost predicate Promise(s: State, t: State, free: bool) {
    free && Quiet(s.errors, s.errors) ==> Quiet(s.errors, t.errors)
  }

  lemma PromiseChain(s: State, t: State, u: State, first: bool, second: bool)
    requires Promise(s, t, first) && Promise(t, u, second)
    ensures Promise(s, u, first && second)
  {
  }

  lemma PromiseSame(s: State, t: State, free: bool)
    requires free ==> s.errors == t.errors
    ensures Promise(s, t, free)
  {
  }

  lemma FailedKept(s: State, t: State, key: string)
    requires Valid(s) && !Started(s, key) && s.depth < MAX_DEPTH && Valid(t) && Kept(Begin(s, key), t)
    ensures Valid(Failed(s, t, key)) && Kept(s, Failed(s, t, key))
  {
    KeyUntouched(s, t, key);
    var u := Failed(s, t, key);
    assert forall k :: k != key ==> (Started(u, k) <==> Started(t, k)) && (InProgress(u, k) <==> InProgress(t, k));
  }

  lemma FinishedKept(s: State, t: State, key: string, d: Decl)
    requires Valid(s) && !Started(s, key) && s.depth < MAX_DEPTH && Valid(t) && Kept(Begin(s, key), t)
    ensures Valid(Finished(s, t, key, d)) && Kept(s, Finished(s, t, key, d))
  {
    KeyUntouched(s, t, key);
    var u := Finished(s, t, key, d);
    assert forall k :: k != key ==> (Started(u, k) <==> Started(t, k)) && (InProgress(u, k) <==> InProgress(t, k));
  }

  class Registry {
    const env: Templates
    const canonical: string -> string
    const instanceName: (string, seq<Ty>, seq<int>) -> string
    var states: map<string, Status>
    var done: map<string, Decl>
    var pending: seq<Decl>
    var errors: seq<Error>
    var depth: nat
    var structs: set<string>
    ghost var cloned: seq<string>

    constructor (env: Templates, canonical: string -> string, instanceName: (string, seq<Ty>, seq<int>) -> string)
      ensures this.env == env && this.canonical == canonical && this.instanceName == instanceName
      ensures Valid(Now()) && depth == 0 && states == map[]
    {
      this.env, this.canonical, this.instanceName := env, canonical, instanceName;
      states, done, pending, errors, depth, structs, cloned := map[], map[], [], [], 0, {}, [];
    }

    ghost function Now(): State
      reads this
    {
      State(states, done, pending, errors, depth, structs, cloned)
    }

    ghost predicate Ground(t: Ty) {
      Fine(env, canonical, t, {})
    }

    ghost predicate GroundMap(m: map<string, Ty>) {
      forall x <- m :: Ground(m[x])
    }

    /** The rewritten type: variables replaced by their arguments, array sizes filled in, and
        every use of a template replaced by the type registered under the instance's name. It
        is null instead only for a template that is not a class, or if the call was not quiet. */
    ghost predicate Rewrites(t: Ty, r: Ty, typeArgs: map<string, Ty>, valueArgs: map<string, int>, quiet: bool)
      decreases if Ground(t) then 1 else 2, Size(t), 0
    {
      SizeParts(t);
      match t
      case Var(x) =>
        if x in typeArgs && Ground(typeArgs[x]) then Rewrites(typeArgs[x], r, typeArgs, valueArgs, quiet) else r == t
      case Pointer(b) => r.Pointer? && Rewrites(b, r.base, typeArgs, valueArgs, quiet)
      case Slice(e) => r.Slice? && Rewrites(e, r.elem, typeArgs, valueArgs, quiet)
      case Optional(e) => r.Optional? && Rewrites(e, r.elem, typeArgs, valueArgs, quiet)
      case Alias(n, a) => r.Alias? && r.name == n && Rewrites(a, r.aliased, typeArgs, valueArgs, quiet)
      case Array(e, n, p) =>
        && r.Array? && Rewrites(e, r.elem, typeArgs, valueArgs, quiet)
        && if p != "" && p in valueArgs then r.size == valueArgs[p] && r.sizeParam == ""
           else r.size == n && r.sizeParam == p
      case Result(s, e) =>
        r.Result? && Rewrites(s, r.success, typeArgs, valueArgs, quiet)
          && Rewrites(e, r.error, typeArgs, valueArgs, quiet)
      case Function(q, ps) =>
        && r.Function? && Rewrites(q, r.ret, typeArgs, valueArgs, quiet)
        && AllRewrite(ps, r.params, typeArgs, valueArgs, quiet)
      case Instance(tpl, args, values) =>
        if r == Null then !quiet || !IsClass(tpl)
        else exists rs, vs :: NamesInstance(t, r, rs, vs, valueArgs) && AllRewrite(args, rs, typeArgs, valueArgs, quiet)
      case _ => r == t
    }

    ghost predicate AllRewrite(ts: seq<Ty>, rs: seq<Ty>, typeArgs: map<string, Ty>, valueArgs: map<string, int>,
        quiet: bool)
      decreases if forall i :: 0 <= i < |ts| ==> Ground(ts[i]) then 1 else 2, SizeAll(ts), 1
    {
      |rs| == |ts| && forall i :: 0 <= i < |ts| ==> (SizeOne(ts, i); Rewrites(ts[i], rs[i], typeArgs, valueArgs, quiet))
    }

    /** What holds of a quiet call holds of any. */
    lemma {:induction false} Loosen(t: Ty, r: Ty, typeArgs: map<string, Ty>, valueArgs: map<string, int>, strong: bool,
        weak: bool)
      requires Rewrites(t, r, typeArgs, valueArgs, strong) && (weak ==> strong)
      ensures Rewrites(t, r, typeArgs, valueArgs, weak)
      decreases if Ground(t) then 1 else 2, Size(t), 0
    {
      SizeParts(t);
      FineParts(t, {});
      hide NamesInstance, IsClass, Fine, Size, SizeAll, TypeParams, AllRewrite;
      match t
      case Var(x) =>
        if x in typeArgs && Ground(typeArgs[x]) { Loosen(typeArgs[x], r, typeArgs, valueArgs, strong, weak); }
      case Pointer(b) => Loosen(b, r.base, typeArgs, valueArgs, strong, weak);
      case Slice(e) => Loosen(e, r.elem, typeArgs, valueArgs, strong, weak);
      case Optional(e) => Loosen(e, r.elem, typeArgs, valueArgs, strong, weak);
      case Alias(_, a) => Loosen(a, r.aliased, typeArgs, valueArgs, strong, weak);
      case Array(e, _, _) => Loosen(e, r.elem, typeArgs, valueArgs, strong, weak);
      case Result(s, e) =>
        Loosen(s, r.success, typeArgs, valueArgs, strong, weak);
        Loosen(e, r.error, typeArgs, valueArgs, strong, weak);
      case Function(q, ps) =>
        Loosen(q, r.ret, typeArgs, valueArgs, strong, weak);
        AllLoosen(ps, r.params, typeArgs, valueArgs, strong, weak);
      case Instance(_, _, _) => if r != Null { LoosenInstance(t, r, typeArgs, valueArgs, strong, weak); }
      case _ =>
    }

    lemma {:induction false} LoosenInstance(t: Ty, r: Ty, typeArgs: map<string, Ty>, valueArgs: map<string, int>,
        strong: bool, weak: bool)
      requires t.Instance? && r != Null && Rewrites(t, r, typeArgs, valueArgs, strong) && (weak ==> strong)
      ensures Rewrites(t, r, typeArgs, valueArgs, weak)
      decreases if Ground(t) then 1 else 2, Size(t), 0, 0
    {
      SizeParts(t);
      FineParts(t, {});
      hide NamesInstance, IsClass, Fine, Size, SizeAll, TypeParams, AllRewrite;
      var rs, vs :| NamesInstance(t, r, rs, vs, valueArgs) && AllRewrite(t.args, rs, typeArgs, valueArgs, strong);
      AllLoosen(t.args, rs, typeArgs, valueArgs, strong, weak);
    }

    lemma {:induction false} AllLoosen(ts: seq<Ty>, rs: seq<Ty>, typeArgs: map<string, Ty>,
        valueArgs: map<string, int>, strong: bool, weak: bool)
      requires AllRewrite(ts, rs, typeArgs, valueArgs, strong) && (weak ==> strong)
      ensures AllRewrite(ts, rs, typeArgs, valueArgs, weak)
      decreases if forall i :: 0 <= i < |ts| ==> Ground(ts[i]) then 1 else 2, SizeAll(ts), 1
    {
      hide Rewrites;
      forall i | 0 <= i < |ts| ensures Rewrites(ts[i], rs[i], typeArgs, valueArgs, weak) {
        SizeOne(ts, i);
        Loosen(ts[i], rs[i], typeArgs, valueArgs, strong, weak);
      }
    }

    // ---- types that are instantiated without an error ----

    /** Every use of a template on the way is one of a class template that can be cloned, with
        value arguments that evaluate, comes back to no key in progress and stays within the
        limit. */
    ghost predicate Buildable(t: Ty, typeArgs: map<string, Ty>, valueArgs: map<string, int>, d: nat,
        busy: set<string>)
      requires d <= MAX_DEPTH
      decreases MAX_DEPTH - d, if Ground(t) then 1 else 2, Size(t), 0
    {
      SizeParts(t);
      match t
      case Var(x) =>
        x in typeArgs && Ground(typeArgs[x]) ==> Buildable(typeArgs[x], typeArgs, valueArgs, d, busy)
      case Pointer(b) => Buildable(b, typeArgs, valueArgs, d, busy)
      case Slice(e) => Buildable(e, typeArgs, valueArgs, d, busy)
      case Optional(e) => Buildable(e, typeArgs, valueArgs, d, busy)
      case Alias(_, a) => Buildable(a, typeArgs, valueArgs, d, busy)
      case Array(e, _, _) => Buildable(e, typeArgs, valueArgs, d, busy)
      case Result(s, e) => Buildable(s, typeArgs, valueArgs, d, busy) && Buildable(e, typeArgs, valueArgs, d, busy)
      case Function(q, ps) =>
        Buildable(q, typeArgs, valueArgs, d, busy) && AllBuildable(ps, typeArgs, valueArgs, d, busy)
      case Instance(tpl, args, values) =>
        && d < MAX_DEPTH && AllBuildable(args, typeArgs, valueArgs, d + 1, busy)
        && (forall i :: 0 <= i < |values| ==> ValueOf(values[i], valueArgs).Some?)
        && forall rs, vs :: AllRewrite(args, rs, typeArgs, valueArgs, true) && Evaluated(values, vs, valueArgs) ==>
             InstanceBuildable(tpl, rs, vs, d, busy)
      case _ => true
    }

    lemma BuildableParts(t: Ty, typeArgs: map<string, Ty>, valueArgs: map<string, int>, d: nat, busy: set<string>)
      requires d <= MAX_DEPTH
      ensures
        match t
        case Var(x) => x in typeArgs && Ground(typeArgs[x]) ==>
          Buildable(t, typeArgs, valueArgs, d, busy) == Buildable(typeArgs[x], typeArgs, valueArgs, d, busy)
        case Pointer(b) => Buildable(t, typeArgs, valueArgs, d, busy) == Buildable(b, typeArgs, valueArgs, d, busy)
        case Slice(e) => Buildable(t, typeArgs, valueArgs, d, busy) == Buildable(e, typeArgs, valueArgs, d, busy)
        case Optional(e) => Buildable(t, typeArgs, valueArgs, d, busy) == Buildable(e, typeArgs, valueArgs, d, busy)
        case Alias(_, a) => Buildable(t, typeArgs, valueArgs, d, busy) == Buildable(a, typeArgs, valueArgs, d, busy)
        case Array(e, _, _) => Buildable(t, typeArgs, valueArgs, d, busy) == Buildable(e, typeArgs, valueArgs, d, busy)
        case Result(_, _) => true
        case Function(_, _) => true
        case Instance(_, _, _) => true
        case _ => Buildable(t, typeArgs, valueArgs, d, busy)
    {
      hide AllBuildable, InstanceBuildable, AllRewrite, Size, Fine;
    }

    ghost predicate AllBuildable(ts: seq<Ty>, typeArgs: map<string, Ty>, valueArgs: map<string, int>, d: nat,
        busy: set<string>)
      requires d <= MAX_DEPTH
      decreases MAX_DEPTH - d, if forall i :: 0 <= i < |ts| ==> Ground(ts[i]) then 1 else 2, SizeAll(ts), 1
    {
      forall i :: 0 <= i < |ts| ==> (SizeOne(ts, i); Buildable(ts[i], typeArgs, valueArgs, d, busy))
    }

    ghost predicate InstanceBuildable(tpl: string, args: seq<Ty>, values: seq<int>, d: nat, busy: set<string>)
      requires d <= MAX_DEPTH
      decreases MAX_DEPTH - d, 0, 1, 0
    {
      && IsClass(tpl) && canonical(tpl) in env
      && var params := env[canonical(tpl)].params;
         KeyBuildable(instanceName(canonical(tpl), args, values), tpl, Bind(TypeParams(params), args),
                      Bind(ValueParams(params), values), d, busy)
    }

    ghost predicate KeyBuildable(key: string, tplName: string, typeArgs: map<string, Ty>, valueArgs: map<string, int>,
        d: nat, busy: set<string>)
      requires d <= MAX_DEPTH
      decreases MAX_DEPTH - d, 0, 0, 0
    {
      && key !in busy && d < MAX_DEPTH && canonical(tplName) in env && env[canonical(tplName)].cloneable
      && AllBuildable(env[canonical(tplName)].body, typeArgs, valueArgs, d + 1, busy + {key})
    }

    ghost predicate NamesInstance(t: Ty, r: Ty, rs: seq<Ty>, vs: seq<int>, valueArgs: map<string, int>)
      requires t.Instance?
    {
      r == Placed(instanceName(canonical(t.template), rs, vs)) && Evaluated(t.values, vs, valueArgs)
    }

    /** Nested uses, recursion and the depth limit all come through here. */
    method Rewrite(t: Ty, typeArgs: map<string, Ty>, valueArgs: map<string, int>) returns (r: Ty)
      requires Valid(Now()) && depth <= MAX_DEPTH && Checked(env, canonical) && GroundMap(typeArgs)
        && Fine(env, canonical, t, typeArgs.Keys)
      modifies this
      ensures Valid(Now()) && Kept(old(Now()), Now()) && depth == old(depth) && Ground(r)
      ensures Rewrites(t, r, typeArgs, valueArgs, Quiet(old(errors), errors))
      ensures Promise(old(Now()), Now(), Buildable(t, typeArgs, valueArgs, old(depth), Busy(old(Now()))))
      decreases MAX_DEPTH - depth, if Ground(t) then 1 else 2, Size(t)
    {
      hide Valid, Kept, Checked, Size, SizeAll, AllRewrite, NamesInstance, TypeParams, Quiet, IsClass;
      hide Busy, Promise, Buildable, GroundMap, Rewrites;
      KeptSelf(Now());
      PromiseSame(Now(), Now(), true);
      BuildableParts(t, typeArgs, valueArgs, depth, Busy(Now()));
      SizeParts(t);
      FineParts(t, typeArgs.Keys);
      FineParts(t, {});
      hide Fine;
      match t {
        case Var(x) =>
          GroundArg(typeArgs, x);
          r := Rewrite(typeArgs[x], typeArgs, valueArgs);
        case Pointer(b) =>
          var base := Rewrite(b, typeArgs, valueArgs);
          r := Pointer(base);
        case Slice(e) =>
          var elem := Rewrite(e, typeArgs, valueArgs);
          r := Slice(elem);
        case Optional(e) =>
          var elem := Rewrite(e, typeArgs, valueArgs);
          r := Optional(elem);
        case Alias(n, a) =>
          var aliased := Rewrite(a, typeArgs, valueArgs);
          r := Alias(n, aliased);
        case Array(e, size, sizeParam) =>
          var elem := Rewrite(e, typeArgs, valueArgs);
          if sizeParam != "" && sizeParam in valueArgs {
            r := Array(elem, valueArgs[sizeParam], "");
          } else {
            r := Array(elem, size, sizeParam);
          }
        case Result(s, e) =>
          r := RewriteResult(s, e, typeArgs, valueArgs);
        case Function(q, ps) =>
          r := RewriteFunction(q, ps, typeArgs, valueArgs);
        case Instance(tpl, args, values) =>
          r := ResolveInstance(tpl, args, values, typeArgs, valueArgs);
        case _ => r := t;
      }
      FineParts(r, {});
      RewritesParts(t, r, typeArgs, valueArgs, Quiet(old(errors), errors));
    }

    lemma RewritesParts(t: Ty, r: Ty, typeArgs: map<string, Ty>, valueArgs: map<string, int>, quiet: bool)
      ensures
        match t
        case Var(x) =>
          x in typeArgs && Ground(typeArgs[x]) && Rewrites(typeArgs[x], r, typeArgs, valueArgs, quiet) ==>
            Rewrites(t, r, typeArgs, valueArgs, quiet)
        case Pointer(b) =>
          r.Pointer? && Rewrites(b, r.base, typeArgs, valueArgs, quiet) ==> Rewrites(t, r, typeArgs, valueArgs, quiet)
        case Slice(e) =>
          r.Slice? && Rewrites(e, r.elem, typeArgs, valueArgs, quiet) ==> Rewrites(t, r, typeArgs, valueArgs, quiet)
        case Optional(e) =>
          r.Optional? && Rewrites(e, r.elem, typeArgs, valueArgs, quiet) ==> Rewrites(t, r, typeArgs, valueArgs, quiet)
        case Alias(n, a) =>
          r.Alias? && r.name == n && Rewrites(a, r.aliased, typeArgs, valueArgs, quiet) ==>
            Rewrites(t, r, typeArgs, valueArgs, quiet)
        case Array(e, n, p) =>
          var (size, rest) := if p != "" && p in valueArgs then (valueArgs[p], "") else (n, p);
          (r.Array? && r.size == size && r.sizeParam == rest && Rewrites(e, r.elem, typeArgs, valueArgs, quiet)) ==>
            Rewrites(t, r, typeArgs, valueArgs, quiet)
        case Result(_, _) => true
        case Function(_, _) => true
        case Instance(_, _, _) => true
        case _ => Rewrites(t, t, typeArgs, valueArgs, quiet)
    {
      hide NamesInstance, AllRewrite, Size, Fine, IsClass;
    }

    lemma GroundArg(typeArgs: map<string, Ty>, x: string)
      requires GroundMap(typeArgs) && x in typeArgs
      ensures Ground(typeArgs[x]) && Fine(env, canonical, typeArgs[x], typeArgs.Keys)
    {
      FineMore(typeArgs[x], {}, typeArgs.Keys);
    }

    /** A type is fine exactly when its parts are. */
    lemma FineParts(t: Ty, vars: set<string>)
      ensures Fine(env, canonical, t, vars) <==>
        match t
        case Var(x) => x in vars
        case Pointer(b) => Fine(env, canonical, b, vars)
        case Slice(e) => Fine(env, canonical, e, vars)
        case Optional(e) => Fine(env, canonical, e, vars)
        case Alias(_, a) => Fine(env, canonical, a, vars)
        case Array(e, _, _) => Fine(env, canonical, e, vars)
        case Result(s, e) => Fine(env, canonical, s, vars) && Fine(env, canonical, e, vars)
        case Function(r, ps) =>
          Fine(env, canonical, r, vars) && forall i :: 0 <= i < |ps| ==> Fine(env, canonical, ps[i], vars)
        case Instance(tpl, args, _) =>
          && (forall i :: 0 <= i < |args| ==> Fine(env, canonical, args[i], vars))
          && (canonical(tpl) in env ==> |TypeParams(env[canonical(tpl)].params)| <= |args|)
        case _ => true
    {
    }

    method RewriteResult(s: Ty, e: Ty, typeArgs: map<string, Ty>, valueArgs: map<string, int>) returns (r: Ty)
      requires Valid(Now()) && depth <= MAX_DEPTH && Checked(env, canonical) && GroundMap(typeArgs)
      requires Fine(env, canonical, Result(s, e), typeArgs.Keys)
      modifies this
      ensures Valid(Now()) && Kept(old(Now()), Now()) && depth == old(depth) && Ground(r)
      ensures Rewrites(Result(s, e), r, typeArgs, valueArgs, Quiet(old(errors), errors))
      ensures Promise(old(Now()), Now(), Buildable(Result(s, e), typeArgs, valueArgs, old(depth), Busy(old(Now()))))
      decreases MAX_DEPTH - depth, if Ground(Result(s, e)) then 1 else 2, Size(Result(s, e)), 0
    {
      hide Valid, Kept, Checked, Size, SizeAll, AllRewrite, TypeParams, GroundMap, Quiet, Rewrites;
      hide Busy, Promise, Buildable;
      SizeParts(Result(s, e));
      FineParts(Result(s, e), typeArgs.Keys);
      FineParts(Result(s, e), {});
      hide Fine;
      var success := Rewrite(s, typeArgs, valueArgs);
      ghost var m := Now();
      var error := Rewrite(e, typeArgs, valueArgs);
      KeptTrans(old(Now()), m, Now());
      QuietParts(old(Now()), m, Now());
      BusyKept(old(Now()), m);
      ResultPromised(old(Now()), m, Now(), s, e, typeArgs, valueArgs);
      r := Result(success, error);
      ResultRewritten(s, e, r, typeArgs, valueArgs, Quiet(old(errors), m.errors), Quiet(m.errors, errors),
        Quiet(old(errors), errors));
      FineParts(r, {});
    }

    lemma ResultPromised(s: State, t: State, u: State, ok: Ty, err: Ty, typeArgs: map<string, Ty>,
        valueArgs: map<string, int>)
      requires s.depth <= MAX_DEPTH
      requires Promise(s, t, Buildable(ok, typeArgs, valueArgs, s.depth, Busy(s)))
      requires Promise(t, u, Buildable(err, typeArgs, valueArgs, s.depth, Busy(s)))
      ensures Promise(s, u, Buildable(Result(ok, err), typeArgs, valueArgs, s.depth, Busy(s)))
    {
      PromiseChain(s, t, u, Buildable(ok, typeArgs, valueArgs, s.depth, Busy(s)),
        Buildable(err, typeArgs, valueArgs, s.depth, Busy(s)));
      hide AllBuildable, InstanceBuildable, Busy, Quiet, AllRewrite;
    }

    lemma ResultRewritten(s: Ty, e: Ty, r: Ty, typeArgs: map<string, Ty>, valueArgs: map<string, int>, first: bool,
        second: bool, quiet: bool)
      requires r.Result? && Rewrites(s, r.success, typeArgs, valueArgs, first)
        && Rewrites(e, r.error, typeArgs, valueArgs, second)
      requires quiet ==> first && second
      ensures Rewrites(Result(s, e), r, typeArgs, valueArgs, quiet)
    {
      Loosen(s, r.success, typeArgs, valueArgs, first, quiet);
      Loosen(e, r.error, typeArgs, valueArgs, second, quiet);
      hide AllRewrite, NamesInstance, Fine, Size;
    }

    method RewriteFunction(q: Ty, ps: seq<Ty>, typeArgs: map<string, Ty>, valueArgs: map<string, int>) returns (r: Ty)
      requires Valid(Now()) && depth <= MAX_DEPTH && Checked(env, canonical) && GroundMap(typeArgs)
      requires Fine(env, canonical, Function(q, ps), typeArgs.Keys)
      modifies this
      ensures Valid(Now()) && Kept(old(Now()), Now()) && depth == old(depth) && Ground(r)
      ensures Rewrites(Function(q, ps), r, typeArgs, valueArgs, Quiet(old(errors), errors))
      ensures Promise(old(Now()), Now(), Buildable(Function(q, ps), typeArgs, valueArgs, old(depth), Busy(old(Now()))))
      decreases MAX_DEPTH - depth, if Ground(Function(q, ps)) then 1 else 2, Size(Function(q, ps)), 0
    {
      hide Valid, Kept, Checked, Size, SizeAll, AllRewrite, TypeParams, GroundMap, Quiet;
      hide Busy, Promise, AllBuildable, InstanceBuildable;
      SizeParts(Function(q, ps));
      FineParts(Function(q, ps), typeArgs.Keys);
      FineParts(Function(q, ps), {});
      hide Fine;
      var ret := Rewrite(q, typeArgs, valueArgs);
      ghost var m := Now();
      var params := RewriteAll(ps, typeArgs, valueArgs);
      KeptTrans(old(Now()), m, Now());
      QuietParts(old(Now()), m, Now());
      Loosen(q, ret, typeArgs, valueArgs, Quiet(old(errors), m.errors), Quiet(old(errors), errors));
      AllLoosen(ps, params, typeArgs, valueArgs, Quiet(m.errors, errors), Quiet(old(errors), errors));
      ghost var busy := Busy(old(Now()));
      BusyKept(old(Now()), m);
      PromiseChain(old(Now()), m, Now(), Buildable(q, typeArgs, valueArgs, depth, busy),
        AllBuildable(ps, typeArgs, valueArgs, depth, busy));
      r := Function(ret, params);
      FineParts(r, {});
    }

    method RewriteAll(ts: seq<Ty>, typeArgs: map<string, Ty>, valueArgs: map<string, int>) returns (rs: seq<Ty>)
      requires Valid(Now()) && depth <= MAX_DEPTH && Checked(env, canonical) && GroundMap(typeArgs)
      requires forall i :: 0 <= i < |ts| ==> Fine(env, canonical, ts[i], typeArgs.Keys)
      modifies this
      ensures Valid(Now()) && Kept(old(Now()), Now()) && depth == old(depth) && |rs| == |ts|
      ensures (forall i :: 0 <= i < |rs| ==> Ground(rs[i]))
        && AllRewrite(ts, rs, typeArgs, valueArgs, Quiet(old(errors), errors))
      ensures Promise(old(Now()), Now(), AllBuildable(ts, typeArgs, valueArgs, old(depth), Busy(old(Now()))))
      decreases MAX_DEPTH - depth, if forall i :: 0 <= i < |ts| ==> Ground(ts[i]) then 1 else 2, SizeAll(ts) + 1
    {
      hide Valid, Kept, Checked, Fine, Rewrites, Size, GroundMap, Quiet;
      hide Busy, Promise, Buildable;
      rs := [];
      KeptSelf(Now());
      ghost var free := AllBuildable(ts, typeArgs, valueArgs, depth, Busy(Now()));
      PromiseSame(Now(), Now(), free);
      for i := 0 to |ts|
        invariant Valid(Now()) && Kept(old(Now()), Now()) && depth == old(depth) && |rs| == i
        invariant forall k :: 0 <= k < i ==>
          Ground(rs[k]) && Rewrites(ts[k], rs[k], typeArgs, valueArgs, Quiet(old(errors), errors))
        invariant Promise(old(Now()), Now(), free)
      {
        ghost var s := Now();
        SizeOne(ts, i);
        var r := Rewrite(ts[i], typeArgs, valueArgs);
        KeptTrans(old(Now()), s, Now());
        QuietParts(old(Now()), s, Now());
        ghost var quiet := Quiet(old(errors), errors);
        forall k | 0 <= k < i ensures Rewrites(ts[k], rs[k], typeArgs, valueArgs, quiet) {
          Loosen(ts[k], rs[k], typeArgs, valueArgs, Quiet(old(errors), s.errors), quiet);
        }
        Loosen(ts[i], r, typeArgs, valueArgs, Quiet(s.errors, errors), quiet);
        BusyKept(old(Now()), s);
        PromiseChain(old(Now()), s, Now(), free, Buildable(ts[i], typeArgs, valueArgs, depth, Busy(s)));
        rs := rs + [r];
      }
    }

    /** A use of a template: its arguments are rewritten one level deeper, then the instance
        is looked up or made. */
    method ResolveInstance(tpl: string, args: seq<Ty>, values: seq<ValueArg>,
                           typeArgs: map<string, Ty>, valueArgs: map<string, int>) returns (r: Ty)
      requires Valid(Now()) && depth <= MAX_DEPTH && Checked(env, canonical) && GroundMap(typeArgs)
      requires Fine(env, canonical, Instance(tpl, args, values), typeArgs.Keys)
      modifies this
      ensures Valid(Now()) && Kept(old(Now()), Now()) && depth == old(depth) && Ground(r)
      ensures r == Null || (r.Placed? && r.name in structs)
      ensures Rewrites(Instance(tpl, args, values), r, typeArgs, valueArgs, Quiet(old(errors), errors))
      ensures r == Null && IsClass(tpl) ==>
        |errors| > old(|errors|) || FailedBefore(tpl, args, values, typeArgs, valueArgs)
      ensures Promise(old(Now()), Now(),
                      Buildable(Instance(tpl, args, values), typeArgs, valueArgs, old(depth), Busy(old(Now()))))
      decreases MAX_DEPTH - depth, 0, 4
    {
      hide Valid, Kept, Checked, GroundMap, AllRewrite, IsClass;
      hide Busy, Promise, AllBuildable, InstanceBuildable, Rewrites;
      NullRewritten(Instance(tpl, args, values), typeArgs, valueArgs);
      FineParts(Null, {});
      FineParts(Instance(tpl, args, values), typeArgs.Keys);
      hide Fine;
      r := Null;
      ghost var free := Buildable(Instance(tpl, args, values), typeArgs, valueArgs, depth, Busy(Now()));
      if depth >= MAX_DEPTH {
        PromiseSame(Now(), Now().(errors := errors + [DepthLimit]), free);
        ReportKept(Now(), DepthLimit);
        errors := errors + [DepthLimit];
        return;
      }
      var rewritten := RewriteDeeper(args, typeArgs, valueArgs);
      ghost var s := Now();
      ErrorsGrow(old(Now()), s);
      var evaluated, ok := EvalAll(values, valueArgs);
      KeptTrans(old(Now()), s, Now());
      if !ok {
        PromiseSame(old(Now()), Now(), free);
        return;
      }
      ghost var m := Now();
      r := PlaceInstance(tpl, rewritten, evaluated);
      KeptTrans(old(Now()), m, Now());
      ErrorsGrow(m, Now());
      QuietParts(old(Now()), m, Now());
      BusyKept(old(Now()), m);
      PromiseResolved(old(Now()), s, m, Now(), Instance(tpl, args, values), typeArgs, valueArgs, rewritten, evaluated);
      AllLoosen(args, rewritten, typeArgs, valueArgs, Quiet(old(errors), s.errors), false);
      InstanceRewritten(tpl, args, values, typeArgs, valueArgs, r, rewritten, evaluated, Quiet(old(errors), s.errors),
        Quiet(old(errors), errors));
      assert FailedFor(tpl, args, values, typeArgs, valueArgs, rewritten, evaluated)
        <==> CloneFailed(instanceName(canonical(tpl), rewritten, evaluated)) in errors;
    }

    lemma NullRewritten(use: Ty, typeArgs: map<string, Ty>, valueArgs: map<string, int>)
      requires use.Instance?
      ensures Rewrites(use, Null, typeArgs, valueArgs, false)
    {
    }

    lemma PromiseResolved(s: State, t: State, m: State, u: State, use: Ty, typeArgs: map<string, Ty>,
        valueArgs: map<string, int>, rs: seq<Ty>, vs: seq<int>)
      requires use.Instance? && s.depth < MAX_DEPTH && t.errors == m.errors && Busy(m) == Busy(s)
      requires AllRewrite(use.args, rs, typeArgs, valueArgs, Quiet(s.errors, t.errors))
        && Evaluated(use.values, vs, valueArgs)
      requires Promise(s, t, AllBuildable(use.args, typeArgs, valueArgs, s.depth + 1, Busy(s)))
      requires Promise(m, u, InstanceBuildable(use.template, rs, vs, s.depth, Busy(s)))
      ensures Promise(s, u, Buildable(use, typeArgs, valueArgs, s.depth, Busy(s)))
    {
      hide AllRewrite, Evaluated, AllBuildable, InstanceBuildable, Busy, ValueOf;
    }

    /** The clone of this very instance failed, now or earlier. */
    ghost predicate FailedBefore(tpl: string, args: seq<Ty>, values: seq<ValueArg>, typeArgs: map<string, Ty>,
        valueArgs: map<string, int>)
      reads this
    {
      exists rs, vs :: FailedFor(tpl, args, values, typeArgs, valueArgs, rs, vs)
    }

    ghost predicate FailedFor(tpl: string, args: seq<Ty>, values: seq<ValueArg>, typeArgs: map<string, Ty>,
        valueArgs: map<string, int>,
                              rs: seq<Ty>, vs: seq<int>)
      reads this
    {
      && AllRewrite(args, rs, typeArgs, valueArgs, false) && Evaluated(values, vs, valueArgs)
      && CloneFailed(instanceName(canonical(tpl), rs, vs)) in errors
    }

    ghost predicate Evaluated(values: seq<ValueArg>, vs: seq<int>, valueArgs: map<string, int>) {
      |vs| == |values| && forall i :: 0 <= i < |vs| ==> ValueOf(values[i], valueArgs) == Some(vs[i])
    }

    lemma InstanceRewritten(tpl: string, args: seq<Ty>, values: seq<ValueArg>, typeArgs: map<string, Ty>,
        valueArgs: map<string, int>,
                            r: Ty, rs: seq<Ty>, vs: seq<int>, strong: bool, quiet: bool)
      requires AllRewrite(args, rs, typeArgs, valueArgs, strong) && (quiet ==> strong)
      requires Evaluated(values, vs, valueArgs)
      requires r == Null || r == Placed(instanceName(canonical(tpl), rs, vs))
      requires r == Null ==> !quiet || !IsClass(tpl)
      ensures Rewrites(Instance(tpl, args, values), r, typeArgs, valueArgs, quiet)
    {
      AllLoosen(args, rs, typeArgs, valueArgs, strong, quiet);
      hide AllRewrite, IsClass, Fine, Evaluated, Size, SizeAll;
      if r != Null { assert NamesInstance(Instance(tpl, args, values), r, rs, vs, valueArgs); }
    }

    /** The arguments count against the depth limit like an instantiation. */
    method RewriteDeeper(args: seq<Ty>, typeArgs: map<string, Ty>, valueArgs: map<string, int>) returns (rs: seq<Ty>)
      requires Valid(Now()) && depth < MAX_DEPTH && Checked(env, canonical) && GroundMap(typeArgs)
      requires forall i :: 0 <= i < |args| ==> Fine(env, canonical, args[i], typeArgs.Keys)
      modifies this
      ensures Valid(Now()) && Kept(old(Now()), Now()) && depth == old(depth) && |rs| == |args|
      ensures (forall i :: 0 <= i < |rs| ==> Ground(rs[i]))
        && AllRewrite(args, rs, typeArgs, valueArgs, Quiet(old(errors), errors))
      ensures Promise(old(Now()), Now(), AllBuildable(args, typeArgs, valueArgs, old(depth) + 1, Busy(old(Now()))))
      decreases MAX_DEPTH - depth, 0, 0
    {
      hide Valid, Kept, Checked, GroundMap, Fine, AllRewrite, AllBuildable, Quiet, Busy;
      DeeperValid(Now());
      BusyDeeper(Now(), depth + 1);
      depth := depth + 1;
      rs := RewriteAll(args, typeArgs, valueArgs);
      DeeperKept(old(Now()), Now());
      depth := depth - 1;
    }

    /** Register the type of the instance, then make the instance. */
    method PlaceInstance(tpl: string, args: seq<Ty>, values: seq<int>) returns (r: Ty)
      requires Valid(Now()) && depth <= MAX_DEPTH && Checked(env, canonical)
      requires forall i :: 0 <= i < |args| ==> Ground(args[i])
      requires canonical(tpl) in env ==> |TypeParams(env[canonical(tpl)].params)| <= |args|
      modifies this
      ensures Valid(Now()) && Kept(old(Now()), Now()) && depth == old(depth) && Ground(r)
      ensures r == Null || r == Placed(instanceName(canonical(tpl), args, values))
      ensures instanceName(canonical(tpl), args, values) in structs
      ensures r == Null && IsClass(tpl) ==>
        |errors| > old(|errors|) || CloneFailed(instanceName(canonical(tpl), args, values)) in errors
      ensures Promise(old(Now()), Now(), InstanceBuildable(tpl, args, values, old(depth), Busy(old(Now()))))
      decreases MAX_DEPTH - depth, 0, 3
    {
      hide Valid, Kept, Checked, InstanceBuildable, Quiet, Promise, Busy;
      var name := instanceName(canonical(tpl), args, values);
      PlacedKept(Now(), name);
      structs := structs + {name};
      ghost var s := Now();
      var inst := InstantiateClass(tpl, args, values);
      StructsGrow(s, Now());
      BusyKept(old(Now()), s);
      PromiseSame(old(Now()), s, true);
      PromiseChain(old(Now()), s, Now(), true, InstanceBuildable(tpl, args, values, depth, Busy(s)));
      KeptTrans(old(Now()), s, Now());
      r := if inst == None then Null else Placed(name);
    }

    /** Symbolic value arguments take the values of the enclosing instantiation: first the
        expressions are evaluated, then the names looked up. */
    method EvalAll(values: seq<ValueArg>, valueArgs: map<string, int>) returns (evaluated: seq<int>, ok: bool)
      requires Valid(Now())
      modifies this`errors
      ensures Valid(Now()) && Kept(old(Now()), Now()) && depth == old(depth)
      ensures ok <==> forall i :: 0 <= i < |values| ==> ValueOf(values[i], valueArgs).Some?
      ensures ok ==> errors == old(errors) && |evaluated| == |values|
      ensures ok ==> forall i :: 0 <= i < |values| ==> ValueOf(values[i], valueArgs) == Some(evaluated[i])
      ensures !ok ==> |errors| == |old(errors)| + 1
      ensures !ok ==> (errors[|errors| - 1] == CannotEvaluate
                       <==> exists i ::
                              0 <= i < |values| && values[i].Computed? && ValueOf(values[i], valueArgs) == None)
    {
      hide Valid, Kept;
      KeptSelf(Now());
      evaluated, ok := seq(|values|, i requires 0 <= i < |values| => if values[i].Given? then values[i].n else 0), true;
      for i := 0 to |values|
        invariant Now() == old(Now()) && |evaluated| == |values|
        invariant forall k :: 0 <= k < |values| && (values[k].Given? || (values[k].Computed? && k < i)) ==>
                    ValueOf(values[k], valueArgs) == Some(evaluated[k])
      {
        if values[i].Computed? {
          var n := EvalIntExpr(values[i].e, valueArgs);
          if n == None {
            assert ValueOf(values[i], valueArgs) == None;
            ReportKept(Now(), CannotEvaluate);
            errors := errors + [CannotEvaluate];
            return evaluated, false;
          }
          evaluated := evaluated[i := n.value];
        }
      }
      for i := 0 to |values|
        invariant Now() == old(Now()) && |evaluated| == |values|
        invariant forall k :: 0 <= k < |values| && (!values[k].Named? || k < i) ==>
                    ValueOf(values[k], valueArgs) == Some(evaluated[k])
      {
        if values[i].Named? {
          var x := values[i].name;
          if x !in valueArgs {
            assert ValueOf(values[i], valueArgs) == None;
            ReportKept(Now(), UnknownValue(x));
            errors := errors + [UnknownValue(x)];
            return evaluated, false;
          }
          evaluated := evaluated[i := valueArgs[x]];
        }
      }
    }

    function ValueOf(v: ValueArg, valueArgs: map<string, int>): Option<int> {
      match v
      case Given(n) => Some(n)
      case Computed(e) => EvalIntExpr(e, valueArgs)
      case Named(x) => if x in valueArgs then Some(valueArgs[x]) else None
    }

    function Find(name: string): Option<Template> {
      if name in env then Some(env[name])
      else if canonical(name) in env then Some(env[canonical(name)])
      else None
    }

    predicate IsClass(name: string) {
      Find(name).Some? && Find(name).value.isClass
    }

    /** Each parameter takes the next argument of its sort, as long as there is one. */
    method BindArguments(params: seq<Param>, typeArgs: seq<Ty>, valueArgs: seq<int>)
      returns (types: map<string, Ty>, values: map<string, int>)
      ensures types == Bind(TypeParams(params), typeArgs) && values == Bind(ValueParams(params), valueArgs)
    {
      types, values := map[], map[];
      var ti, vi := 0, 0;
      for i := 0 to |params|
        invariant ti == Min(|TypeParams(params[..i])|, |typeArgs|) && vi == Min(|ValueParams(params[..i])|, |valueArgs|)
        invariant types == Bind(TypeParams(params[..i]), typeArgs)
        invariant values == Bind(ValueParams(params[..i]), valueArgs)
      {
        var p := params[i];
        NextParam(params, i);
        hide TypeParams, ValueParams, Bind;
        if p.isType {
          NextBound(TypeParams(params[..i]), p.name, typeArgs);
          if ti < |typeArgs| {
            types := types[p.name := typeArgs[ti]];
            ti := ti + 1;
          }
        } else {
          NextBound(ValueParams(params[..i]), p.name, valueArgs);
          if vi < |valueArgs| {
            values := values[p.name := valueArgs[vi]];
            vi := vi + 1;
          }
        }
      }
      assert params[..|params|] == params;
    }

    static lemma NextParam(params: seq<Param>, i: nat)
      requires i < |params|
      ensures TypeParams(params[..i + 1])
           == if params[i].isType then TypeParams(params[..i]) + [params[i].name] else TypeParams(params[..i])
      ensures ValueParams(params[..i + 1])
           == if params[i].isType then ValueParams(params[..i]) else ValueParams(params[..i]) + [params[i].name]
    {
      assert params[..i + 1][..i] == params[..i];
    }

    static function Min(a: nat, b: nat): nat {
      if a < b then a else b
    }

    static lemma NextBound<T>(names: seq<string>, name: string, args: seq<T>)
      ensures Bind(names + [name], args)
           == if |names| < |args| then Bind(names, args)[name := args[|names|]] else Bind(names, args)
    {
      assert (names + [name])[..|names|] == names;
    }

    method InstantiateClass(name: string, typeArgs: seq<Ty>, valueArgs: seq<int>) returns (r: Option<Decl>)
      requires Valid(Now()) && depth <= MAX_DEPTH && Checked(env, canonical)
      requires forall i :: 0 <= i < |typeArgs| ==> Ground(typeArgs[i])
      requires canonical(name) in env ==> |TypeParams(env[canonical(name)].params)| <= |typeArgs|
      modifies this
      ensures Valid(Now()) && Kept(old(Now()), Now()) && depth == old(depth)
      ensures r.Some? ==> r == Lookup(instanceName(canonical(name), typeArgs, valueArgs))
      ensures r.Some? && !old(Started(Now(), instanceName(canonical(name), typeArgs, valueArgs))) ==>
        && canonical(name) in env
        && var params := env[canonical(name)].params;
          MadeFrom(r.value, name, instanceName(canonical(name), typeArgs, valueArgs),
                   Bind(TypeParams(params), typeArgs), Bind(ValueParams(params), valueArgs), Quiet(old(errors), errors))
      ensures r == None && IsClass(name) ==>
        |errors| > old(|errors|) || CloneFailed(instanceName(canonical(name), typeArgs, valueArgs)) in errors
      ensures !IsClass(name) ==> r == None && Now() == old(Now())
      ensures IsClass(name) && !old(Started(Now(), instanceName(canonical(name), typeArgs, valueArgs))) ==>
        canonical(name) in env && (r.Some? <==> old(depth) < MAX_DEPTH && env[canonical(name)].cloneable)
      ensures Promise(old(Now()), Now(), InstanceBuildable(name, typeArgs, valueArgs, old(depth), Busy(old(Now()))))
      decreases MAX_DEPTH - depth, 0, 2
    {
      hide KeyBuildable, Busy;
      KeptSelf(Now());
      var tpl := Find(name);
      if tpl == None || !tpl.value.isClass { return None; }
      var types, values := BindArguments(tpl.value.params, typeArgs, valueArgs);
      BindGround(TypeParams(tpl.value.params), typeArgs);
      var key := instanceName(canonical(name), typeArgs, valueArgs);
      r := InstantiateByKey(key, name, key, types, values);
    }

    lemma BindGround(params: seq<string>, args: seq<Ty>)
      requires forall i :: 0 <= i < |args| ==> Ground(args[i])
      ensures GroundMap(Bind(params, args))
      ensures |params| <= |args| ==> Bind(params, args).Keys == set x | x in params
    {
      BindTakes(params, args);
      hide Ground, Bind;
      forall x ensures x in Bind(params, args) <==> exists k :: 0 <= k < |params| && k < |args| && params[k] == x {
        BoundNames(params, args, x);
      }
    }

    static lemma {:induction false} BindTakes<T>(params: seq<string>, args: seq<T>)
      ensures forall x <- Bind(params, args) :: Bind(params, args)[x] in args
    {
      if params != [] { BindTakes(params[..|params| - 1], args); }
    }

    ghost function Lookup(key: string): Option<Decl>
      reads this
    {
      if key in states && states[key] == Done && key in done then Some(done[key]) else None
    }

    /** The instance carries its name and the template's types rewritten. */
    ghost predicate MadeFrom(d: Decl, tplName: string, display: string, typeArgs: map<string, Ty>,
        valueArgs: map<string, int>,
                             quiet: bool) {
      && d.name == display && canonical(tplName) in env
      && AllRewrite(env[canonical(tplName)].body, d.types, typeArgs, valueArgs, quiet)
    }

    /** Every type parameter of the template has its argument. */
    ghost predicate Filled(tplName: string, typeArgs: map<string, Ty>) {
      canonical(tplName) in env ==> forall x <- TypeParams(env[canonical(tplName)].params) :: x in typeArgs
    }

    /** A finished key answers at once and always with the same declaration; a key in
        progress, too great a depth or an unknown template is an error; otherwise the
        template is cloned once. */
    method InstantiateByKey(key: string, tplName: string, display: string,
                            typeArgs: map<string, Ty>, valueArgs: map<string, int>) returns (r: Option<Decl>)
      requires Valid(Now()) && depth <= MAX_DEPTH && Checked(env, canonical) && GroundMap(typeArgs)
      requires Filled(tplName, typeArgs)
      modifies this
      ensures Valid(Now()) && Kept(old(Now()), Now()) && depth == old(depth)
      ensures old(key in states && states[key] == Done) ==> Now() == old(Now()) && r == Lookup(key)
      ensures old(InProgress(Now(), key)) ==> r == None && errors == old(errors) + [Recursive(tplName)]
      ensures r.Some? ==> r == Lookup(key)
      ensures r.Some? && !old(Started(Now(), key)) ==>
        MadeFrom(r.value, tplName, display, typeArgs, valueArgs, Quiet(old(errors), errors))
      ensures r == None ==> CloneFailed(key) in errors || |errors| > old(|errors|)
      ensures !old(Started(Now(), key)) && old(depth) == MAX_DEPTH ==> r == None && errors == old(errors) + [DepthLimit]
      ensures !old(Started(Now(), key)) && old(depth) < MAX_DEPTH ==>
        && (canonical(tplName) !in env ==> r == None && errors == old(errors) + [UnknownTemplate(tplName)])
        && (canonical(tplName) in env ==> (r.Some? <==> env[canonical(tplName)].cloneable))
      ensures Promise(old(Now()), Now(),
                      KeyBuildable(key, tplName, typeArgs, valueArgs, old(depth), Busy(old(Now()))))
      decreases MAX_DEPTH - depth, 0, 1
    {
      hide Valid, Kept, AllBuildable;
      ghost var s := Now();
      KeptSelf(s);
      if key in states && states[key] == Done {
        if key !in done { NoAnswer(s, key); }
        r := if key in done then Some(done[key]) else None;
        return;
      }
      if key in states && states[key] == Instantiating {
        ReportKept(s, Recursive(tplName));
        errors := errors + [Recursive(tplName)];
        return None;
      }
      if depth >= MAX_DEPTH {
        ReportKept(s, DepthLimit);
        errors := errors + [DepthLimit];
        return None;
      }
      r := CloneOnce(key, tplName, display, typeArgs, valueArgs);
    }

    /** The state machine's step from not instantiated to done. */
    method CloneOnce(key: string, tplName: string, display: string,
                     typeArgs: map<string, Ty>, valueArgs: map<string, int>) returns (r: Option<Decl>)
      requires Valid(Now()) && depth < MAX_DEPTH && Checked(env, canonical) && GroundMap(typeArgs)
      requires Filled(tplName, typeArgs)
      requires !Started(Now(), key)
      modifies this
      ensures Valid(Now()) && Kept(old(Now()), Now()) && depth == old(depth)
      ensures r.Some? ==>
        r == Lookup(key) && MadeFrom(r.value, tplName, display, typeArgs, valueArgs, Quiet(old(errors), errors))
      ensures r == None ==> |errors| > old(|errors|)
      ensures canonical(tplName) !in env ==> r == None && errors == old(errors) + [UnknownTemplate(tplName)]
      ensures canonical(tplName) in env ==> (r.Some? <==> env[canonical(tplName)].cloneable)
      ensures Promise(old(Now()), Now(),
                      KeyBuildable(key, tplName, typeArgs, valueArgs, old(depth), Busy(old(Now()))))
      decreases MAX_DEPTH - depth, 0, 0
    {
      hide Valid, Kept, Checked, Started, GroundMap, TypeParams, InProgress, Rewrites, AllBuildable, KeyBuildable,
          Busy, Quiet,
        Promise;
      ghost var s := Now();
      states := states[key := Instantiating];
      depth := depth + 1;
      var tplKey := canonical(tplName);
      if tplKey !in env {
        UnknownKept(s, key, UnknownTemplate(tplName));
        depth := depth - 1;
        assert states[key := NotInstantiated] == s.states[key := NotInstantiated];
        states := states[key := NotInstantiated];
        errors := errors + [UnknownTemplate(tplName)];
        PromiseUnknown(s, Now(), key, tplName, typeArgs, valueArgs);
        return None;
      }
      cloned := cloned + [key];
      r := CloneKnown(s, key, tplName, display, typeArgs, valueArgs);
    }

    /** The types of a known template, rewritten while its key is in progress. */
    method CloneKnown(ghost s: State, key: string, tplName: string, display: string,
                      typeArgs: map<string, Ty>, valueArgs: map<string, int>) returns (r: Option<Decl>)
      requires Valid(s) && s.depth < MAX_DEPTH && !Started(s, key) && Now() == Begin(s, key)
      requires Checked(env, canonical) && GroundMap(typeArgs) && canonical(tplName) in env && Filled(tplName, typeArgs)
      modifies this
      ensures Valid(Now()) && Kept(s, Now()) && depth == s.depth
      ensures r.Some? ==>
        r == Lookup(key) && MadeFrom(r.value, tplName, display, typeArgs, valueArgs, Quiet(s.errors, errors))
      ensures r == None ==> |errors| > |s.errors|
      ensures r.Some? <==> env[canonical(tplName)].cloneable
      ensures Promise(s, Now(), KeyBuildable(key, tplName, typeArgs, valueArgs, s.depth, Busy(s)))
      decreases MAX_DEPTH - s.depth, 0, 0, 0
    {
      hide Valid, Kept, Checked, Started, GroundMap, TypeParams, InProgress, Rewrites, AllBuildable, KeyBuildable, Busy,
        Quiet, Promise, Lookup, Filled;
      BeginIs(s, key);
      hide Begin;
      var tpl := env[canonical(tplName)];
      BeginValid(s, key);
      FineUses(tplName, typeArgs);
      hide Fine, AllRewrite;
      var types := RewriteAll(tpl.body, typeArgs, valueArgs);
      ErrorsGrow(Begin(s, key), Now());
      BusyBegun(s, key);
      ghost var m := Now();
      r := Conclude(s, key, display, types, tpl.cloneable);
      ClonePromised(s, m, Now(), key, tplName, typeArgs, valueArgs);
    }

    lemma PromiseUnknown(s: State, u: State, key: string, tplName: string, typeArgs: map<string, Ty>,
        valueArgs: map<string, int>)
      requires s.depth < MAX_DEPTH && canonical(tplName) !in env
      ensures Promise(s, u, KeyBuildable(key, tplName, typeArgs, valueArgs, s.depth, Busy(s)))
    {
    }

    lemma ClonePromised(s: State, m: State, u: State, key: string, tplName: string, typeArgs: map<string, Ty>,
        valueArgs: map<string, int>)
      requires s.depth < MAX_DEPTH && canonical(tplName) in env
      requires Promise(Begin(s, key), m,
                       AllBuildable(env[canonical(tplName)].body, typeArgs, valueArgs, s.depth + 1, Busy(s) + {key}))
      requires env[canonical(tplName)].cloneable ==> u.errors == m.errors
      ensures Promise(s, u, KeyBuildable(key, tplName, typeArgs, valueArgs, s.depth, Busy(s)))
    {
      hide AllBuildable, Busy, Quiet;
    }

    lemma BusyBegun(s: State, key: string)
      ensures Busy(Begin(s, key)) == Busy(s) + {key}
    {
      assert forall k :: k != key ==> (InProgress(Begin(s, key), k) <==> InProgress(s, k));
    }

    /** The clone is queued and answers for its key from now on; a failed clone never will. */
    method Conclude(ghost s: State, key: string, display: string, types: seq<Ty>, cloneable: bool)
      returns (r: Option<Decl>)
      requires Valid(s) && !Started(s, key) && s.depth < MAX_DEPTH
      requires Valid(Now()) && Kept(Begin(s, key), Now()) && depth == s.depth + 1
      modifies this
      ensures Valid(Now()) && Kept(s, Now()) && depth == s.depth && (r.Some? <==> cloneable)
      ensures r.Some? ==> r == Lookup(key) && r.value.name == display && r.value.types == types
      ensures errors == if r == None then old(errors) + [CloneFailed(key)] else old(errors)
    {
      hide Valid, Kept, Started;
      ghost var t := Now();
      depth := depth - 1;
      states := states[key := Done];
      if !cloneable {
        FailedKept(s, t, key);
        errors := errors + [CloneFailed(key)];
        return None;
      }
      var decl := Decl(|pending|, display, types);
      FinishedKept(s, t, key, decl);
      done := done[key := decl];
      pending := pending + [decl];
      r := Some(decl);
    }

    lemma FineUses(tplName: string, typeArgs: map<string, Ty>)
      requires Checked(env, canonical) && canonical(tplName) in env && Filled(tplName, typeArgs)
      ensures forall i :: 0 <= i < |env[canonical(tplName)].body| ==>
                Fine(env, canonical, env[canonical(tplName)].body[i], typeArgs.Keys)
    {
      var tpl := env[canonical(tplName)];
      forall i | 0 <= i < |tpl.body| ensures Fine(env, canonical, tpl.body[i], typeArgs.Keys) {
        FineMore(tpl.body[i], (set x | x in TypeParams(tpl.params)), typeArgs.Keys);
      }
    }

    lemma {:induction false} FineMore(t: Ty, few: set<string>, more: set<string>)
      requires Fine(env, canonical, t, few) && few <= more
      ensures Fine(env, canonical, t, more)
      decreases t
    {
      match t
      case Pointer(b) => FineMore(b, few, more);
      case Slice(e) => FineMore(e, few, more);
      case Optional(e) => FineMore(e, few, more);
      case Alias(_, a) => FineMore(a, few, more);
      case Array(e, _, _) => FineMore(e, few, more);
      case Result(s, e) =>
        FineMore(s, few, more);
        FineMore(e, few, more);
      case Function(r, ps) =>
        FineMore(r, few, more);
        forall i | 0 <= i < |ps| ensures Fine(env, canonical, ps[i], more) { FineMore(ps[i], few, more); }
      case Instance(_, args, _) =>
        forall i | 0 <= i < |args| ensures Fine(env, canonical, args[i], more) { FineMore(args[i], few, more); }
      case _ =>
    }
  }
}
