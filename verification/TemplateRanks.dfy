/** Which uses of templates are instantiated without an error, by a condition on the templates:
    instances can be ranked so that each mentions lower ones only. */
module TemplateRanks {
  import opened TemplateTypes
  import opened TemplateRegistry

  type Ranks = map<string, nat>

  /** Every use in the type is one of a class template, its value arguments evaluate, and it leads
      to an instance of rank below n; uses among its arguments lie one lower. */
  ghost predicate Descends(r: Registry, t: Ty, typeArgs: map<string, Ty>, valueArgs: map<string, int>, rank: Ranks,
      n: nat)
    decreases if r.Ground(t) then 1 else 2, Size(t), 0
  {
    SizeParts(t);
    match t
    case Var(x) =>
      x in typeArgs && r.Ground(typeArgs[x]) ==> Descends(r, typeArgs[x], typeArgs, valueArgs, rank, n)
    case Pointer(b) => Descends(r, b, typeArgs, valueArgs, rank, n)
    case Slice(e) => Descends(r, e, typeArgs, valueArgs, rank, n)
    case Optional(e) => Descends(r, e, typeArgs, valueArgs, rank, n)
    case Alias(_, a) => Descends(r, a, typeArgs, valueArgs, rank, n)
    case Array(e, _, _) => Descends(r, e, typeArgs, valueArgs, rank, n)
    case Result(s, e) => Descends(r, s, typeArgs, valueArgs, rank, n) && Descends(r, e, typeArgs, valueArgs, rank, n)
    case Function(q, ps) =>
      Descends(r, q, typeArgs, valueArgs, rank, n) && AllDescend(r, ps, typeArgs, valueArgs, rank, n)
    case Instance(tpl, args, values) =>
      && n > 0 && r.IsClass(tpl) && r.canonical(tpl) in r.env
      && AllDescend(r, args, typeArgs, valueArgs, rank, n - 1)
      && (forall i :: 0 <= i < |values| ==> r.ValueOf(values[i], valueArgs).Some?)
      && forall rs, vs :: r.AllRewrite(args, rs, typeArgs, valueArgs, true) && r.Evaluated(values, vs, valueArgs) ==>
           Ranked(r, r.canonical(tpl), rs, vs, rank, n)
    case _ => true
  }

  ghost predicate AllDescend(r: Registry, ts: seq<Ty>, typeArgs: map<string, Ty>, valueArgs: map<string, int>,
      rank: Ranks, n: nat)
    decreases if forall i :: 0 <= i < |ts| ==> r.Ground(ts[i]) then 1 else 2, SizeAll(ts), 1
  {
    forall i :: 0 <= i < |ts| ==> (SizeOne(ts, i); Descends(r, ts[i], typeArgs, valueArgs, rank, n))
  }

  ghost predicate Ranked(r: Registry, tpl: string, args: seq<Ty>, values: seq<int>, rank: Ranks, n: nat) {
    var key := r.instanceName(tpl, args, values);
    key in rank && rank[key] < n
  }

  /** Templates with ranked instances can be cloned, and these mention lower ranks only. */
  ghost predicate WellRanked(r: Registry, rank: Ranks) {
    forall tpl, args, values :: tpl in r.env && r.instanceName(tpl, args, values) in rank ==>
      var params := r.env[tpl].params;
      && r.env[tpl].cloneable
      && AllDescend(r, r.env[tpl].body, Bind(TypeParams(params), args), Bind(ValueParams(params), values), rank,
                    rank[r.instanceName(tpl, args, values)])
  }

  /** Whatever descends is built without an error, if the limit leaves room for the ranks and no
      lower rank is in progress. */
  lemma {:induction false} RankedBuild(r: Registry, t: Ty, typeArgs: map<string, Ty>, valueArgs: map<string, int>,
      rank: Ranks, n: nat, d: nat, busy: set<string>)
    requires WellRanked(r, rank) && Descends(r, t, typeArgs, valueArgs, rank, n) && d + n <= MAX_DEPTH
    requires forall k <- busy :: k in rank ==> rank[k] >= n
    ensures r.Buildable(t, typeArgs, valueArgs, d, busy)
    decreases n, if r.Ground(t) then 1 else 2, Size(t), 0
  {
    SizeParts(t);
    r.FineParts(t, {});
    hide WellRanked, Ranked, Fine, Size, SizeAll, AllDescend;
    match t
    case Var(x) =>
      if x in typeArgs && r.Ground(typeArgs[x]) {
        RankedBuild(r, typeArgs[x], typeArgs, valueArgs, rank, n, d, busy);
      }
    case Pointer(b) => RankedBuild(r, b, typeArgs, valueArgs, rank, n, d, busy);
    case Slice(e) => RankedBuild(r, e, typeArgs, valueArgs, rank, n, d, busy);
    case Optional(e) => RankedBuild(r, e, typeArgs, valueArgs, rank, n, d, busy);
    case Alias(_, a) => RankedBuild(r, a, typeArgs, valueArgs, rank, n, d, busy);
    case Array(e, _, _) => RankedBuild(r, e, typeArgs, valueArgs, rank, n, d, busy);
    case Result(s, e) =>
      RankedBuild(r, s, typeArgs, valueArgs, rank, n, d, busy);
      RankedBuild(r, e, typeArgs, valueArgs, rank, n, d, busy);
    case Function(q, ps) =>
      RankedBuild(r, q, typeArgs, valueArgs, rank, n, d, busy);
      AllRankedBuild(r, ps, typeArgs, valueArgs, rank, n, d, busy);
    case Instance(_, _, _) => RankedUse(r, t, typeArgs, valueArgs, rank, n, d, busy);
    case _ =>
  }

  lemma {:induction false} RankedUse(r: Registry, t: Ty, typeArgs: map<string, Ty>, valueArgs: map<string, int>,
      rank: Ranks, n: nat, d: nat, busy: set<string>)
    requires t.Instance? && WellRanked(r, rank) && Descends(r, t, typeArgs, valueArgs, rank, n) && d + n <= MAX_DEPTH
    requires forall k <- busy :: k in rank ==> rank[k] >= n
    ensures r.Buildable(t, typeArgs, valueArgs, d, busy)
    decreases n, 1, 0
  {
    hide WellRanked, Fine, Size, SizeAll, AllDescend;
    AllRankedBuild(r, t.args, typeArgs, valueArgs, rank, n - 1, d + 1, busy);
    forall rs, vs | r.AllRewrite(t.args, rs, typeArgs, valueArgs, true) && r.Evaluated(t.values, vs, valueArgs)
      ensures r.InstanceBuildable(t.template, rs, vs, d, busy)
    {
      assert Ranked(r, r.canonical(t.template), rs, vs, rank, n);
      RankedInstance(r, t.template, rs, vs, rank, n, d, busy);
    }
  }

  lemma {:induction false} RankedInstance(r: Registry, tpl: string, rs: seq<Ty>, vs: seq<int>, rank: Ranks, n: nat,
      d: nat, busy: set<string>)
    requires WellRanked(r, rank) && r.IsClass(tpl) && r.canonical(tpl) in r.env
    requires Ranked(r, r.canonical(tpl), rs, vs, rank, n) && d + n <= MAX_DEPTH
    requires forall k <- busy :: k in rank ==> rank[k] >= n
    ensures r.InstanceBuildable(tpl, rs, vs, d, busy)
    decreases n, 0, 0
  {
    var key, t := r.instanceName(r.canonical(tpl), rs, vs), r.env[r.canonical(tpl)];
    AllRankedBuild(r, t.body, Bind(TypeParams(t.params), rs), Bind(ValueParams(t.params), vs), rank, rank[key], d + 1,
      busy + {key});
  }

  lemma {:induction false} AllRankedBuild(r: Registry, ts: seq<Ty>, typeArgs: map<string, Ty>,
      valueArgs: map<string, int>, rank: Ranks, n: nat, d: nat, busy: set<string>)
    requires WellRanked(r, rank) && AllDescend(r, ts, typeArgs, valueArgs, rank, n) && d + n <= MAX_DEPTH
    requires forall k <- busy :: k in rank ==> rank[k] >= n
    ensures r.AllBuildable(ts, typeArgs, valueArgs, d, busy)
    decreases n, if forall i :: 0 <= i < |ts| ==> r.Ground(ts[i]) then 1 else 2, SizeAll(ts), 1
  {
    hide WellRanked, Descends, Fine, Size;
    forall i | 0 <= i < |ts| ensures r.Buildable(ts[i], typeArgs, valueArgs, d, busy) {
      SizeOne(ts, i);
      RankedBuild(r, ts[i], typeArgs, valueArgs, rank, n, d, busy);
    }
  }
}
