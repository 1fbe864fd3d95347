/** The induction over statements, and the theorem about whole functions. */
module DeferTheorem {
  import opened Options
  import opened Cfg
  import opened DeferSource
  import opened DeferCodegen
  import opened DeferSim

  /** From Here(g) the code generated for s does what executing s does. */
  lemma {:induction false} Simulates(G: Graph, o: Oracle, s: Stmt, g: Builder, tr: Trace, n: nat)
    requires Scoped(s) && Fit(g) && !Terminated(g) && Grows(Comp(s, g).graph, G)
    ensures Matches(G, o, Here(g, tr), g, Comp(s, g), Exec(o, s, Top(g), tr, TargetsOf(g), n), n)
    decreases n, s, 2
  {
    match s
    case Compound(_) => BlockSimulates(G, o, s, g, tr, n);
    case If(_, _, _) => IfSimulates(G, o, s, g, tr, n);
    case While(_, _) => WhileSimulates(G, o, s, g, tr, n);
    case DoWhile(_, _) => DoSimulates(G, o, s, g, tr, n);
    case For(_, _, _, _) => ForSimulates(G, o, s, g, tr, n);
    case Switch(_, _, _) => SwitchSimulates(G, o, s, g, tr, n);
    case _ => SimpleSimulates(G, o, s, g, tr, n);
  }

  lemma SimpleSimulates(G: Graph, o: Oracle, s: Stmt, g: Builder, tr: Trace, n: nat)
    requires !s.Compound? && !s.If? && !s.While? && !s.DoWhile? && !s.For? && !s.Switch?
    requires Fit(g) && !Terminated(g) && Grows(Comp(s, g).graph, G)
    ensures Matches(G, o, Here(g, tr), g, Comp(s, g), Exec(o, s, Top(g), tr, TargetsOf(g), n), n)
  {
    match s
    case Null => ReachesSelf(G, o, Here(g, tr));
    case Expr(id) => EmitRuns(G, o, g, [Do(id)], tr);
    case Defer(id) => ReachesSelf(G, o, Here(g, tr));
    case StringLocal(id) => EmitRuns(G, o, g, [Do(id)], tr);
    case Break =>
      ExitsTop(g, Last(g.breakDepths));
      if g.breaks != [] {
        LeaveRuns(G, o, g, Unwind(g.defers, g.cleanups, Last(g.breakDepths)), Br(Last(g.breaks)), tr);
      } else {
        FinishRuns(G, o, g, Unreachable, tr);
        ReachesStep(G, o, Here(g, tr));
      }
    case Continue =>
      ExitsTop(g, Last(g.continueDepths));
      if g.continues != [] {
        LeaveRuns(G, o, g, Unwind(g.defers, g.cleanups, Last(g.continueDepths)), Br(Last(g.continues)), tr);
      } else {
        FinishRuns(G, o, g, Unreachable, tr);
        ReachesStep(G, o, Here(g, tr));
      }
    case Return(v) => ReturnSimulates(G, o, v, g, tr);
  }

  lemma ReturnSimulates(G: Graph, o: Oracle, v: Option<nat>, g: Builder, tr: Trace)
    requires Fit(g) && !Terminated(g) && Grows(Comp(Return(v), g).graph, G)
    ensures Reaches(G, o, Here(g, tr), Returned((if v.Some? then tr + [Do(v.value)] else tr) + Exits(g, Top(g), 0)))
  {
    ExitsTop(g, 0);
    hide Unwind, Exits, Grows, Reaches;
    if v.Some? {
      EmitThenLeave(G, o, g, [Do(v.value)], Unwind(g.defers, g.cleanups, 0), tr);
    } else {
      LeaveRuns(G, o, g, Unwind(g.defers, g.cleanups, 0), Ret, tr);
    }
  }

  lemma EmitThenLeave(G: Graph, o: Oracle, g: Builder, first: seq<Event>, events: seq<Event>, tr: Trace)
    requires !Terminated(g) && Grows(Finish(Emit(Emit(g, first), events), Ret).graph, G)
    ensures Reaches(G, o, Here(g, tr), Returned(tr + first + events))
  {
    var h := Emit(g, first);
    GrowsTrans(h.graph, Finish(Emit(h, events), Ret).graph, G);
    EmitRuns(G, o, g, first, tr);
    LeaveRuns(G, o, h, events, Ret, tr + first);
    ReachesTrans(G, o, Here(g, tr), Here(h, tr + first), Returned(tr + first + events));
  }

  // ---- blocks ----

  lemma {:induction false} ListSimulates(G: Graph, o: Oracle, ss: seq<Stmt>, g: Builder, tr: Trace, n: nat)
    requires ScopedList(ss) && Fit(g) && !Terminated(g) && Grows(CompList(ss, g).graph, G)
    ensures Matches(G, o, Here(g, tr), g, CompList(ss, g), ExecList(o, ss, Top(g), tr, TargetsOf(g), n), n)
    decreases n, ss, 0
  {
    if ss == [] {
      ReachesSelf(G, o, Here(g, tr));
    } else {
      var g1 := Comp(ss[0], g);
      CompListFramed(ss[1..], g1);
      GrowsTrans(g1.graph, CompList(ss, g).graph, G);
      ContextKept(ss[0], g);
      Simulates(G, o, ss[0], g, tr, n);
      var out := Exec(o, ss[0], Top(g), tr, TargetsOf(g), n);
      if out.Done? && out.how.Fell? {
        ListSimulates(G, o, ss[1..], g1, out.trace, n);
        MatchesFrom(G, o, Here(g, tr), Here(g1, out.trace), g, g1, CompList(ss, g),
                    ExecList(o, ss, Top(g), tr, TargetsOf(g), n), n);
      }
    }
  }

  /** Scopes above the ones being left have no say. */
  lemma {:induction false} UnwindPrefix(defers: seq<seq<nat>>, cs: seq<seq<nat>>, cs': seq<seq<nat>>, depth: nat)
    requires |defers| <= |cs| && |defers| <= |cs'| && cs[..|defers|] == cs'[..|defers|]
    ensures Unwind(defers, cs, depth) == Unwind(defers, cs', depth)
    decreases |defers|
  {
    if |defers| > depth {
      var i := |defers| - 1;
      assert cs[i] == cs[..|defers|][i] == cs'[i];
      assert cs[..i] == cs[..|defers|][..i] == cs'[..i];
      UnwindPrefix(defers[..i], cs, cs', depth);
    }
  }

  /** Leaving an inner scope and then outer ones. */
  lemma UnwindInner(g: Builder, inner: Scope, depth: nat)
    requires Fit(g) && depth <= |g.defers|
    ensures Exits(PushScope(g), inner, depth) == ExitEvents(inner) + Exits(g, Top(g), depth)
  {
    var ds := g.defers + [inner.defers];
    var cs := g.cleanups + [inner.cleanups];
    assert WithTop(PushScope(g).defers, inner.defers) == ds;
    assert WithTop(PushScope(g).cleanups, inner.cleanups) == cs;
    assert ds[..|g.defers|] == g.defers;
    UnwindPrefix(g.defers, cs, g.cleanups, depth);
    ExitsTop(g, depth);
  }

  lemma {:induction false} BlockSimulates(G: Graph, o: Oracle, s: Stmt, g: Builder, tr: Trace, n: nat)
    requires s.Compound? && Scoped(s) && Fit(g) && !Terminated(g) && Grows(Comp(s, g).graph, G)
    ensures Matches(G, o, Here(g, tr), g, Comp(s, g), Exec(o, s, Top(g), tr, TargetsOf(g), n), n)
    decreases n, s, 1
  {
    var g0 := PushScope(g);
    var g1 := CompList(s.stmts, g0);
    assert Grows(g1.graph, Comp(s, g).graph);
    GrowsTrans(g1.graph, Comp(s, g).graph, G);
    ListSimulates(G, o, s.stmts, g0, tr, n);
    ListContextKept(s.stmts, g0);
    var out := ExecList(o, s.stmts, EMPTY, tr, TargetsOf(g), n);
    assert Top(g0) == EMPTY;
    hide Grows, Reaches, Unwind, ExitEvents, CompList, ExecList;
    if out.Done? {
      if out.how.Fell? {
        BlockFalls(G, o, g, g1, out.scope, out.trace);
        ReachesTrans(G, o, Here(g, tr), Here(g1, out.trace), Here(EndBlock(g1), out.trace + ExitEvents(out.scope)));
      } else {
        BlockLeft(G, o, Here(g, tr), g, g1, EndBlock(g1), out, n);
      }
    }
  }

  /** Leaving a block early runs its exit and leaves the rest to the blocks around it. */
  lemma BlockLeft(G: Graph, o: Oracle, c: Config, g: Builder, g1: Builder, h: Builder, out: Outcome, n: nat)
    requires Fit(g) && out.Done? && !out.how.Fell? && Matches(G, o, c, PushScope(g), g1, out, n)
    ensures Matches(G, o, c, g, h, Done(out.how, out.trace + ExitEvents(out.scope), Top(g)), n)
  {
    hide Unwind, Exits, ExitEvents;
    match out.how
    case Broke => ExitsCompose(g, out, Last(g.breakDepths));
    case Continued => ExitsCompose(g, out, Last(g.continueDepths));
    case Left => ExitsCompose(g, out, 0);
    case Fell =>
  }

  lemma ExitsCompose(g: Builder, out: Outcome, depth: nat)
    requires Fit(g) && out.Done? && depth <= |g.defers|
    ensures out.trace + Exits(PushScope(g), out.scope, depth)
         == out.trace + ExitEvents(out.scope) + Exits(g, Top(g), depth)
  {
    hide Unwind, Exits, ExitEvents;
    UnwindInner(g, out.scope, depth);
  }

  lemma BlockFalls(G: Graph, o: Oracle, g: Builder, g1: Builder, sc: Scope, tr: Trace)
    requires Fit(g) && SameContext(PushScope(g), g1) && !Terminated(g1) && Top(g1) == sc
    requires Grows(EndBlock(g1).graph, G)
    ensures Reaches(G, o, Here(g1, tr), Here(EndBlock(g1), tr + ExitEvents(sc)))
    ensures !Terminated(EndBlock(g1)) && Top(EndBlock(g1)) == Top(g)
  {
    var d := |g1.defers| - 1;
    assert DropLast(PushScope(g).defers) == g.defers && DropLast(PushScope(g).cleanups) == g.cleanups;
    assert Unwind(g1.defers[..d], g1.cleanups, d) == [];
    assert Unwind(g1.defers, g1.cleanups, d) == ExitEvents(sc);
    EmitRuns(G, o, g1, ExitEvents(sc), tr);
  }

  // ---- if ----

  lemma ElseBlocks(g1: Builder, h: Builder, n: nat)
    requires Framed(g1, h) && g1.cur == n && n + 2 < |g1.graph|
    requires g1.graph[n + 1] == OPEN && g1.graph[n + 2] == OPEN
    ensures var k := ElseStart(h, n);
            && k.cur == n + 1 && n + 2 < |k.graph| && k.graph[n + 1] == OPEN && k.graph[n + 2] == OPEN
            && k.graph == Join(h, n + 2).graph && Quiet(h, k)
  {
  }

  lemma EndIfBlocks(k: Builder, h: Builder, n: nat)
    requires Framed(k, h) && k.cur == n + 1 && n + 2 < |k.graph| && k.graph[n + 2] == OPEN
    ensures var e := EndIf(h, n);
            e.cur == n + 2 && e.graph[n + 2] == OPEN && e.graph == Join(h, n + 2).graph && Quiet(h, e)
  {
  }

  lemma JoinGrows(h: Builder, b: nat)
    ensures Grows(h.graph, Join(h, b).graph)
  {
  }

  function ThenEnd(s: Stmt, g: Builder): Builder
    requires s.If?
  {
    Comp(s.thn, IfStart(g, s.cond))
  }

  function ElseEnd(s: Stmt, k: Builder): Builder
    requires s.If?
  {
    if s.els.Some? then Comp(s.els.value, k) else k
  }

  lemma IfBlocks(G: Graph, s: Stmt, g: Builder)
    requires s.If? && Scoped(s) && !Terminated(g) && Grows(Comp(s, g).graph, G)
    ensures var m := |g.graph|;
            var k := ElseStart(ThenEnd(s, g), m);
            var e := Comp(s, g);
            && k.cur == m + 1 && m + 1 < |k.graph| && k.graph[m + 1] == OPEN
            && e.cur == m + 2 && e.graph[m + 2] == OPEN
            && Grows(IfStart(g, s.cond).graph, G) && Grows(ThenEnd(s, g).graph, G) && Grows(k.graph, G)
            && Grows(ElseEnd(s, k).graph, G)
            && k.graph == Join(ThenEnd(s, g), m + 2).graph && e.graph == Join(ElseEnd(s, k), m + 2).graph
  {
    hide ElseStart, EndIf, IfStart;
    var m := |g.graph|;
    var g1 := IfStart(g, s.cond);
    var h1 := ThenEnd(s, g);
    IfStartFramed(g, s.cond);
    CompFramed(s.thn, g1);
    ElseBlocks(g1, h1, m);
    var k := ElseStart(h1, m);
    ElseParts(G, s, k, m);
    JoinGrows(h1, m + 2);
    GrowsTrans(h1.graph, k.graph, G);
    GrowsTrans(g1.graph, h1.graph, G);
  }

  lemma ElseParts(G: Graph, s: Stmt, k: Builder, m: nat)
    requires s.If? && Scoped(s) && k.cur == m + 1 && m + 2 < |k.graph|
    requires k.graph[m + 1] == OPEN && k.graph[m + 2] == OPEN && Grows(EndIf(ElseEnd(s, k), m).graph, G)
    ensures var e := EndIf(ElseEnd(s, k), m);
            && Grows(k.graph, G) && Grows(ElseEnd(s, k).graph, G)
            && e.cur == m + 2 && e.graph[m + 2] == OPEN && e.graph == Join(ElseEnd(s, k), m + 2).graph
  {
    hide EndIf;
    var h2 := ElseEnd(s, k);
    if s.els.Some? { CompFramed(s.els.value, k); }
    EndIfBlocks(k, h2, m);
    JoinGrows(h2, m + 2);
    GrowsTrans(h2.graph, EndIf(h2, m).graph, G);
    GrowsTrans(k.graph, h2.graph, G);
  }

  lemma QuietFits(g: Builder, k: Builder)
    requires Quiet(g, k)
    ensures Fit(g) ==> Fit(k)
    ensures Top(k) == Top(g) && TargetsOf(k) == TargetsOf(g)
  {
  }

  lemma IfQuiet(s: Stmt, g: Builder)
    requires s.If? && Scoped(s)
    ensures var k := ElseStart(ThenEnd(s, g), |g.graph|);
            Quiet(g, ThenEnd(s, g)) && Quiet(g, k) && Quiet(g, ElseEnd(s, k)) && Quiet(g, Comp(s, g))
  {
    ContextKept(s.thn, IfStart(g, s.cond));
    var k := ElseStart(ThenEnd(s, g), |g.graph|);
    assert Quiet(g, k);
    if s.els.Some? { ContextKept(s.els.value, k); }
  }

  lemma IfBranches(G: Graph, o: Oracle, g: Builder, c: nat, tr: Trace)
    requires Fit(g) && !Terminated(g) && Grows(IfStart(g, c).graph, G)
    ensures Fit(IfStart(g, c)) && !Terminated(IfStart(g, c)) && Quiet(g, IfStart(g, c))
    ensures Top(IfStart(g, c)) == Top(g) && TargetsOf(IfStart(g, c)) == TargetsOf(g)
    ensures var v := o(c, tr);
            var tr1 := tr + [Event.Test(c, v)];
            Reaches(G, o, Here(g, tr), if v != 0 then Here(IfStart(g, c), tr1) else At(|g.graph| + 1, 0, tr1))
  {
    FinishRuns(G, o, NewBlocks(g, 3), CondBr(c, |g.graph|, |g.graph| + 1), tr);
    ReachesStep(G, o, Here(g, tr));
  }

  lemma {:induction false} IfSimulates(G: Graph, o: Oracle, s: Stmt, g: Builder, tr: Trace, n: nat)
    requires s.If? && Scoped(s) && Fit(g) && !Terminated(g) && Grows(Comp(s, g).graph, G)
    ensures Matches(G, o, Here(g, tr), g, Comp(s, g), Exec(o, s, Top(g), tr, TargetsOf(g), n), n)
    decreases n, s, 1
  {
    var v := o(s.cond, tr);
    var tr1 := tr + [Event.Test(s.cond, v)];
    IfBlocks(G, s, g);
    IfBranches(G, o, g, s.cond, tr);
    IfQuiet(s, g);
    hide ElseStart, EndIf, Join, IfStart, Grows, Reaches, Matches, Quiet, Fit, Top, TargetsOf;
    var k := ElseStart(ThenEnd(s, g), |g.graph|);
    var out := Exec(o, s, Top(g), tr, TargetsOf(g), n);
    QuietFits(g, k);
    if v != 0 {
      Simulates(G, o, s.thn, IfStart(g, s.cond), tr1, n);
      ArmEnds(G, o, g, IfStart(g, s.cond), ThenEnd(s, g), Comp(s, g), tr, tr1, out, n);
    } else {
      if s.els.Some? { Simulates(G, o, s.els.value, k, tr1, n); } else { ElseFalls(G, o, s, k, tr1, n); }
      ArmEnds(G, o, g, k, ElseEnd(s, k), Comp(s, g), tr, tr1, out, n);
    }
  }

  /** One branch of an if, from the test to where control goes on. */
  lemma ArmEnds(G: Graph, o: Oracle, g: Builder, k: Builder, h: Builder, e: Builder, tr: Trace, tr1: Trace,
      out: Outcome, n: nat)
    requires Reaches(G, o, Here(g, tr), Here(k, tr1)) && Matches(G, o, Here(k, tr1), k, h, out, n)
    requires Quiet(g, k) && Quiet(g, h) && Quiet(g, e)
    requires e.graph[e.cur] == OPEN && Grows(Join(h, e.cur).graph, G)
    ensures Matches(G, o, Here(g, tr), g, e, out, n)
  {
    hide Grows, Reaches, Matches, Join;
    ArmMatches(G, o, k, h, e, e.cur, out, Here(k, tr1), n);
    MatchesFrom(G, o, Here(g, tr), Here(k, tr1), g, k, e, out, n);
  }

  lemma ElseFalls(G: Graph, o: Oracle, s: Stmt, k: Builder, tr: Trace, n: nat)
    requires s.If? && s.els.None? && !Terminated(k)
    ensures Matches(G, o, Here(k, tr), k, ElseEnd(s, k), Done(Fell, tr, Top(k)), n)
  {
    ReachesSelf(G, o, Here(k, tr));
  }

  /** A branch that falls goes on at the start of the open block where e continues. */
  lemma ArmMatches(G: Graph, o: Oracle, g: Builder, h: Builder, e: Builder, b: nat, out: Outcome, c: Config, n: nat)
    requires Matches(G, o, c, g, h, out, n) && Grows(Join(h, b).graph, G)
    requires e.cur == b && e.graph[b] == OPEN && Top(e) == Top(h)
    ensures Matches(G, o, c, g, e, out, n)
  {
    if out.Done? && out.how.Fell? {
      JoinRuns(G, o, h, b, out.trace);
      ReachesTrans(G, o, c, Here(h, out.trace), Here(e, out.trace));
    }
  }

  // ---- loops ----

  /** What a loop may come to: control goes on at its end block or leaves the function. */
  ghost predicate LoopMatches(G: Graph, o: Oracle, c: Config, end: nat, g: Builder, out: Outcome, n: nat) {
    match out
    case Trap(tr) => Reaches(G, o, c, Trapped(tr))
    case Timeout => RunsFor(G, o, c, n)
    case Done(how, tr, sc) =>
      match how
      case Fell => sc == Top(g) && Reaches(G, o, c, At(end, 0, tr))
      case Left => sc == Top(g) && Reaches(G, o, c, Returned(tr + Exits(g, Top(g), 0)))
      case _ => false
  }

  lemma LoopMatchesFrom(G: Graph, o: Oracle, c: Config, d: Config, end: nat, g: Builder, out: Outcome, n: nat)
    requires Reaches(G, o, c, d) && LoopMatches(G, o, d, end, g, out, n)
    ensures LoopMatches(G, o, c, end, g, out, n)
  {
    match out
    case Trap(tr) => ReachesTrans(G, o, c, d, Trapped(tr));
    case Timeout => RunsAfter(G, o, c, d, n);
    case Done(how, tr, _) =>
      if how.Fell? { ReachesTrans(G, o, c, d, At(end, 0, tr)); }
      else { ReachesTrans(G, o, c, d, Returned(tr + Exits(g, Top(g), 0))); }
  }

  /** The statement after which control sits in the open block e agrees with its loop. */
  lemma LoopDone(G: Graph, o: Oracle, c: Config, g: Builder, g1: Builder, e: Builder, out: Outcome, n: nat)
    requires LoopMatches(G, o, c, e.cur, g1, out, n)
    requires SameContext(g, e) && e.graph[e.cur] == OPEN
    requires g1.defers == e.defers && g1.cleanups == e.cleanups
    ensures Matches(G, o, c, g, e, out, n)
  {
    assert forall depth :: Exits(g, Top(e), depth) == Exits(g1, Top(g1), depth);
  }

  /** Inside a loop body whose start is the open insertion block of g. */
  ghost predicate LoopContext(g: Builder, end: nat, cont: nat) {
    && Fit(g) && g.graph[g.cur] == OPEN
    && g.breaks != [] && Last(g.breaks) == end && Last(g.breakDepths) == |g.defers|
    && g.continues != [] && Last(g.continues) == cont && Last(g.continueDepths) == |g.defers|
  }

  /** From the continue target control gets back to the head. */
  ghost predicate StepsBack(G: Graph, cont: nat, inc: Option<nat>, head: nat) {
    || (cont == head && inc.None?)
    || (cont < |G| && G[cont] == Block(if inc.Some? then [Do(inc.value)] else [], Some(Br(head))))
  }

  lemma StepsBackRuns(G: Graph, o: Oracle, cont: nat, inc: Option<nat>, head: nat, tr: Trace)
    requires StepsBack(G, cont, inc, head)
    ensures Reaches(G, o, At(cont, 0, tr), At(head, 0, if inc.Some? then tr + [Do(inc.value)] else tr))
  {
    var c := At(cont, 0, tr);
    if cont == head && inc.None? {
      ReachesSelf(G, o, c);
    } else {
      ReachesStep(G, o, c);
      if inc.Some? {
        ReachesStep(G, o, Step(G, o, c));
        ReachesTrans(G, o, c, Step(G, o, c), Step(G, o, Step(G, o, c)));
      }
    }
  }

  ghost predicate Tests(G: Graph, head: nat, c: Option<nat>, body: nat, end: nat) {
    head < |G| && G[head] == Block([], Some(if c.Some? then CondBr(c.value, body, end) else Br(body)))
  }

  /** One run of the body, from its start to where the next round or the end begins. */
  lemma {:induction false} RoundSimulates(G: Graph, o: Oracle, body: Stmt, g: Builder, end: nat, cont: nat, tr: Trace,
      n: nat)
    requires Branch(body) && LoopContext(g, end, cont)
    requires Grows(Comp(body, g).graph, G) && Grows(Join(Comp(body, g), cont).graph, G)
    ensures var out := Exec(o, body, Top(g), tr, LOOP, n);
            var c := At(g.cur, 0, tr);
            match out
            case Trap(t) => Reaches(G, o, c, Trapped(t))
            case Timeout => RunsFor(G, o, c, n)
            case Done(how, t, sc) =>
              && sc == Top(g)
              && match how
                 case Broke => Reaches(G, o, c, At(end, 0, t))
                 case Left => Reaches(G, o, c, Returned(t + Exits(g, Top(g), 0)))
                 case _ => Reaches(G, o, c, At(cont, 0, t))
    decreases n, body, 3
  {
    hide Join;
    var h := Comp(body, g);
    Simulates(G, o, body, g, tr, n);
    ScopeKept(o, body, Top(g), tr, LOOP, n);
    var out := Exec(o, body, Top(g), tr, LOOP, n);
    if out.Done? {
      ExitsTop(g, |g.defers|);
      assert out.trace + [] == out.trace;
      if out.how.Fell? {
        JoinRuns(G, o, h, cont, out.trace);
        ReachesTrans(G, o, At(g.cur, 0, tr), Here(h, out.trace), At(cont, 0, out.trace));
      }
    }
  }

  lemma {:induction false} LoopSimulates(G: Graph, o: Oracle, c: Option<nat>, inc: Option<nat>, body: Stmt,
                                         g: Builder, head: nat, end: nat, cont: nat, tr: Trace, n: nat)
    requires Branch(body) && LoopContext(g, end, cont)
    requires Grows(Comp(body, g).graph, G) && Grows(Join(Comp(body, g), cont).graph, G)
    requires Tests(G, head, c, g.cur, end) && StepsBack(G, cont, inc, head)
    ensures LoopMatches(G, o, At(head, 0, tr), end, g, ExecLoop(o, c, inc, body, Top(g), tr, n), n)
    decreases n, body, 4
  {
    hide Join, Comp, Exec, Exits, Top, Grows, Reaches, LoopContext;
    var start := At(head, 0, tr);
    if n == 0 {
      assert Steps(G, o, start, 0).At?;
    } else {
      var v := if c.Some? then o(c.value, tr) else 1;
      var tr1 := if c.Some? then tr + [Event.Test(c.value, v)] else tr;
      var d := Step(G, o, start);
      ReachesStep(G, o, start);
      if v != 0 {
        assert d == At(g.cur, 0, tr1);
        RoundSimulates(G, o, body, g, end, cont, tr1, n - 1);
        var out := Exec(o, body, Top(g), tr1, LOOP, n - 1);
        match out
        case Trap(t) => ReachesTrans(G, o, start, d, Trapped(t));
        case Timeout => RunsOneMore(G, o, start, n);
        case Done(how, t, _) =>
          if how.Broke? {
            ReachesTrans(G, o, start, d, At(end, 0, t));
          } else if how.Left? {
            ReachesTrans(G, o, start, d, Returned(t + Exits(g, Top(g), 0)));
          } else {
            var t1 := if inc.Some? then t + [Do(inc.value)] else t;
            StepsBackRuns(G, o, cont, inc, head, t);
            ReachesTrans(G, o, d, At(cont, 0, t), At(head, 0, t1));
            LoopSimulates(G, o, c, inc, body, g, head, end, cont, t1, n - 1);
            NextRound(G, o, start, At(head, 0, t1), end, g, ExecLoop(o, c, inc, body, Top(g), t1, n - 1), n);
          }
      }
    }
  }

  /** A round takes at least one step, so a run that outlasts n - 1 rounds outlasts n. */
  lemma NextRound(G: Graph, o: Oracle, c: Config, d: Config, end: nat, g: Builder, out: Outcome, n: nat)
    requires n > 0 && Reaches(G, o, Step(G, o, c), d) && LoopMatches(G, o, d, end, g, out, n - 1)
    ensures LoopMatches(G, o, c, end, g, out, n)
  {
    if out.Timeout? {
      RunsAfter(G, o, Step(G, o, c), d, n - 1);
      RunsOneMore(G, o, c, n);
    } else {
      ReachesStep(G, o, c);
      ReachesTrans(G, o, c, Step(G, o, c), d);
      LoopMatchesFrom(G, o, c, d, end, g, out, n);
    }
  }

  lemma LoopBodyParts(g: Builder, init: Option<Init>, k: nat, cont: nat, c: Option<nat>)
    requires Fit(g) && !Terminated(g) && k > 2
    ensures var m := |g.graph|;
            var h := LoopBody(g, init, k, cont, c);
            && LoopContext(h, m + k - 1, cont) && h.cur == m + 1 && |h.graph| == m + k
            && (forall b :: m < b < m + k ==> h.graph[b] == OPEN)
            && h.graph[m] == Block([], Some(if c.Some? then CondBr(c.value, m + 1, m + k - 1) else Br(m + 1)))
  {
    LoopBodyFramed(g, init, k, cont, c);
    LoopBodyContext(g, init, k, cont, c);
    LoopStartFramed(g, init, k, cont);
  }

  /** Control goes from g through the initialiser, if any, to the first block of the loop. */
  lemma LoopStartRuns(G: Graph, o: Oracle, g: Builder, init: Option<Init>, k: nat, cont: nat, tr: Trace)
    requires Fit(g) && !Terminated(g) && k > 0 && Grows(LoopStart(g, init, k, cont).graph, G)
    ensures Reaches(G, o, Here(g, tr), At(|g.graph|, 0, InitTrace(init, tr)))
    ensures Top(LoopStart(g, init, k, cont)) == InitScope(init, Top(g))
  {
    var m := |g.graph|;
    var g1 := PushContinue(PushBreak(NewBlocks(g, k), m + k - 1), cont);
    if init.Some? {
      LeaveRuns(G, o, g1, [Do(init.value.id)], Br(m), tr);
    } else {
      FinishRuns(G, o, g1, Br(m), tr);
      ReachesStep(G, o, Here(g1, tr));
    }
  }

  lemma EndWhileBlocks(g1: Builder, h: Builder, n: nat)
    requires Framed(g1, h) && g1.cur != n + 2 && n + 2 < |g1.graph| && g1.graph[n + 2] == OPEN
    ensures var e := EndWhile(h, n); e.cur == n + 2 && e.graph[n + 2] == OPEN && e.graph == Join(h, n).graph
    ensures Grows(g1.graph, h.graph)
  {
  }

  lemma TestsIn(G: Graph, g1: Builder, init: Option<Init>, g: Builder, k: nat, cont: nat, c: Option<nat>)
    requires Fit(g) && !Terminated(g) && k > 2 && g1 == LoopBody(g, init, k, cont, c) && Grows(g1.graph, G)
    ensures Tests(G, |g.graph|, c, |g.graph| + 1, |g.graph| + k - 1)
    ensures Grows(LoopStart(g, init, k, cont).graph, G)
  {
    LoopBodyParts(g, init, k, cont, c);
    LoopStartFramed(g, init, k, cont);
    assert Kept(g1.graph[|g.graph|], G[|g.graph|]);
    GrowsTrans(LoopStart(g, init, k, cont).graph, g1.graph, G);
  }

  lemma WhileParts(G: Graph, s: Stmt, g: Builder)
    requires s.While? && Scoped(s) && Fit(g) && !Terminated(g) && Grows(Comp(s, g).graph, G)
    ensures var m := |g.graph|;
            var g1 := LoopBody(g, None, 3, m, Some(s.cond));
            var h := Comp(s.body, g1);
            var e := Comp(s, g);
            && LoopContext(g1, m + 2, m) && g1.cur == m + 1
            && Grows(g1.graph, G) && Grows(h.graph, G) && Grows(Join(h, m).graph, G)
            && e.cur == m + 2 && e.graph[m + 2] == OPEN
  {
    hide LoopBody, EndWhile, Join, Grows, LoopContext, Fit;
    var m := |g.graph|;
    var g1 := LoopBody(g, None, 3, m, Some(s.cond));
    LoopBodyParts(g, None, 3, m, Some(s.cond));
    CompFramed(s.body, g1);
    var h := Comp(s.body, g1);
    EndWhileBlocks(g1, h, m);
    hide Framed;
    WhileTailParts(G, g1, h, m);
  }

  lemma WhileTailParts(G: Graph, g1: Builder, h: Builder, m: nat)
    requires Grows(g1.graph, h.graph) && Grows(Join(h, m).graph, G)
    ensures Grows(g1.graph, G) && Grows(h.graph, G)
  {
    hide Join;
    JoinGrows(h, m);
    GrowsTrans(h.graph, Join(h, m).graph, G);
    GrowsTrans(g1.graph, h.graph, G);
  }

  lemma {:induction false} WhileSimulates(G: Graph, o: Oracle, s: Stmt, g: Builder, tr: Trace, n: nat)
    requires s.While? && Scoped(s) && Fit(g) && !Terminated(g) && Grows(Comp(s, g).graph, G)
    ensures Matches(G, o, Here(g, tr), g, Comp(s, g), Exec(o, s, Top(g), tr, TargetsOf(g), n), n)
    decreases n, s, 1
  {
    hide LoopBody, EndWhile, Join, LoopStart, Grows, Reaches, Matches, LoopMatches;
    var m := |g.graph|;
    var g1 := LoopBody(g, None, 3, m, Some(s.cond));
    WhileParts(G, s, g);
    LoopBodyContext(g, None, 3, m, Some(s.cond));
    TestsIn(G, g1, None, g, 3, m, Some(s.cond));
    LoopStartRuns(G, o, g, None, 3, m, tr);
    LoopSimulates(G, o, Some(s.cond), None, s.body, g1, m, m + 2, m, tr, n);
    var out := ExecLoop(o, Some(s.cond), None, s.body, Top(g), tr, n);
    LoopMatchesFrom(G, o, Here(g, tr), At(m, 0, tr), m + 2, g1, out, n);
    WhileContextKept(s, g);
    LoopDone(G, o, Here(g, tr), g, g1, Comp(s, g), out, n);
  }

  // ---- for ----

  lemma EndForBlocks(g1: Builder, h: Builder, inc: Option<nat>, n: nat)
    requires Framed(g1, h) && g1.cur == n + 1 && n + 3 < |g1.graph|
    requires g1.graph[n + 2] == OPEN && g1.graph[n + 3] == OPEN
    ensures var e := EndFor(h, inc, n);
            && e.cur == n + 3 && e.graph[n + 3] == OPEN
            && e.graph[n + 2] == Block(if inc.Some? then [Do(inc.value)] else [], Some(Br(n)))
            && Grows(Join(h, n + 2).graph, e.graph)
  {
  }

  lemma ForParts(G: Graph, s: Stmt, g: Builder)
    requires s.For? && Scoped(s) && Fit(g) && !Terminated(g) && Grows(Comp(s, g).graph, G)
    ensures var m := |g.graph|;
            var g1 := LoopBody(g, s.init, 4, m + 2, s.test);
            var h := Comp(s.body, g1);
            var e := Comp(s, g);
            && LoopContext(g1, m + 3, m + 2) && g1.cur == m + 1
            && Grows(g1.graph, G) && Grows(h.graph, G) && Grows(Join(h, m + 2).graph, G)
            && StepsBack(G, m + 2, s.inc, m)
            && e.cur == m + 3 && e.graph[m + 3] == OPEN
  {
    hide LoopBody, EndFor, Join;
    var m := |g.graph|;
    var g1 := LoopBody(g, s.init, 4, m + 2, s.test);
    LoopBodyParts(g, s.init, 4, m + 2, s.test);
    CompFramed(s.body, g1);
    var h := Comp(s.body, g1);
    var e := Comp(s, g);
    EndForBlocks(g1, h, s.inc, m);
    JoinGrows(h, m + 2);
    GrowsTrans(Join(h, m + 2).graph, e.graph, G);
    GrowsTrans(h.graph, Join(h, m + 2).graph, G);
    GrowsTrans(g1.graph, h.graph, G);
    assert Kept(e.graph[m + 2], G[m + 2]);
  }

  /** A loop body leaves the scopes as they were when it began. */
  lemma ForScopes(s: Stmt, g: Builder)
    requires s.For? && Scoped(s)
    ensures var g1 := LoopBody(g, s.init, 4, |g.graph| + 2, s.test);
            SameContext(g, Comp(s, g)) && Comp(s, g).defers == g1.defers && Comp(s, g).cleanups == g1.cleanups
    ensures Top(LoopBody(g, s.init, 4, |g.graph| + 2, s.test)) == Top(LoopStart(g, s.init, 4, |g.graph| + 2))
  {
    hide *;
    ForIs(s, g);
    var g1 := LoopBody(g, s.init, 4, |g.graph| + 2, s.test);
    ForContextKept(s, g);
    ContextKept(s.body, g1);
    QuietScopes(g1, Comp(s.body, g1));
    EndForScopes(Comp(s.body, g1), s.inc, |g.graph|);
    LoopBodyTop(g, s.init, 4, |g.graph| + 2, s.test);
  }

  lemma QuietScopes(g: Builder, h: Builder)
    requires Quiet(g, h)
    ensures h.defers == g.defers && h.cleanups == g.cleanups
  {
  }

  lemma EndForScopes(h: Builder, inc: Option<nat>, n: nat)
    ensures EndFor(h, inc, n).defers == h.defers && EndFor(h, inc, n).cleanups == h.cleanups
  {
  }

  lemma LoopBodyTop(g: Builder, init: Option<Init>, k: nat, cont: nat, c: Option<nat>)
    ensures Top(LoopBody(g, init, k, cont, c)) == Top(LoopStart(g, init, k, cont))
  {
    hide LoopStart;
  }

  lemma {:induction false} ForSimulates(G: Graph, o: Oracle, s: Stmt, g: Builder, tr: Trace, n: nat)
    requires s.For? && Scoped(s) && Fit(g) && !Terminated(g) && Grows(Comp(s, g).graph, G)
    ensures Matches(G, o, Here(g, tr), g, Comp(s, g), Exec(o, s, Top(g), tr, TargetsOf(g), n), n)
    decreases n, s, 1
  {
    hide LoopBody, LoopStart, EndFor, Matches, LoopMatches;
    var m := |g.graph|;
    var g1 := LoopBody(g, s.init, 4, m + 2, s.test);
    ForLoopMatches(G, o, s, g, tr, n);
    ForScopes(s, g);
    ForParts(G, s, g);
    LoopDone(G, o, Here(g, tr), g, g1, Comp(s, g), Exec(o, s, Top(g), tr, TargetsOf(g), n), n);
  }

  lemma {:induction false} ForLoopMatches(G: Graph, o: Oracle, s: Stmt, g: Builder, tr: Trace, n: nat)
    requires s.For? && Scoped(s) && Fit(g) && !Terminated(g) && Grows(Comp(s, g).graph, G)
    ensures var m := |g.graph|;
            LoopMatches(G, o, Here(g, tr), m + 3, LoopBody(g, s.init, 4, m + 2, s.test),
                        Exec(o, s, Top(g), tr, TargetsOf(g), n), n)
    decreases n, s, 0
  {
    hide LoopBody, LoopStart, EndFor, LoopMatches, Join, Grows, Reaches;
    var m := |g.graph|;
    var g1 := LoopBody(g, s.init, 4, m + 2, s.test);
    var tr1 := InitTrace(s.init, tr);
    ForParts(G, s, g);
    TestsIn(G, g1, s.init, g, 4, m + 2, s.test);
    LoopStartRuns(G, o, g, s.init, 4, m + 2, tr);
    LoopBodyTop(g, s.init, 4, m + 2, s.test);
    assert Exec(o, s, Top(g), tr, TargetsOf(g), n) == ExecLoop(o, s.test, s.inc, s.body, Top(g1), tr1, n);
    hide Comp, Exec;
    LoopSimulates(G, o, s.test, s.inc, s.body, g1, m, m + 3, m + 2, tr1, n);
    LoopMatchesFrom(G, o, Here(g, tr), At(m, 0, tr1), m + 3, g1,
      ExecLoop(o, s.test, s.inc, s.body, Top(g1), tr1, n), n);
  }

  // ---- do ----

  lemma EndDoBlocks(g1: Builder, h: Builder, c: nat, n: nat)
    requires Framed(g1, h) && g1.cur == n && n + 2 < |g1.graph|
    requires g1.graph[n + 1] == OPEN && g1.graph[n + 2] == OPEN
    ensures var e := EndDo(h, c, n);
            && e.cur == n + 2 && e.graph[n + 2] == OPEN
            && e.graph[n + 1] == Block([], Some(CondBr(c, n, n + 2)))
            && Grows(Join(h, n + 1).graph, e.graph)
  {
  }

  lemma DoParts(G: Graph, s: Stmt, g: Builder)
    requires s.DoWhile? && Scoped(s) && Fit(g) && !Terminated(g) && Grows(Comp(s, g).graph, G)
    ensures var m := |g.graph|;
            var g1 := LoopStart(g, None, 3, m + 1);
            var h := Comp(s.body, g1);
            var e := Comp(s, g);
            && LoopContext(g1, m + 2, m + 1) && g1.cur == m
            && Grows(g1.graph, G) && Grows(h.graph, G) && Grows(Join(h, m + 1).graph, G)
            && Tests(G, m + 1, Some(s.cond), m, m + 2)
            && e.cur == m + 2 && e.graph[m + 2] == OPEN
  {
    hide LoopStart, EndDo, Join;
    var m := |g.graph|;
    var g1 := LoopStart(g, None, 3, m + 1);
    DoStartParts(g);
    CompFramed(s.body, g1);
    var h := Comp(s.body, g1);
    EndDoBlocks(g1, h, s.cond, m);
    DoTailParts(G, g1, h, s.cond, m);
  }

  lemma DoStartParts(g: Builder)
    requires Fit(g) && !Terminated(g)
    ensures var m := |g.graph|;
            var g1 := LoopStart(g, None, 3, m + 1);
            && LoopContext(g1, m + 2, m + 1) && g1.cur == m && |g1.graph| == m + 3
            && g1.graph[m + 1] == OPEN && g1.graph[m + 2] == OPEN
  {
    hide LoopStart;
    LoopStartFramed(g, None, 3, |g.graph| + 1);
    LoopStartContext(g, None, 3, |g.graph| + 1);
  }

  lemma DoTailParts(G: Graph, g1: Builder, h: Builder, c: nat, m: nat)
    requires Grows(g1.graph, h.graph) && Grows(EndDo(h, c, m).graph, G)
      && Grows(Join(h, m + 1).graph, EndDo(h, c, m).graph)
    requires m + 1 < |EndDo(h, c, m).graph| && EndDo(h, c, m).graph[m + 1] == Block([], Some(CondBr(c, m, m + 2)))
    ensures Grows(g1.graph, G) && Grows(h.graph, G) && Grows(Join(h, m + 1).graph, G)
    ensures Tests(G, m + 1, Some(c), m, m + 2)
  {
    hide EndDo, Join;
    var e := EndDo(h, c, m);
    JoinGrows(h, m + 1);
    GrowsTrans(Join(h, m + 1).graph, e.graph, G);
    GrowsTrans(h.graph, Join(h, m + 1).graph, G);
    GrowsTrans(g1.graph, h.graph, G);
    assert Kept(e.graph[m + 1], G[m + 1]);
  }

  /** The body comes first, so a round may cost one step less than in the other loops. */
  lemma {:induction false} DoRoundsSimulate(G: Graph, o: Oracle, body: Stmt, c: nat, g: Builder, end: nat, cont: nat,
      tr: Trace, n: nat)
    requires Branch(body) && LoopContext(g, end, cont)
    requires Grows(Comp(body, g).graph, G) && Grows(Join(Comp(body, g), cont).graph, G)
    requires Tests(G, cont, Some(c), g.cur, end)
    ensures LoopMatches(G, o, At(g.cur, 0, tr), end, g, ExecDo(o, body, c, Top(g), tr, n), if n == 0 then 0 else n - 1)
    decreases n, body, 4
  {
    hide Join, Comp, Exec, Exits, Top, Grows, Reaches, LoopContext;
    var start := At(g.cur, 0, tr);
    if n == 0 {
      assert Steps(G, o, start, 0).At?;
    } else {
      RoundSimulates(G, o, body, g, end, cont, tr, n - 1);
      var out := Exec(o, body, Top(g), tr, LOOP, n - 1);
      if out.Done? && (out.how.Fell? || out.how.Continued?) {
        var d := At(cont, 0, out.trace);
        var v := o(c, out.trace);
        var tr1 := out.trace + [Event.Test(c, v)];
        var rest := ExecDo(o, body, c, Top(g), tr1, n - 1);
        ReachesStep(G, o, d);
        if v != 0 {
          DoRoundsSimulate(G, o, body, c, g, end, cont, tr1, n - 1);
          if n == 1 {
            assert Steps(G, o, start, 0).At?;
          } else {
            ReachesSelf(G, o, At(g.cur, 0, tr1));
            NextRound(G, o, d, At(g.cur, 0, tr1), end, g, rest, n - 1);
            LoopMatchesFrom(G, o, start, d, end, g, rest, n - 1);
          }
        } else {
          ReachesTrans(G, o, start, d, At(end, 0, tr1));
        }
      }
    }
  }

  lemma {:induction false} DoSimulates(G: Graph, o: Oracle, s: Stmt, g: Builder, tr: Trace, n: nat)
    requires s.DoWhile? && Scoped(s) && Fit(g) && !Terminated(g) && Grows(Comp(s, g).graph, G)
    ensures Matches(G, o, Here(g, tr), g, Comp(s, g), Exec(o, s, Top(g), tr, TargetsOf(g), n), n)
    decreases n, s, 1
  {
    hide LoopStart, EndDo, ExecDo, Matches, LoopMatches, Scoped, Fit, Grows, Terminated;
    var m := |g.graph|;
    DoLoopMatches(G, o, s, g, tr, n);
    DoContextKept(s, g);
    LoopStartContext(g, None, 3, m + 1);
    DoParts(G, s, g);
    LoopDone(G, o, Here(g, tr), g, LoopStart(g, None, 3, m + 1), Comp(s, g),
      ExecDo(o, s.body, s.cond, Top(g), tr, n), n);
  }

  lemma {:induction false} DoLoopMatches(G: Graph, o: Oracle, s: Stmt, g: Builder, tr: Trace, n: nat)
    requires s.DoWhile? && Scoped(s) && Fit(g) && !Terminated(g) && Grows(Comp(s, g).graph, G)
    ensures var m := |g.graph|;
            LoopMatches(G, o, Here(g, tr), m + 2, LoopStart(g, None, 3, m + 1),
                        ExecDo(o, s.body, s.cond, Top(g), tr, n), n)
    decreases n, s, 0
  {
    hide *;
    var m := |g.graph|;
    var g1 := LoopStart(g, None, 3, m + 1);
    DoParts(G, s, g);
    DoReady(o, s, g, tr, n);
    DoRoundsSimulate(G, o, s.body, s.cond, g1, m + 2, m + 1, tr, n);
    DoEnters(G, o, g, tr);
    DoEntered(G, o, Here(g, tr), m + 2, g1, ExecDo(o, s.body, s.cond, Top(g), tr, n), n);
  }

  lemma DoReady(o: Oracle, s: Stmt, g: Builder, tr: Trace, n: nat)
    requires s.DoWhile? && Scoped(s)
    ensures Branch(s.body) && Top(LoopStart(g, None, 3, |g.graph| + 1)) == Top(g) && Here(g, tr).At?
    ensures n == 0 ==> ExecDo(o, s.body, s.cond, Top(g), tr, n).Timeout?
  {
    LoopStartContext(g, None, 3, |g.graph| + 1);
    hide LoopStart, Exec;
  }

  /** The jump into the body makes up for the step its first round may lack. */
  lemma DoEntered(G: Graph, o: Oracle, c: Config, end: nat, g: Builder, out: Outcome, n: nat)
    requires c.At? && (n == 0 ==> out.Timeout?)
    requires LoopMatches(G, o, Step(G, o, c), end, g, out, if n == 0 then 0 else n - 1)
    ensures LoopMatches(G, o, c, end, g, out, n)
  {
    if n == 0 {
      assert Steps(G, o, c, 0).At?;
    } else {
      ReachesSelf(G, o, Step(G, o, c));
      NextRound(G, o, c, Step(G, o, c), end, g, out, n);
    }
  }

  lemma DoEnters(G: Graph, o: Oracle, g: Builder, tr: Trace)
    requires !Terminated(g) && Grows(LoopStart(g, None, 3, |g.graph| + 1).graph, G)
    ensures Step(G, o, Here(g, tr)) == At(|g.graph|, 0, tr)
  {
    var m := |g.graph|;
    FinishRuns(G, o, PushContinue(PushBreak(NewBlocks(g, 3), m + 2), m + 1), Br(m), tr);
  }

  // ---- switch ----

  function CaseBlock(cases: seq<Stmt>, i: nat, end: nat): nat {
    if i < |cases| then end + 1 + i else end
  }

  /** The arms of the jump pick the case that the source enters. */
  lemma {:induction false} SelectFinds(labels: seq<Option<int>>, count: nat, first: nat, from: nat, otherwise: nat,
      v: int)
    requires from <= count
    ensures var i := FindLabel(labels, count, v, from);
            Select(Arms(labels, count, first, from), otherwise, v) == if i < count then first + i else otherwise
    decreases count - from
  {
    if from < count {
      SelectFinds(labels, count, first, from + 1, otherwise, v);
      if LabelOf(labels, from).Some? {
        var rest := Arms(labels, count, first, from + 1);
        assert ([Arm(LabelOf(labels, from).value, first + from)] + rest)[1..] == rest;
      }
    }
  }

  lemma SelectEntry(labels: seq<Option<int>>, cases: seq<Stmt>, end: nat, v: int)
    ensures Select(Arms(labels, |cases|, end + 1, 0), DefaultArm(labels, |cases|, end), v)
         == CaseBlock(cases, Entry(labels, |cases|, v), end)
  {
    SelectFinds(labels, |cases|, end + 1, 0, DefaultArm(labels, |cases|, end), v);
  }

  /** Like Matches, but falling and breaking both lead to the end block. */
  ghost predicate CaseMatches(G: Graph, o: Oracle, c: Config, end: nat, g: Builder, out: Outcome, n: nat) {
    match out
    case Trap(tr) => Reaches(G, o, c, Trapped(tr))
    case Timeout => RunsFor(G, o, c, n)
    case Done(how, tr, sc) =>
      && sc == Top(g)
      && match how
         case Left => Reaches(G, o, c, Returned(tr + Exits(g, Top(g), 0)))
         case Continued =>
           && g.continues != []
           && Reaches(G, o, c, At(Last(g.continues), 0, tr + Exits(g, Top(g), Last(g.continueDepths))))
         case _ => Reaches(G, o, c, At(end, 0, tr))
  }

  lemma CaseMatchesFrom(G: Graph, o: Oracle, c: Config, d: Config, end: nat, g: Builder, out: Outcome, n: nat)
    requires Reaches(G, o, c, d) && CaseMatches(G, o, d, end, g, out, n)
    ensures CaseMatches(G, o, c, end, g, out, n)
  {
    match out
    case Trap(tr) => ReachesTrans(G, o, c, d, Trapped(tr));
    case Timeout => RunsAfter(G, o, c, d, n);
    case Done(how, tr, _) =>
      match how
      case Left => ReachesTrans(G, o, c, d, Returned(tr + Exits(g, Top(g), 0)));
      case Continued =>
        ReachesTrans(G, o, c, d, At(Last(g.continues), 0, tr + Exits(g, Top(g), Last(g.continueDepths))));
      case _ => ReachesTrans(G, o, c, d, At(end, 0, tr));
  }

  /** Generation has reached case i, control enters case e. */
  ghost predicate InSwitch(G: Graph, cases: seq<Stmt>, i: nat, end: nat, g: Builder, base: Builder) {
    && i <= |cases| && (forall j :: 0 <= j < |cases| ==> Branch(cases[j]))
    && Framed(base, g) && |base.graph| <= end && end + |cases| < |g.graph|
    && g.cur != end && (g.cur <= end + i || g.cur > end + |cases|)
    && (forall b :: end + i < b <= end + |cases| ==> g.graph[b] == OPEN)
    && Fit(g) && g.breaks != [] && Last(g.breaks) == end && Last(g.breakDepths) == |g.defers|
    && Grows(CompCases(cases, i, end, g).graph, G)
  }

  lemma NextCase(G: Graph, cases: seq<Stmt>, i: nat, end: nat, g: Builder, base: Builder)
    requires InSwitch(G, cases, i, end, g, base) && i < |cases|
    ensures var h := Into(g, end + 1 + i);
            var k := Comp(cases[i], h);
            var g' := Join(k, Next(cases, i, end));
            && h.cur == end + 1 + i && h.graph == g.graph && h.graph[h.cur] == OPEN && Fit(h) && Quiet(g, h)
            && InSwitch(G, cases, i + 1, end, g', base) && Quiet(g, g') && Quiet(g, k)
            && Grows(k.graph, G) && Grows(g'.graph, G)
  {
    hide Comp;
    var h := Into(g, end + 1 + i);
    CompFramed(cases[i], h);
    ContextKept(cases[i], h);
    var k := Comp(cases[i], h);
    var g' := Join(k, Next(cases, i, end));
    FramedTrans(base, h, k);
    FramedJoin(base, k, Next(cases, i, end));
    FramedJoin(h, k, Next(cases, i, end));
    JoinGrows(k, Next(cases, i, end));
    CompCasesFramed(cases, i + 1, end, g', base);
    GrowsTrans(g'.graph, CompCases(cases, i, end, g).graph, G);
    GrowsTrans(k.graph, g'.graph, G);
  }

  lemma {:induction false} CasesSimulate(G: Graph, o: Oracle, cases: seq<Stmt>, i: nat, e: nat, end: nat,
                                         g: Builder, base: Builder, tr: Trace, n: nat)
    requires InSwitch(G, cases, i, end, g, base) && i <= e <= |cases|
    ensures CaseMatches(G, o, At(CaseBlock(cases, e, end), 0, tr), end, g,
                        ExecCases(o, cases, e, Top(g), tr, TargetsOf(g), n), n)
    decreases n, cases, |cases| - i
  {
    hide Join, Comp, Into, CompCases, InSwitch;
    var start := At(CaseBlock(cases, e, end), 0, tr);
    if e == |cases| {
      ReachesSelf(G, o, start);
    } else {
      InSwitchCases(G, cases, i, end, g, base);
      NextCase(G, cases, i, end, g, base);
      var h := Into(g, end + 1 + i);
      var k := Comp(cases[i], h);
      var g' := Join(k, Next(cases, i, end));
      if i < e {
        CasesSimulate(G, o, cases, i + 1, e, end, g', base, tr, n);
        SameCaseMatches(G, o, start, end, g, g', ExecCases(o, cases, e, Top(g), tr, TargetsOf(g), n), n);
      } else {
        Simulates(G, o, cases[i], h, tr, n);
        ScopeKept(o, cases[i], Top(g), tr, TargetsOf(g), n);
        var out := Exec(o, cases[i], Top(g), tr, TargetsOf(g), n);
        if out.Done? && out.how.Fell? {
          JoinRuns(G, o, k, Next(cases, i, end), out.trace);
          var d := At(CaseBlock(cases, i + 1, end), 0, out.trace);
          ReachesTrans(G, o, start, Here(k, out.trace), d);
          CasesSimulate(G, o, cases, i + 1, i + 1, end, g', base, out.trace, n);
          var rest := ExecCases(o, cases, i + 1, Top(g), out.trace, TargetsOf(g), n);
          SameCaseMatches(G, o, d, end, g, g', rest, n);
          CaseMatchesFrom(G, o, start, d, end, g, rest, n);
        } else if out.Done? {
          CaseLeaves(G, o, start, end, g, h, k, out, n);
        }
      }
    }
  }

  lemma InSwitchCases(G: Graph, cases: seq<Stmt>, i: nat, end: nat, g: Builder, base: Builder)
    requires InSwitch(G, cases, i, end, g, base)
    ensures forall j :: 0 <= j < |cases| ==> Branch(cases[j])
    ensures Fit(g) && g.breaks != [] && Last(g.breaks) == end && Last(g.breakDepths) == |g.defers|
  {
  }

  lemma SameCaseMatches(G: Graph, o: Oracle, c: Config, end: nat, g: Builder, g': Builder, out: Outcome, n: nat)
    requires Quiet(g, g') && CaseMatches(G, o, c, end, g', out, n)
    ensures CaseMatches(G, o, c, end, g, out, n)
  {
    assert Top(g) == Top(g') && forall depth :: Exits(g, Top(g), depth) == Exits(g', Top(g'), depth);
  }

  lemma CaseLeaves(G: Graph, o: Oracle, c: Config, end: nat, g: Builder, h: Builder, k: Builder, out: Outcome, n: nat)
    requires Fit(g) && g.breaks != [] && Last(g.breaks) == end && Last(g.breakDepths) == |g.defers| && Quiet(g, h)
    requires out.Done? && !out.how.Fell? && out.scope == Top(g) && Matches(G, o, c, h, k, out, n)
    ensures CaseMatches(G, o, c, end, g, out, n)
  {
    assert Top(g) == Top(h) && forall depth :: Exits(g, Top(g), depth) == Exits(h, Top(h), depth);
    ExitsTop(g, |g.defers|);
    assert out.trace + [] == out.trace;
  }

  lemma SwitchEnters(G: Graph, o: Oracle, s: Stmt, g: Builder, tr: Trace)
    requires s.Switch? && Scoped(s) && Fit(g) && !Terminated(g) && Grows(Comp(s, g).graph, G)
    ensures var m := |g.graph|;
            var g1 := SwitchStart(g, s.cond, s.labels, |s.cases|);
            var v := o(s.cond, tr);
            && InSwitch(G, s.cases, 0, m, g1, g)
            && g1.defers == g.defers && g1.cleanups == g.cleanups && g1.continues == g.continues
            && g1.continueDepths == g.continueDepths
            && Comp(s, g).cur == m && Comp(s, g).graph[m] == OPEN
            && Reaches(G, o, Here(g, tr),
                       At(CaseBlock(s.cases, Entry(s.labels, |s.cases|, v), m), 0, tr + [Event.Test(s.cond, v)]))
  {
    var m := |g.graph|;
    var g1 := SwitchStart(g, s.cond, s.labels, |s.cases|);
    SwitchStartFramed(g, s.cond, s.labels, |s.cases|);
    CompCasesFramed(s.cases, 0, m, g1, g);
    GrowsTrans(g1.graph, Comp(s, g).graph, G);
    SwitchJumps(G, o, s, g, tr);
  }

  lemma SwitchJumps(G: Graph, o: Oracle, s: Stmt, g: Builder, tr: Trace)
    requires s.Switch? && !Terminated(g) && Grows(SwitchStart(g, s.cond, s.labels, |s.cases|).graph, G)
    ensures var m := |g.graph|;
            var v := o(s.cond, tr);
            Reaches(G, o, Here(g, tr),
                    At(CaseBlock(s.cases, Entry(s.labels, |s.cases|, v), m), 0, tr + [Event.Test(s.cond, v)]))
  {
    var m := |g.graph|;
    SelectEntry(s.labels, s.cases, m, o(s.cond, tr));
    FinishRuns(G, o, PushBreak(NewBlocks(g, 1 + |s.cases|), m),
               Jump(s.cond, Arms(s.labels, |s.cases|, m + 1, 0), DefaultArm(s.labels, |s.cases|, m)), tr);
    ReachesStep(G, o, Here(g, tr));
  }

  lemma {:induction false} SwitchSimulates(G: Graph, o: Oracle, s: Stmt, g: Builder, tr: Trace, n: nat)
    requires s.Switch? && Scoped(s) && Fit(g) && !Terminated(g) && Grows(Comp(s, g).graph, G)
    ensures Matches(G, o, Here(g, tr), g, Comp(s, g), Exec(o, s, Top(g), tr, TargetsOf(g), n), n)
    decreases n, s, 1
  {
    var m := |g.graph|;
    var g1 := SwitchStart(g, s.cond, s.labels, |s.cases|);
    SwitchEnters(G, o, s, g, tr);
    ContextKept(s, g);
    InSwitchCases(G, s.cases, 0, m, g1, g);
    hide SwitchStart, InSwitch, Comp;
    var v := o(s.cond, tr);
    var e := Entry(s.labels, |s.cases|, v);
    var tr1 := tr + [Event.Test(s.cond, v)];
    CasesSimulate(G, o, s.cases, 0, e, m, g1, g, tr1, n);
    var out := ExecCases(o, s.cases, e, Top(g), tr1, TargetsOf(g).(brk := true), n);
    CaseMatchesFrom(G, o, Here(g, tr), At(CaseBlock(s.cases, e, m), 0, tr1), m, g1, out, n);
    assert forall depth :: Exits(g, Top(g), depth) == Exits(g1, Top(g1), depth);
  }

  // ---- whole functions ----

  const ENTRY: Builder := Gen([OPEN], 0, [], [], [], [], [], [])

  /** Every call of a function whose defers stand in blocks ends, if the source ends, in
      the same way and with the same history. */
  lemma CallRuns(o: Oracle, body: seq<Stmt>, isVoid: bool, n: nat)
    requires ScopedList(body)
    ensures var G := CompFunction(body, isVoid).graph;
            var end := Call(o, body, isVoid, n);
            if end.At? then RunsFor(G, o, At(0, 0, []), n) else Reaches(G, o, At(0, 0, []), end)
  {
    var G := CompFunction(body, isVoid).graph;
    var g := PushScope(ENTRY);
    var g1 := CompList(body, g);
    ListContextKept(body, g);
    EndFunction(ENTRY, g1, if isVoid then Ret else Unreachable);
    assert G == FunctionEnd(g1, isVoid).graph;
    BodyRuns(G, o, body, g, isVoid, n);
  }

  function FunctionEnd(g1: Builder, isVoid: bool): Builder {
    if Terminated(g1) then g1
    else Finish(Emit(g1, Unwind(g1.defers, g1.cleanups, 0)), if isVoid then Ret else Unreachable)
  }

  /** The exit of the body's block and the final terminator. */
  lemma EndFunction(g: Builder, g1: Builder, t: Terminator)
    requires g.defers == [] && g.cleanups == [] && SameContext(PushScope(g), g1)
    ensures var h := EndBlock(g1);
            && (Terminated(h) <==> Terminated(g1)) && (Terminated(g1) ==> h.graph == g1.graph)
            && Finish(h, t).graph ==
                 (if Terminated(g1) then Finish(g1, t)
                  else Finish(Emit(g1, Unwind(g1.defers, g1.cleanups, 0)), t)).graph
  {
  }

  lemma BodyRuns(G: Graph, o: Oracle, body: seq<Stmt>, g: Builder, isVoid: bool, n: nat)
    requires ScopedList(body) && g == PushScope(ENTRY) && G == FunctionEnd(CompList(body, g), isVoid).graph
    ensures var end := Call(o, body, isVoid, n);
            if end.At? then RunsFor(G, o, Here(g, []), n) else Reaches(G, o, Here(g, []), end)
  {
    hide CompList, ExecList, Call, Exec;
    var g1 := CompList(body, g);
    BodyGrows(G, g1, isVoid);
    ListContextKept(body, g);
    ListSimulates(G, o, body, g, [], n);
    CallIs(o, body, isVoid, n);
    assert Top(g) == EMPTY && TargetsOf(g) == Targets(false, false);
    BodyEnds(G, o, g, g1, isVoid, ExecList(o, body, EMPTY, [], Targets(false, false), n), n);
  }

  lemma BodyGrows(G: Graph, g1: Builder, isVoid: bool)
    requires G == FunctionEnd(g1, isVoid).graph
    ensures Grows(g1.graph, G)
  {
  }

  /** How a whole body ends: nothing is left to unwind but its own scope. */
  lemma BodyEnds(G: Graph, o: Oracle, g: Builder, g1: Builder, isVoid: bool, out: Outcome, n: nat)
    requires g.breaks == [] && g.continues == [] && |g.defers| == 1 && |g.cleanups| == 1 && SameContext(g, g1)
    requires G == FunctionEnd(g1, isVoid).graph && Matches(G, o, Here(g, []), g, g1, out, n)
    ensures match out
      case Done(how, tr, sc) =>
        var tr1 := tr + ExitEvents(sc);
        Reaches(G, o, Here(g, []), if how == Left || isVoid then Returned(tr1) else Trapped(tr1))
      case Trap(tr) => Reaches(G, o, Here(g, []), Trapped(tr))
      case Timeout => RunsFor(G, o, Here(g, []), n)
  {
    if out.Done? {
      OneScope(g, out.scope);
      if out.how.Fell? {
        FallsOff(G, o, g, g1, isVoid, out.trace);
        ReachesTrans(G, o, Here(g, []), Here(g1, out.trace),
                     Leave(o, if isVoid then Ret else Unreachable, out.trace + ExitEvents(out.scope)));
      }
    }
  }

  lemma CallIs(o: Oracle, body: seq<Stmt>, isVoid: bool, n: nat)
    ensures Call(o, body, isVoid, n) ==
      (match ExecList(o, body, EMPTY, [], Targets(false, false), n)
       case Done(how, tr, sc) =>
         if how == Left || isVoid then Returned(tr + ExitEvents(sc)) else Trapped(tr + ExitEvents(sc))
       case Trap(tr) => Trapped(tr)
       case Timeout => At(0, 0, []))
  {
  }

  lemma OneScope(g: Builder, sc: Scope)
    requires |g.defers| == 1 && |g.cleanups| == 1
    ensures Exits(g, sc, 0) == ExitEvents(sc)
  {
    assert WithTop(g.defers, sc.defers) == [sc.defers] && WithTop(g.cleanups, sc.cleanups) == [sc.cleanups];
    assert Unwind([], [sc.cleanups], 0) == [];
  }

  lemma FallsOff(G: Graph, o: Oracle, g: Builder, g1: Builder, isVoid: bool, tr: Trace)
    requires |g.defers| == 1 && |g.cleanups| == 1 && SameContext(g, g1) && !Terminated(g1)
    requires G == FunctionEnd(g1, isVoid).graph
    ensures Reaches(G, o, Here(g1, tr), Leave(o, if isVoid then Ret else Unreachable, tr + ExitEvents(Top(g1))))
  {
    OneScope(g1, Top(g1));
    WithTopSelf(g1.defers);
    WithTopSelf(g1.cleanups);
    LeaveRuns(G, o, g1, Unwind(g1.defers, g1.cleanups, 0), if isVoid then Ret else Unreachable, tr);
  }

  /** Defer inlining preserves meaning, in both directions: the generated function returns
      (or traps) with some history exactly when the source does, and so it also runs
      forever exactly when the source does. */
  lemma DeferInliningPreservesMeaning(o: Oracle, body: seq<Stmt>, isVoid: bool, end: Config)
    requires ScopedList(body) && (end.Returned? || end.Trapped?)
    ensures (exists n: nat :: Call(o, body, isVoid, n) == end)
       <==> Reaches(CompFunction(body, isVoid).graph, o, At(0, 0, []), end)
  {
    var G := CompFunction(body, isVoid).graph;
    var start := At(0, 0, []);
    if n: nat :| Call(o, body, isVoid, n) == end {
      CallRuns(o, body, isVoid, n);
    }
    if Reaches(G, o, start, end) {
      var k: nat :| Steps(G, o, start, k) == end;
      CallRuns(o, body, isVoid, k);
      var end' := Call(o, body, isVoid, k);
      if end'.At? {
        var j: nat :| j >= k && Steps(G, o, start, j).At?;
        HaltsOnce(G, o, start, end, k, j);
        assert false;
      } else {
        var j: nat :| Steps(G, o, start, j) == end';
        HaltsOnce(G, o, start, end, k, if j > k then j else k);
        HaltsOnce(G, o, start, end', j, if j > k then j else k);
        assert Call(o, body, isVoid, k) == end;
      }
    }
  }

  /** The generated blocks are well formed: no run of them gets lost. */
  lemma NeverMalformed(o: Oracle, body: seq<Stmt>, isVoid: bool, n: nat)
    requires ScopedList(body)
    ensures Steps(CompFunction(body, isVoid).graph, o, At(0, 0, []), n) != Malformed
  {
    var G := CompFunction(body, isVoid).graph;
    var start := At(0, 0, []);
    CallRuns(o, body, isVoid, n);
    if Steps(G, o, start, n) == Malformed {
      var end := Call(o, body, isVoid, n);
      if end.At? {
        var j: nat :| j >= n && Steps(G, o, start, j).At?;
        HaltsOnce(G, o, start, Malformed, n, j);
        assert false;
      } else {
        var j: nat :| Steps(G, o, start, j) == end;
        HaltsOnce(G, o, start, end, j, if j > n then j else n);
        HaltsOnce(G, o, start, Malformed, n, if j > n then j else n);
        assert false;
      }
    }
  }

  /** A deferred call that is the unbraced branch of an if is registered in the block
      around it, whether or not the branch is taken: the generated code then runs it on
      exit where the source, which never reached it, does not. */
  lemma BareDeferRunsUnreached(o: Oracle, c: nat, d: nat, n: nat)
    requires o(c, []) == 0
    ensures var body := [If(c, Defer(d), None)];
            && !ScopedList(body)
            && Call(o, body, true, n) == Returned([Event.Test(c, 0)])
            && Reaches(CompFunction(body, true).graph, o, At(0, 0, []), Returned([Event.Test(c, 0), Do(d)]))
  {
    var s := If(c, Defer(d), None);
    var body := [s];
    assert !Branch(Defer(d));
    assert ExecList(o, body, EMPTY, [], Targets(false, false), n) == Done(Fell, [Event.Test(c, 0)], EMPTY);
    var G := CompFunction(body, true).graph;
    BareDeferBlocks(c, d);
    assert G[0] == Block([], Some(CondBr(c, 1, 2)));
    assert G[2] == Block([], Some(Br(3)));
    assert G[3] == Block([Do(d)], Some(Ret));
    var c0, c1, c2 := At(0, 0, []), At(2, 0, [Event.Test(c, 0)]), At(3, 0, [Event.Test(c, 0)]);
    var c3 := At(3, 1, [Event.Test(c, 0), Do(d)]);
    ReachesStep(G, o, c0);
    ReachesStep(G, o, c1);
    ReachesStep(G, o, c2);
    ReachesStep(G, o, c3);
    ReachesTrans(G, o, c0, c1, c2);
    ReachesTrans(G, o, c0, c2, c3);
    ReachesTrans(G, o, c0, c3, Returned([Event.Test(c, 0), Do(d)]));
  }

  lemma BareDeferBlocks(c: nat, d: nat)
    ensures CompFunction([If(c, Defer(d), None)], true).graph ==
            [Block([], Some(CondBr(c, 1, 2))), Block([], Some(Br(3))), Block([], Some(Br(3))),
              Block([Do(d)], Some(Ret))]
  {
    var g := PushScope(ENTRY);
    var e := EndIf(ElseStart(AddDefer(IfStart(g, c), d), 1), 1);
    BareComp(g, c, d);
    BareIfStart(g, c);
    hide IfStart, ElseStart, EndIf, EndBlock;
    BareIfEnd(IfStart(g, c), c, d);
    BareReturn(e, d);
    EndFunction(ENTRY, e, Ret);
  }

  lemma BareComp(g: Builder, c: nat, d: nat)
    requires |g.graph| == 1 && !Terminated(g)
    ensures CompList([If(c, Defer(d), None)], g) == EndIf(ElseStart(AddDefer(IfStart(g, c), d), 1), 1)
  {
    hide IfStart, ElseStart, EndIf;
    var s := If(c, Defer(d), None);
    assert [s][1..] == [];
    assert Comp(s.thn, IfStart(g, c)) == AddDefer(IfStart(g, c), d);
  }

  lemma BareIfStart(g: Builder, c: nat)
    requires g == PushScope(ENTRY)
    ensures var g1 := IfStart(g, c);
            && g1.graph == [Block([], Some(CondBr(c, 1, 2))), OPEN, OPEN, OPEN] && g1.cur == 1
            && g1.defers == [[]] && g1.cleanups == [[]]
            && g1.breaks == [] && g1.breakDepths == [] && g1.continues == [] && g1.continueDepths == []
  {
    assert |OpenBlocks(3)| == 3;
  }

  lemma BareIfEnd(g1: Builder, c: nat, d: nat)
    requires g1.graph == [Block([], Some(CondBr(c, 1, 2))), OPEN, OPEN, OPEN] && g1.cur == 1
    requires g1.defers == [[]] && g1.cleanups == [[]]
    ensures var e := EndIf(ElseStart(AddDefer(g1, d), 1), 1);
            && e.graph == [Block([], Some(CondBr(c, 1, 2))), Block([], Some(Br(3))), Block([], Some(Br(3))), OPEN]
            && e.cur == 3 && e.defers == [[d]] && e.cleanups == [[]]
            && e.breaks == g1.breaks && e.breakDepths == g1.breakDepths
            && e.continues == g1.continues && e.continueDepths == g1.continueDepths
  {
    assert g1.defers[0] + [d] == [d] && g1.defers[..0] == [];
    assert AddDefer(g1, d).defers == [[d]];
  }

  lemma BareReturn(e: Builder, d: nat)
    requires e.cur == 3 && |e.graph| == 4 && e.graph[3] == OPEN && e.defers == [[d]] && e.cleanups == [[]]
    ensures Finish(Emit(e, Unwind(e.defers, e.cleanups, 0)), Ret).graph == e.graph[3 := Block([Do(d)], Some(Ret))]
  {
    assert Unwind(e.defers[..0], e.cleanups, 0) == [];
    assert [d][..0] == [] && DeferEvents([d]) == [Do(d)];
    assert CleanupEvents(e.cleanups[0]) == [];
    assert Unwind(e.defers, e.cleanups, 0) == [Do(d)];
    assert OPEN.instrs + [Do(d)] == [Do(d)];
  }
}
