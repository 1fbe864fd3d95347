/** The generated blocks do what the source does, on every kind of exit. */
module DeferSim {
  import opened Options
  import opened Cfg
  import opened DeferSource
  import opened DeferCodegen

  // ---- the context of a statement: its targets and its scopes ----

  ghost predicate SameTargets(g: Builder, h: Builder) {
    && h.breaks == g.breaks && h.breakDepths == g.breakDepths
    && h.continues == g.continues && h.continueDepths == g.continueDepths
  }

  /** Same targets, and the same scopes except for what the innermost one holds. */
  ghost predicate SameContext(g: Builder, h: Builder) {
    && SameTargets(g, h)
    && |h.defers| == |g.defers| && |h.cleanups| == |g.cleanups|
    && DropLast(h.defers) == DropLast(g.defers) && DropLast(h.cleanups) == DropLast(g.cleanups)
  }

  ghost predicate Quiet(g: Builder, h: Builder) {
    SameTargets(g, h) && h.defers == g.defers && h.cleanups == g.cleanups
  }

  /** Inside a loop: one more target of each kind, at the present depth. */
  ghost predicate InLoop(g: Builder, h: Builder, brk: nat, cont: nat) {
    && h.breaks == g.breaks + [brk] && h.breakDepths == g.breakDepths + [|g.defers|]
    && h.continues == g.continues + [cont] && h.continueDepths == g.continueDepths + [|g.defers|]
    && |h.defers| == |g.defers| && |h.cleanups| == |g.cleanups|
    && DropLast(h.defers) == DropLast(g.defers) && DropLast(h.cleanups) == DropLast(g.cleanups)
  }

  lemma LoopStartContext(g: Builder, init: Option<Init>, k: nat, cont: nat)
    requires k > 0
    ensures InLoop(g, LoopStart(g, init, k, cont), |g.graph| + k - 1, cont)
    ensures init.None? || init.value.InitExpr? ==>
              LoopStart(g, init, k, cont).defers == g.defers && LoopStart(g, init, k, cont).cleanups == g.cleanups
  {
  }

  lemma EndLoopContext(g: Builder, g1: Builder, h: Builder, k: Builder, end: nat, brk: nat, cont: nat)
    requires InLoop(g, g1, brk, cont) && SameContext(g1, h) && Quiet(h, k)
    ensures SameContext(g, EndLoop(k, end))
    ensures Quiet(g1, h) && g1.defers == g.defers && g1.cleanups == g.cleanups ==> Quiet(g, EndLoop(k, end))
  {
    assert DropLast(k.breaks) == g.breaks && DropLast(k.breakDepths) == g.breakDepths;
    assert DropLast(k.continues) == g.continues && DropLast(k.continueDepths) == g.continueDepths;
  }

  lemma LoopBodyContext(g: Builder, init: Option<Init>, k: nat, cont: nat, c: Option<nat>)
    requires k > 0
    ensures InLoop(g, LoopBody(g, init, k, cont, c), |g.graph| + k - 1, cont)
    ensures init.None? || init.value.InitExpr? ==>
              LoopBody(g, init, k, cont, c).defers == g.defers && LoopBody(g, init, k, cont, c).cleanups == g.cleanups
  {
    LoopStartContext(g, init, k, cont);
  }

  lemma {:induction false} ContextKept(s: Stmt, g: Builder)
    requires Scoped(s)
    ensures SameContext(g, Comp(s, g))
    ensures !Registers(s) ==> Quiet(g, Comp(s, g))
    decreases s, 1
  {
    match s
    case Compound(ss) => ListContextKept(ss, PushScope(g));
    case If(_, _, _) => IfContextKept(s, g);
    case While(_, _) => WhileContextKept(s, g);
    case DoWhile(_, _) => DoContextKept(s, g);
    case For(_, _, _, _) => ForContextKept(s, g);
    case Switch(c, labels, cases) =>
      var g1 := SwitchStart(g, c, labels, |cases|);
      CasesContextKept(cases, 0, |g.graph|, g1);
      assert DropLast(g1.breaks) == g.breaks && DropLast(g1.breakDepths) == g.breakDepths;
    case _ =>
  }

  lemma {:induction false} IfContextKept(s: Stmt, g: Builder)
    requires Scoped(s) && s.If?
    ensures Quiet(g, Comp(s, g))
    decreases s, 0
  {
    var g1 := IfStart(g, s.cond);
    ContextKept(s.thn, g1);
    var k := ElseStart(Comp(s.thn, g1), |g.graph|);
    assert Quiet(g, k);
    if s.els.Some? { ContextKept(s.els.value, k); }
  }

  lemma {:induction false} WhileContextKept(s: Stmt, g: Builder)
    requires Scoped(s) && s.While?
    ensures Quiet(g, Comp(s, g))
    decreases s, 0
  {
    var n := |g.graph|;
    var g1 := LoopBody(g, None, 3, n, Some(s.cond));
    LoopBodyContext(g, None, 3, n, Some(s.cond));
    ContextKept(s.body, g1);
    EndLoopContext(g, g1, Comp(s.body, g1), Join(Comp(s.body, g1), n), n + 2, n + 2, n);
  }

  lemma {:induction false} DoContextKept(s: Stmt, g: Builder)
    requires Scoped(s) && s.DoWhile?
    ensures Quiet(g, Comp(s, g))
    decreases s, 0
  {
    hide LoopStart, EndDo;
    var n := |g.graph|;
    var g1 := LoopStart(g, None, 3, n + 1);
    LoopStartContext(g, None, 3, n + 1);
    ContextKept(s.body, g1);
    DoTailContext(g, g1, Comp(s.body, g1), s.cond, n, n + 2);
  }

  lemma DoTailContext(g: Builder, g1: Builder, h: Builder, c: nat, n: nat, brk: nat)
    requires InLoop(g, g1, brk, n + 1) && Quiet(g1, h) && g1.defers == g.defers && g1.cleanups == g.cleanups
    ensures Quiet(g, EndDo(h, c, n))
  {
    EndLoopContext(g, g1, h, Finish(Into(Join(h, n + 1), n + 1), CondBr(c, n, n + 2)), n + 2, brk, n + 1);
  }

  lemma {:induction false} ForContextKept(s: Stmt, g: Builder)
    requires Scoped(s) && s.For?
    ensures SameContext(g, Comp(s, g))
    ensures !Registers(s) ==> Quiet(g, Comp(s, g))
    decreases s, 0
  {
    hide LoopBody, EndFor;
    var n := |g.graph|;
    var g1 := LoopBody(g, s.init, 4, n + 2, s.test);
    LoopBodyContext(g, s.init, 4, n + 2, s.test);
    ContextKept(s.body, g1);
    ForTailContext(g, g1, Comp(s.body, g1), s.inc, n, n + 3);
  }

  lemma ForTailContext(g: Builder, g1: Builder, h: Builder, inc: Option<nat>, n: nat, brk: nat)
    requires InLoop(g, g1, brk, n + 2) && Quiet(g1, h)
    ensures SameContext(g, EndFor(h, inc, n))
    ensures g1.defers == g.defers && g1.cleanups == g.cleanups ==> Quiet(g, EndFor(h, inc, n))
  {
    var k := Into(Join(h, n + 2), n + 2);
    EndLoopContext(g, g1, h, Finish(if inc.Some? then Emit(k, [Do(inc.value)]) else k, Br(n)), n + 3, brk, n + 2);
  }

  lemma {:induction false} ListContextKept(ss: seq<Stmt>, g: Builder)
    requires ScopedList(ss)
    ensures SameContext(g, CompList(ss, g))
    decreases ss, 0
  {
    if ss != [] && !Terminated(g) {
      ContextKept(ss[0], g);
      ListContextKept(ss[1..], Comp(ss[0], g));
    }
  }

  lemma {:induction false} CasesContextKept(cases: seq<Stmt>, i: nat, end: nat, g: Builder)
    requires i <= |cases| && forall j :: 0 <= j < |cases| ==> Branch(cases[j])
    ensures Quiet(g, CompCases(cases, i, end, g))
    decreases cases, |cases| - i
  {
    if i < |cases| {
      var h := Into(g, end + 1 + i);
      ContextKept(cases[i], h);
      CasesContextKept(cases, i + 1, end, Join(Comp(cases[i], h), Next(cases, i, end)));
    }
  }

  // ---- what has to hold for a statement ----

  function Here(g: Builder, tr: Trace): Config { At(g.cur, |g.graph[g.cur].instrs|, tr) }

  function Top(g: Builder): Scope {
    Scope(if g.defers == [] then [] else g.defers[|g.defers| - 1],
          if g.cleanups == [] then [] else g.cleanups[|g.cleanups| - 1])
  }

  function TargetsOf(g: Builder): Targets { Targets(g.breaks != [], g.continues != []) }

  ghost predicate Fit(g: Builder) {
    && |g.cleanups| == |g.defers| > 0
    && |g.breakDepths| == |g.breaks| && Last(g.breakDepths) <= |g.defers|
    && |g.continueDepths| == |g.continues| && Last(g.continueDepths) <= |g.defers|
  }

  /** What leaving for a depth emits when the innermost scope holds sc. */
  function Exits(g: Builder, sc: Scope, depth: nat): seq<Event> {
    Unwind(WithTop(g.defers, sc.defers), WithTop(g.cleanups, sc.cleanups), depth)
  }

  /** From c the graph G goes where the outcome of a statement, generated from g to h, says. */
  ghost predicate Matches(G: Graph, o: Oracle, c: Config, g: Builder, h: Builder, out: Outcome, n: nat) {
    match out
    case Trap(tr) => Reaches(G, o, c, Trapped(tr))
    case Timeout => RunsFor(G, o, c, n)
    case Done(how, tr, sc) =>
      match how
      case Fell => !Terminated(h) && Top(h) == sc && Reaches(G, o, c, Here(h, tr))
      case Broke => g.breaks != [] && Reaches(G, o, c, At(Last(g.breaks), 0, tr + Exits(g, sc, Last(g.breakDepths))))
      case Continued =>
        g.continues != [] && Reaches(G, o, c, At(Last(g.continues), 0, tr + Exits(g, sc, Last(g.continueDepths))))
      case Left => Reaches(G, o, c, Returned(tr + Exits(g, sc, 0)))
  }

  lemma MatchesFrom(G: Graph, o: Oracle, c: Config, d: Config, g: Builder, k: Builder, h: Builder, out: Outcome, n: nat)
    requires Reaches(G, o, c, d) && SameContext(g, k) && Matches(G, o, d, k, h, out, n)
    ensures Matches(G, o, c, g, h, out, n)
  {
    match out
    case Trap(tr) => ReachesTrans(G, o, c, d, Trapped(tr));
    case Timeout => RunsAfter(G, o, c, d, n);
    case Done(how, tr, sc) =>
      assert forall depth :: Exits(g, sc, depth) == Exits(k, sc, depth);
      match how
      case Fell => ReachesTrans(G, o, c, d, Here(h, tr));
      case Broke => ReachesTrans(G, o, c, d, At(Last(g.breaks), 0, tr + Exits(g, sc, Last(g.breakDepths))));
      case Continued => ReachesTrans(G, o, c, d, At(Last(g.continues), 0, tr + Exits(g, sc, Last(g.continueDepths))));
      case Left => ReachesTrans(G, o, c, d, Returned(tr + Exits(g, sc, 0)));
  }

  lemma EmitRuns(G: Graph, o: Oracle, g: Builder, events: seq<Event>, tr: Trace)
    requires Grows(Emit(g, events).graph, G) && !Terminated(g)
    ensures Reaches(G, o, Here(g, tr), Here(Emit(g, events), tr + events))
  {
    var h := Emit(g, events);
    assert Kept(h.graph[g.cur], G[g.cur]);
    var i := |g.graph[g.cur].instrs|;
    assert h.graph[g.cur].instrs[i..i + |events|] == events;
    assert G[g.cur].instrs[i..i + |events|] == events;
    RunInstrs(G, o, g.cur, i, events, tr);
  }

  lemma FinishRuns(G: Graph, o: Oracle, g: Builder, t: Terminator, tr: Trace)
    requires Grows(Finish(g, t).graph, G)
    ensures Step(G, o, Here(g, tr)) == Leave(o, t, tr)
  {
    assert Kept(Finish(g, t).graph[g.cur], G[g.cur]);
  }

  lemma JoinRuns(G: Graph, o: Oracle, g: Builder, b: nat, tr: Trace)
    requires !Terminated(g) && Grows(Join(g, b).graph, G)
    ensures Reaches(G, o, Here(g, tr), At(b, 0, tr))
  {
    FinishRuns(G, o, g, Br(b), tr);
    ReachesStep(G, o, Here(g, tr));
  }

  /** Emit the exit of some scopes, then end the block. */
  lemma LeaveRuns(G: Graph, o: Oracle, g: Builder, events: seq<Event>, t: Terminator, tr: Trace)
    requires !Terminated(g) && Grows(Finish(Emit(g, events), t).graph, G)
    ensures Reaches(G, o, Here(g, tr), Leave(o, t, tr + events))
  {
    var h := Emit(g, events);
    assert Grows(h.graph, Finish(h, t).graph);
    GrowsTrans(h.graph, Finish(h, t).graph, G);
    EmitRuns(G, o, g, events, tr);
    FinishRuns(G, o, h, t, tr + events);
    ReachesStep(G, o, Here(h, tr + events));
    ReachesTrans(G, o, Here(g, tr), Here(h, tr + events), Leave(o, t, tr + events));
  }

  lemma WithTopSelf<T>(s: seq<T>)
    requires s != []
    ensures WithTop(s, s[|s| - 1]) == s
  {
  }

  lemma ExitsTop(g: Builder, depth: nat)
    requires Fit(g)
    ensures Exits(g, Top(g), depth) == Unwind(g.defers, g.cleanups, depth)
  {
    WithTopSelf(g.defers);
    WithTopSelf(g.cleanups);
  }
}
