/** What the statement generator does to its builder and context, as a function of
    their state. The class in DeferGenerator.dfy is proved to compute this. */
module DeferCodegen {
  import opened Options
  import opened Cfg
  import opened DeferSource

  datatype Gen = Gen(
    graph: Graph,
    cur: nat,                           // the insertion block
    defers: seq<seq<nat>>,
    cleanups: seq<seq<nat>>,
    breaks: seq<nat>,
    breakDepths: seq<nat>,
    continues: seq<nat>,
    continueDepths: seq<nat>)

  type Builder = g: Gen | g.cur < |g.graph| witness Gen([OPEN], 0, [], [], [], [], [], [])

  const OPEN := Block([], None)

  predicate Terminated(g: Builder) { g.graph[g.cur].term.Some? }

  /** Move the insertion point. */
  function Into(g: Builder, b: nat): Builder {
    if b < |g.graph| then g.(cur := b) else g
  }

  function Emit(g: Builder, events: seq<Event>): Builder {
    var b := g.graph[g.cur];
    g.(graph := g.graph[g.cur := b.(instrs := b.instrs + events)])
  }

  function Finish(g: Builder, t: Terminator): Builder {
    g.(graph := g.graph[g.cur := g.graph[g.cur].(term := Some(t))])
  }

  /** Branch to b unless the block has ended already. */
  function Join(g: Builder, b: nat): Builder {
    if Terminated(g) then g else Finish(g, Br(b))
  }

  function OpenBlocks(k: nat): Graph { seq(k, _ => OPEN) }

  function NewBlocks(g: Builder, k: nat): Builder {
    g.(graph := g.graph + OpenBlocks(k))
  }

  function DropLast<T>(s: seq<T>): seq<T> { if s == [] then [] else s[..|s| - 1] }

  function WithTop<T>(s: seq<T>, x: T): seq<T> { if s == [] then [] else s[..|s| - 1] + [x] }

  function PushBreak(g: Builder, b: nat): Builder {
    g.(breaks := g.breaks + [b], breakDepths := g.breakDepths + [|g.defers|])
  }

  function PopBreak(g: Builder): Builder {
    g.(breaks := DropLast(g.breaks), breakDepths := DropLast(g.breakDepths))
  }

  function PushContinue(g: Builder, b: nat): Builder {
    g.(continues := g.continues + [b], continueDepths := g.continueDepths + [|g.defers|])
  }

  function PopContinue(g: Builder): Builder {
    g.(continues := DropLast(g.continues), continueDepths := DropLast(g.continueDepths))
  }

  function PushScope(g: Builder): Builder {
    g.(defers := g.defers + [[]], cleanups := g.cleanups + [[]])
  }

  function DiscardScope(g: Builder): Builder {
    g.(defers := DropLast(g.defers), cleanups := DropLast(g.cleanups))
  }

  function AddDefer(g: Builder, id: nat): Builder {
    if g.defers == [] then g
    else g.(defers := WithTop(g.defers, g.defers[|g.defers| - 1] + [id]))
  }

  function AddCleanup(g: Builder, id: nat): Builder {
    if g.cleanups == [] then g
    else g.(cleanups := WithTop(g.cleanups, g.cleanups[|g.cleanups| - 1] + [id]))
  }

  /** What is emitted to leave the scopes above a depth, innermost first. */
  function Unwind(defers: seq<seq<nat>>, cleanups: seq<seq<nat>>, depth: nat): seq<Event>
    decreases |defers|
  {
    if |defers| <= depth then []
    else
      var i := |defers| - 1;
      DeferEvents(defers[i]) + (if i < |cleanups| then CleanupEvents(cleanups[i]) else [])
      + Unwind(defers[..i], cleanups, depth)
  }

  function EmitDefersFrom(g: Builder, depth: nat): Builder {
    Emit(g, Unwind(g.defers, g.cleanups, depth))
  }

  function PopScope(g: Builder): Builder {
    if g.defers == [] then g
    else DiscardScope(EmitDefersFrom(g, |g.defers| - 1))
  }

  function Last(s: seq<nat>): nat { if s == [] then 0 else s[|s| - 1] }

  /** then, else and end blocks; the insertion point moves to then. */
  function IfStart(g: Builder, c: nat): Builder {
    var n := |g.graph|;
    Into(Finish(NewBlocks(g, 3), CondBr(c, n, n + 1)), n)
  }

  /** The k blocks of a loop, of which the last is left by break, and the jump into the
      first. What a `for` declares is generated after the targets are pushed. */
  function LoopStart(g: Builder, init: Option<Init>, k: nat, cont: nat): Builder {
    var n := |g.graph|;
    var g1 := PushContinue(PushBreak(NewBlocks(g, k), n + k - (if k > 0 then 1 else 0)), cont);
    Into(Finish(Declare(init, g1), Br(n)), n)
  }

  function Declare(init: Option<Init>, g: Builder): Builder {
    match init
    case None => g
    case Some(InitExpr(id)) => Emit(g, [Do(id)])
    case Some(InitString(id)) => AddCleanup(Emit(g, [Do(id)]), id)
  }

  /** A loop that tests first, up to the start of its body. */
  function LoopBody(g: Builder, init: Option<Init>, k: nat, cont: nat, c: Option<nat>): Builder {
    var n := |g.graph|;
    Into(Finish(LoopStart(g, init, k, cont),
                if c.Some? then CondBr(c.value, n + 1, n + k - (if k > 0 then 1 else 0)) else Br(n + 1)), n + 1)
  }

  /** Close a block's scope. What left it early has already emitted the exit. */
  function EndBlock(g: Builder): Builder {
    if Terminated(g) then DiscardScope(g) else PopScope(g)
  }

  function ElseStart(h: Builder, n: nat): Builder { Into(Join(h, n + 2), n + 1) }

  function EndIf(h: Builder, n: nat): Builder { Into(Join(h, n + 2), n + 2) }

  function EndLoop(g: Builder, end: nat): Builder { Into(PopBreak(PopContinue(g)), end) }

  function EndWhile(h: Builder, n: nat): Builder { EndLoop(Join(h, n), n + 2) }

  /** From the end of a `do` body through the block that tests. */
  function EndDo(h: Builder, c: nat, n: nat): Builder {
    EndLoop(Finish(Into(Join(h, n + 1), n + 1), CondBr(c, n, n + 2)), n + 2)
  }

  /** From the end of a `for` body through the step block back to the head. */
  function EndFor(h: Builder, inc: Option<nat>, n: nat): Builder {
    var g := Into(Join(h, n + 2), n + 2);
    EndLoop(Finish(if inc.Some? then Emit(g, [Do(inc.value)]) else g, Br(n)), n + 3)
  }

  function EndSwitch(h: Builder, n: nat): Builder { Into(PopBreak(h), n) }

  function SwitchStart(g: Builder, c: nat, labels: seq<Option<int>>, count: nat): Builder {
    var n := |g.graph|;
    Finish(PushBreak(NewBlocks(g, 1 + count), n),
           Jump(c, Arms(labels, count, n + 1, 0), DefaultArm(labels, count, n)))
  }

  function Comp(s: Stmt, g: Builder): Builder
    decreases s, 0
  {
    match s
    case Null => g
    case Expr(id) => Emit(g, [Do(id)])
    case Defer(id) => AddDefer(g, id)
    case StringLocal(id) => AddCleanup(Emit(g, [Do(id)]), id)
    case Compound(ss) => EndBlock(CompList(ss, PushScope(g)))
    case If(c, t, e) =>
      var g1 := ElseStart(Comp(t, IfStart(g, c)), |g.graph|);
      EndIf(if e.Some? then Comp(e.value, g1) else g1, |g.graph|)
    case While(c, body) =>
      EndWhile(Comp(body, LoopBody(g, None, 3, |g.graph|, Some(c))), |g.graph|)
    case DoWhile(body, c) =>
      EndDo(Comp(body, LoopStart(g, None, 3, |g.graph| + 1)), c, |g.graph|)
    case For(init, c, inc, body) =>
      EndFor(Comp(body, LoopBody(g, init, 4, |g.graph| + 2, c)), inc, |g.graph|)
    case Switch(c, labels, cases) =>
      EndSwitch(CompCases(cases, 0, |g.graph|, SwitchStart(g, c, labels, |cases|)), |g.graph|)
    case Break =>
      if g.breaks == [] then Finish(g, Unreachable)
      else Finish(EmitDefersFrom(g, Last(g.breakDepths)), Br(Last(g.breaks)))
    case Continue =>
      if g.continues == [] then Finish(g, Unreachable)
      else Finish(EmitDefersFrom(g, Last(g.continueDepths)), Br(Last(g.continues)))
    case Return(v) =>
      Finish(EmitDefersFrom(if v.Some? then Emit(g, [Do(v.value)]) else g, 0), Ret)
  }

  /** A block stops generating once a statement has ended the insertion block. */
  function CompList(ss: seq<Stmt>, g: Builder): Builder
    decreases ss, 0
  {
    if ss == [] || Terminated(g) then g else CompList(ss[1..], Comp(ss[0], g))
  }

  /** Cases from i on; end is the block after the switch and the case blocks follow it. */
  function CompCases(cases: seq<Stmt>, i: nat, end: nat, g: Builder): Builder
    requires i <= |cases|
    decreases cases, |cases| - i
  {
    if i == |cases| then g
    else CompCases(cases, i + 1, end, Join(Comp(cases[i], Into(g, end + 1 + i)), Next(cases, i, end)))
  }

  function Next(cases: seq<Stmt>, i: nat, end: nat): nat {
    if i + 1 < |cases| then end + 2 + i else end
  }

  function Arms(labels: seq<Option<int>>, count: nat, first: nat, i: nat): seq<Arm>
    requires i <= count
    decreases count - i
  {
    if i == count then []
    else
      var rest := Arms(labels, count, first, i + 1);
      if LabelOf(labels, i).Some? then [Arm(LabelOf(labels, i).value, first + i)] + rest else rest
  }

  function DefaultArm(labels: seq<Option<int>>, count: nat, end: nat): nat {
    var i := FindDefault(labels, count, count);
    if i < count then end + 1 + i else end
  }

  /** A function body: it starts in an empty entry block and always ends in a terminator. */
  function CompFunction(body: seq<Stmt>, isVoid: bool): Builder {
    var g := Comp(Compound(body), Gen([OPEN], 0, [], [], [], [], [], []));
    if Terminated(g) then g else Finish(g, if isVoid then Ret else Unreachable)
  }

  // ---- what generation leaves alone ----

  /** Only the insertion block and new blocks change, and nothing emitted is lost. */
  ghost predicate Framed(g: Builder, h: Builder) {
    && Grows(g.graph, h.graph)
    && (forall b {:trigger h.graph[b]} :: 0 <= b < |g.graph| && b != g.cur ==> h.graph[b] == g.graph[b])
    && (h.cur == g.cur || h.cur >= |g.graph|)
  }

  lemma FramedTrans(g: Builder, h: Builder, k: Builder)
    requires Framed(g, h) && Framed(h, k)
    ensures Framed(g, k)
  {
    GrowsTrans(g.graph, h.graph, k.graph);
  }

  lemma FramedFinish(g: Builder, h: Builder, t: Terminator)
    requires Framed(g, h) && !Terminated(h)
    ensures Framed(g, Finish(h, t))
  {
    FramedTrans(g, h, Finish(h, t));
  }

  lemma FramedJoin(g: Builder, h: Builder, b: nat)
    requires Framed(g, h)
    ensures Framed(g, Join(h, b))
  {
    if !Terminated(h) { FramedTrans(g, h, Join(h, b)); }
  }

  lemma FramedEmit(g: Builder, h: Builder, events: seq<Event>)
    requires Framed(g, h) && !Terminated(h)
    ensures Framed(g, Emit(h, events)) && !Terminated(Emit(h, events))
  {
    FramedTrans(g, h, Emit(h, events));
  }

  lemma FramedNew(g: Builder, k: nat)
    ensures Framed(g, NewBlocks(g, k))
    ensures forall b :: |g.graph| <= b < |g.graph| + k ==> NewBlocks(g, k).graph[b] == OPEN
  {
  }

  lemma {:induction false} CompFramed(s: Stmt, g: Builder)
    requires !Terminated(g) && Scoped(s)
    ensures Framed(g, Comp(s, g))
    decreases s, 1
  {
    match s
    case Expr(id) => FramedEmit(g, g, [Do(id)]);
    case StringLocal(id) => FramedEmit(g, g, [Do(id)]);
    case Compound(ss) =>
      CompListFramed(ss, PushScope(g));
      EndBlockFramed(g, CompList(ss, PushScope(g)));
    case If(_, _, _) => IfFramed(s, g);
    case While(_, _) => WhileFramed(s, g);
    case DoWhile(_, _) => DoFramed(s, g);
    case For(_, _, _, _) => ForFramed(s, g);
    case Switch(c, labels, cases) =>
      SwitchStartFramed(g, c, labels, |cases|);
      CompCasesFramed(cases, 0, |g.graph|, SwitchStart(g, c, labels, |cases|), g);
    case Break => LeaveFramed(g, Unwind(g.defers, g.cleanups, Last(g.breakDepths)), Br(Last(g.breaks)));
      FramedFinish(g, g, Unreachable);
    case Continue => LeaveFramed(g, Unwind(g.defers, g.cleanups, Last(g.continueDepths)), Br(Last(g.continues)));
      FramedFinish(g, g, Unreachable);
    case Return(v) =>
      var h := if v.Some? then Emit(g, [Do(v.value)]) else g;
      if v.Some? { FramedEmit(g, g, [Do(v.value)]); }
      LeaveFramed(h, Unwind(h.defers, h.cleanups, 0), Ret);
      FramedTrans(g, h, Comp(s, g));
    case _ =>
  }

  lemma {:induction false} IfFramed(s: Stmt, g: Builder)
    requires s.If? && !Terminated(g) && Scoped(s)
    ensures Framed(g, Comp(s, g))
    decreases s, 0
  {
    var n := |g.graph|;
    var g1 := IfStart(g, s.cond);
    IfStartFramed(g, s.cond);
    CompFramed(s.thn, g1);
    ElseStartFramed(g, g1, Comp(s.thn, g1), n);
    var k := ElseStart(Comp(s.thn, g1), n);
    if s.els.Some? {
      CompFramed(s.els.value, k);
      FramedTrans(g, k, Comp(s.els.value, k));
      EndIfFramed(g, Comp(s.els.value, k), n);
    } else {
      EndIfFramed(g, k, n);
    }
  }

  lemma {:induction false} WhileFramed(s: Stmt, g: Builder)
    requires s.While? && !Terminated(g) && Scoped(s)
    ensures Framed(g, Comp(s, g))
    decreases s, 0
  {
    var n := |g.graph|;
    var g1 := LoopBody(g, None, 3, n, Some(s.cond));
    LoopBodyFramed(g, None, 3, n, Some(s.cond));
    CompFramed(s.body, g1);
    EndWhileFramed(g, g1, Comp(s.body, g1), n);
  }

  lemma {:induction false} DoFramed(s: Stmt, g: Builder)
    requires s.DoWhile? && !Terminated(g) && Scoped(s)
    ensures Framed(g, Comp(s, g))
    decreases s, 0
  {
    hide *;
    DoIs(s, g);
    DoStartFramed(g);
    var n := |g.graph|;
    var g1 := LoopStart(g, None, 3, n + 1);
    CompFramed(s.body, g1);
    EndDoFramed(g, g1, Comp(s.body, g1), s.cond, n);
  }

  lemma DoIs(s: Stmt, g: Builder)
    requires s.DoWhile? && Scoped(s)
    ensures Comp(s, g) == EndDo(Comp(s.body, LoopStart(g, None, 3, |g.graph| + 1)), s.cond, |g.graph|)
    ensures Scoped(s.body) && !Registers(s.body)
  {
    hide EndDo, LoopStart;
  }

  lemma ForIs(s: Stmt, g: Builder)
    requires s.For? && Scoped(s)
    ensures Comp(s, g) == EndFor(Comp(s.body, LoopBody(g, s.init, 4, |g.graph| + 2, s.test)), s.inc, |g.graph|)
    ensures Scoped(s.body) && !Registers(s.body)
  {
    hide EndFor, LoopBody;
  }

  lemma DoStartFramed(g: Builder)
    requires !Terminated(g)
    ensures var n := |g.graph|; var h := LoopStart(g, None, 3, n + 1);
      && Framed(g, h) && !Terminated(h) && h.cur == n && |h.graph| == n + 3 && h.graph[n + 1] == OPEN
  {
    LoopStartFramed(g, None, 3, |g.graph| + 1);
  }

  lemma {:induction false} ForFramed(s: Stmt, g: Builder)
    requires s.For? && !Terminated(g) && Scoped(s)
    ensures Framed(g, Comp(s, g))
    decreases s, 0
  {
    var n := |g.graph|;
    var g1 := LoopBody(g, s.init, 4, n + 2, s.test);
    LoopBodyFramed(g, s.init, 4, n + 2, s.test);
    CompFramed(s.body, g1);
    EndForFramed(g, g1, Comp(s.body, g1), s.inc, n);
  }

  lemma LeaveFramed(g: Builder, events: seq<Event>, t: Terminator)
    requires !Terminated(g)
    ensures Framed(g, Finish(Emit(g, events), t))
  {
    FramedEmit(g, g, events);
    FramedFinish(g, Emit(g, events), t);
  }

  /** After one branch or body: the insertion point moves on to another block made with it. */
  lemma BodyFramed(g: Builder, g1: Builder, h: Builder, next: nat, b: nat)
    requires Framed(g, g1) && Framed(g1, h)
    requires |g.graph| <= b < |g1.graph| && b != g1.cur && g1.graph[b] == OPEN
    ensures Framed(g, Join(h, next))
    ensures var k := Into(Join(h, next), b); Framed(g, k) && k.cur == b && k.graph[b] == OPEN
  {
    FramedTrans(g, g1, h);
    FramedJoin(g, h, next);
    FramedJoin(g1, h, next);
    assert Join(h, next).graph[b] == g1.graph[b];
  }

  lemma IfStartFramed(g: Builder, c: nat)
    requires !Terminated(g)
    ensures Framed(g, IfStart(g, c))
    ensures IfStart(g, c).cur == |g.graph| && |IfStart(g, c).graph| == |g.graph| + 3
    ensures forall b :: |g.graph| <= b < |g.graph| + 3 ==> IfStart(g, c).graph[b] == OPEN
  {
    FramedNew(g, 3);
    FramedFinish(g, NewBlocks(g, 3), CondBr(c, |g.graph|, |g.graph| + 1));
  }

  lemma LoopStartFramed(g: Builder, init: Option<Init>, k: nat, cont: nat)
    requires !Terminated(g) && k > 0
    ensures var h := LoopStart(g, init, k, cont);
            && Framed(g, h) && h.cur == |g.graph| && |h.graph| == |g.graph| + k
            && forall b :: |g.graph| <= b < |g.graph| + k ==> h.graph[b] == OPEN
  {
    var n := |g.graph|;
    var g1 := PushContinue(PushBreak(NewBlocks(g, k), n + k - 1), cont);
    FramedNew(g, k);
    var h := Declare(init, g1);
    assert Framed(g, h) && !Terminated(h) by {
      if init.Some? { FramedEmit(g, g1, [Do(init.value.id)]); }
    }
    FramedFinish(g, h, Br(n));
  }

  lemma LoopBodyFramed(g: Builder, init: Option<Init>, k: nat, cont: nat, c: Option<nat>)
    requires !Terminated(g) && k > 2
    ensures var h := LoopBody(g, init, k, cont, c);
            && Framed(g, h) && h.cur == |g.graph| + 1 && |h.graph| == |g.graph| + k
            && forall b :: |g.graph| < b < |g.graph| + k ==> h.graph[b] == OPEN
  {
    var n := |g.graph|;
    LoopStartFramed(g, init, k, cont);
    FramedFinish(g, LoopStart(g, init, k, cont), if c.Some? then CondBr(c.value, n + 1, n + k - 1) else Br(n + 1));
  }

  lemma ElseStartFramed(g: Builder, g1: Builder, h: Builder, n: nat)
    requires Framed(g, g1) && Framed(g1, h) && |g.graph| <= n && n + 2 < |g1.graph|
    requires g1.cur == n && g1.graph[n + 1] == OPEN
    ensures var k := ElseStart(h, n); Framed(g, k) && k.cur == n + 1 && !Terminated(k) && n + 2 < |k.graph|
  {
    BodyFramed(g, g1, h, n + 2, n + 1);
  }

  lemma EndIfFramed(g: Builder, h: Builder, n: nat)
    requires Framed(g, h) && |g.graph| <= n && n + 2 < |h.graph|
    ensures Framed(g, EndIf(h, n))
  {
    FramedJoin(g, h, n + 2);
  }

  lemma EndLoopFramed(g: Builder, h: Builder, end: nat)
    requires Framed(g, h) && |g.graph| <= end < |h.graph|
    ensures Framed(g, EndLoop(h, end))
  {
  }

  lemma EndWhileFramed(g: Builder, g1: Builder, h: Builder, n: nat)
    requires Framed(g, g1) && Framed(g1, h) && |g.graph| <= n && n + 2 < |g1.graph|
    ensures Framed(g, EndWhile(h, n))
  {
    FramedTrans(g, g1, h);
    FramedJoin(g, h, n);
    EndLoopFramed(g, Join(h, n), n + 2);
  }

  lemma EndDoFramed(g: Builder, g1: Builder, h: Builder, c: nat, n: nat)
    requires Framed(g, g1) && Framed(g1, h) && |g.graph| <= n && n + 2 < |g1.graph|
    requires g1.cur != n + 1 && g1.graph[n + 1] == OPEN
    ensures Framed(g, EndDo(h, c, n))
  {
    BodyFramed(g, g1, h, n + 1, n + 1);
    FramedFinish(g, Into(Join(h, n + 1), n + 1), CondBr(c, n, n + 2));
    EndLoopFramed(g, Finish(Into(Join(h, n + 1), n + 1), CondBr(c, n, n + 2)), n + 2);
  }

  lemma EndForFramed(g: Builder, g1: Builder, h: Builder, inc: Option<nat>, n: nat)
    requires Framed(g, g1) && Framed(g1, h) && |g.graph| <= n && n + 3 < |g1.graph|
    requires g1.cur != n + 2 && g1.graph[n + 2] == OPEN
    ensures Framed(g, EndFor(h, inc, n))
  {
    BodyFramed(g, g1, h, n + 2, n + 2);
    StepFramed(g, Into(Join(h, n + 2), n + 2), inc, n);
  }

  lemma StepFramed(g: Builder, k: Builder, inc: Option<nat>, n: nat)
    requires Framed(g, k) && !Terminated(k) && |g.graph| <= n && n + 3 < |k.graph|
    ensures Framed(g, EndLoop(Finish(if inc.Some? then Emit(k, [Do(inc.value)]) else k, Br(n)), n + 3))
  {
    var e := if inc.Some? then Emit(k, [Do(inc.value)]) else k;
    if inc.Some? { FramedEmit(g, k, [Do(inc.value)]); }
    FramedFinish(g, e, Br(n));
    EndLoopFramed(g, Finish(e, Br(n)), n + 3);
  }

  lemma SwitchStartFramed(g: Builder, c: nat, labels: seq<Option<int>>, count: nat)
    requires !Terminated(g)
    ensures var h := SwitchStart(g, c, labels, count);
            && Framed(g, h) && h.cur == g.cur && |h.graph| == |g.graph| + 1 + count
            && forall b :: |g.graph| <= b <= |g.graph| + count ==> h.graph[b] == OPEN
  {
    var n := |g.graph|;
    FramedNew(g, 1 + count);
    FramedFinish(g, PushBreak(NewBlocks(g, 1 + count), n),
      Jump(c, Arms(labels, count, n + 1, 0), DefaultArm(labels, count, n)));
  }

  lemma EndBlockFramed(g: Builder, h: Builder)
    requires Framed(g, h)
    ensures Framed(g, EndBlock(h))
  {
    if !Terminated(h) && h.defers != [] {
      FramedEmit(g, h, Unwind(h.defers, h.cleanups, |h.defers| - 1));
    }
  }

  lemma {:induction false} CompListFramed(ss: seq<Stmt>, g: Builder)
    requires ScopedList(ss)
    ensures Framed(g, CompList(ss, g))
    decreases ss, 0
  {
    if ss != [] && !Terminated(g) {
      CompFramed(ss[0], g);
      CompListFramed(ss[1..], Comp(ss[0], g));
      FramedTrans(g, Comp(ss[0], g), CompList(ss, g));
    }
  }

  /** base is the state before the switch: every case block is newer. */
  lemma {:induction false} CompCasesFramed(cases: seq<Stmt>, i: nat, end: nat, g: Builder, base: Builder)
    requires i <= |cases| && forall j :: 0 <= j < |cases| ==> Branch(cases[j])
    requires Framed(base, g) && |base.graph| <= end && end + |cases| < |g.graph|
    requires g.cur != end && (g.cur <= end + i || g.cur > end + |cases|)
    requires forall b :: end + i < b <= end + |cases| ==> g.graph[b] == OPEN
    ensures Framed(base, CompCases(cases, i, end, g))
    ensures Grows(g.graph, CompCases(cases, i, end, g).graph)
    ensures CompCases(cases, i, end, g).graph[end] == g.graph[end]
    decreases cases, |cases| - i
  {
    if i < |cases| {
      var h := Into(g, end + 1 + i);
      CompFramed(cases[i], h);
      hide Comp, Terminated;
      var k := Comp(cases[i], h);
      FramedTrans(base, h, k);
      FramedJoin(base, k, Next(cases, i, end));
      FramedJoin(h, k, Next(cases, i, end));
      var g' := Join(k, Next(cases, i, end));
      CompCasesFramed(cases, i + 1, end, g', base);
      GrowsTrans(g.graph, g'.graph, CompCases(cases, i, end, g).graph);
    }
  }
}
