/** The generator as the source writes it: one context object whose stacks and insertion
    block every statement moves. Each method computes the function of the same step. */
module DeferGenerator {
  import opened Options
  import opened Cfg
  import opened DeferSource
  import C = DeferCodegen

  class CodegenContext {
    var graph: Graph
    var insertBlock: nat
    var deferScopes: seq<seq<nat>>
    var cleanupScopes: seq<seq<nat>>
    var breakBlocks: seq<nat>
    var breakDeferBoundaries: seq<nat>
    var continueBlocks: seq<nat>
    var continueDeferBoundaries: seq<nat>

    ghost predicate Valid() reads this { insertBlock < |graph| }

    ghost function State(): C.Builder
      requires Valid()
      reads this
    {
      C.Gen(graph, insertBlock, deferScopes, cleanupScopes,
            breakBlocks, breakDeferBoundaries, continueBlocks, continueDeferBoundaries)
    }

    /** A function's entry block, and nothing pushed. */
    constructor ()
      ensures Valid() && State() == C.Gen([C.OPEN], 0, [], [], [], [], [], [])
    {
      graph, insertBlock := [Block([], None)], 0;
      deferScopes, cleanupScopes := [], [];
      breakBlocks, breakDeferBoundaries := [], [];
      continueBlocks, continueDeferBoundaries := [], [];
    }

    method CreateBlocks(k: nat) returns (first: nat)
      requires Valid()
      modifies this
      ensures Valid() && first == |old(graph)| && State() == C.NewBlocks(old(State()), k)
    {
      first := |graph|;
      var i := 0;
      while i < k
        invariant i <= k && graph == old(graph) + C.OpenBlocks(i)
        invariant Valid() && State() == old(State()).(graph := graph)
      {
        assert C.OpenBlocks(i + 1) == C.OpenBlocks(i) + [Block([], None)];
        graph := graph + [Block([], None)];
        i := i + 1;
      }
    }

    method SetInsertPoint(b: nat)
      requires Valid()
      modifies this
      ensures Valid() && State() == C.Into(old(State()), b)
    {
      if b < |graph| { insertBlock := b; }
    }

    method Append(e: Event)
      requires Valid()
      modifies this
      ensures Valid() && State() == C.Emit(old(State()), [e])
    {
      graph := graph[insertBlock := graph[insertBlock].(instrs := graph[insertBlock].instrs + [e])];
    }

    method Terminate(t: Terminator)
      requires Valid()
      modifies this
      ensures Valid() && State() == C.Finish(old(State()), t)
    {
      graph := graph[insertBlock := graph[insertBlock].(term := Some(t))];
    }

    method BranchUnlessTerminated(b: nat)
      requires Valid()
      modifies this
      ensures Valid() && State() == C.Join(old(State()), b)
    {
      if graph[insertBlock].term.None? { Terminate(Br(b)); }
    }

    method PushBreakBlock(b: nat)
      requires Valid()
      modifies this
      ensures Valid() && State() == C.PushBreak(old(State()), b)
    {
      breakBlocks := breakBlocks + [b];
      breakDeferBoundaries := breakDeferBoundaries + [|deferScopes|];
    }

    method PopBreakBlock()
      requires Valid()
      modifies this
      ensures Valid() && State() == C.PopBreak(old(State()))
    {
      if breakBlocks != [] { breakBlocks := breakBlocks[..|breakBlocks| - 1]; }
      if breakDeferBoundaries != [] { breakDeferBoundaries := breakDeferBoundaries[..|breakDeferBoundaries| - 1]; }
    }

    method PushContinueBlock(b: nat)
      requires Valid()
      modifies this
      ensures Valid() && State() == C.PushContinue(old(State()), b)
    {
      continueBlocks := continueBlocks + [b];
      continueDeferBoundaries := continueDeferBoundaries + [|deferScopes|];
    }

    method PopContinueBlock()
      requires Valid()
      modifies this
      ensures Valid() && State() == C.PopContinue(old(State()))
    {
      if continueBlocks != [] { continueBlocks := continueBlocks[..|continueBlocks| - 1]; }
      if continueDeferBoundaries != [] {
        continueDeferBoundaries := continueDeferBoundaries[..|continueDeferBoundaries| - 1];
      }
    }

    method PushDeferScope()
      requires Valid()
      modifies this
      ensures Valid() && State() == C.PushScope(old(State()))
    {
      deferScopes, cleanupScopes := deferScopes + [[]], cleanupScopes + [[]];
    }

    method AddDefer(id: nat)
      requires Valid()
      modifies this
      ensures Valid() && State() == C.AddDefer(old(State()), id)
    {
      if deferScopes != [] {
        var last := |deferScopes| - 1;
        deferScopes := deferScopes[last := deferScopes[last] + [id]];
        assert deferScopes == C.WithTop(old(deferScopes), deferScopes[last]);
      }
    }

    method AddStringCleanup(id: nat)
      requires Valid()
      modifies this
      ensures Valid() && State() == C.AddCleanup(old(State()), id)
    {
      if cleanupScopes != [] {
        var last := |cleanupScopes| - 1;
        cleanupScopes := cleanupScopes[last := cleanupScopes[last] + [id]];
        assert cleanupScopes == C.WithTop(old(cleanupScopes), cleanupScopes[last]);
      }
    }

    /** One scope: its defers from the last to the first, then its string locals. */
    method EmitScope(i: nat)
      requires Valid() && i < |deferScopes|
      modifies this
      ensures Valid()
      ensures State() == C.Emit(old(State()),
                DeferEvents(old(deferScopes[i]))
                + (if i < |old(cleanupScopes)| then CleanupEvents(old(cleanupScopes[i])) else []))
    {
      var ids := deferScopes[i];
      EmitDeferred(ids);
      assert deferScopes == old(deferScopes) && cleanupScopes == old(cleanupScopes);
      EmitNothing(State());
      if i < |cleanupScopes| {
        var addrs := cleanupScopes[i];
        EmitReleases(addrs);
        EmitTwice(old(State()), DeferEvents(ids), CleanupEvents(addrs));
      } else {
        assert DeferEvents(ids) + [] == DeferEvents(ids);
      }
    }

    method EmitDeferred(ids: seq<nat>)
      requires Valid()
      modifies this
      ensures Valid() && State() == C.Emit(old(State()), DeferEvents(ids))
    {
      ghost var g := State();
      ghost var done: seq<Event> := [];
      EmitNothing(g);
      hide C.Emit;
      assert ids[..|ids|] == ids;
      var k: nat := |ids|;
      while k > 0
        invariant k <= |ids| && Valid() && State() == C.Emit(g, done)
        invariant done + DeferEvents(ids[..k]) == DeferEvents(ids)
      {
        k := k - 1;
        ghost var e := Do(ids[k]);
        assert DeferEvents(ids[..k + 1]) == [e] + DeferEvents(ids[..k]) by { assert ids[..k + 1][..k] == ids[..k]; }
        assert done + ([e] + DeferEvents(ids[..k])) == done + [e] + DeferEvents(ids[..k]);
        Append(Do(ids[k]));
        EmitTwice(g, done, [e]);
        done := done + [e];
      }
      assert done + [] == done;
    }

    method EmitReleases(ids: seq<nat>)
      requires Valid()
      modifies this
      ensures Valid() && State() == C.Emit(old(State()), CleanupEvents(ids))
    {
      ghost var g := State();
      ghost var done: seq<Event> := [];
      EmitNothing(g);
      hide C.Emit;
      assert ids[..|ids|] == ids;
      var k: nat := |ids|;
      while k > 0
        invariant k <= |ids| && Valid() && State() == C.Emit(g, done)
        invariant done + CleanupEvents(ids[..k]) == CleanupEvents(ids)
      {
        k := k - 1;
        ghost var e := Release(ids[k]);
        assert CleanupEvents(ids[..k + 1]) == [e] + CleanupEvents(ids[..k]) by { assert ids[..k + 1][..k] == ids[..k]; }
        assert done + ([e] + CleanupEvents(ids[..k])) == done + [e] + CleanupEvents(ids[..k]);
        Append(Release(ids[k]));
        EmitTwice(g, done, [e]);
        done := done + [e];
      }
      assert done + [] == done;
    }

    method EmitDefersFrom(depth: nat)
      requires Valid()
      modifies this
      ensures Valid() && State() == C.EmitDefersFrom(old(State()), depth)
    {
      ghost var g := State();
      EmitNothing(g);
      hide C.Emit;
      if depth > |deferScopes| { return; }
      ghost var done: seq<Event> := [];
      var i := |deferScopes|;
      while i > depth
        invariant depth <= i <= |g.defers| && Valid() && State() == C.Emit(g, done)
        invariant done + C.Unwind(g.defers[..i], g.cleanups, depth)
          == C.Unwind(g.defers[..|g.defers|], g.cleanups, depth)
      {
        assert g.defers[..i][..i - 1] == g.defers[..i - 1];
        EmitScope(i - 1);
        ghost var more := DeferEvents(g.defers[i - 1])
          + (if i - 1 < |g.cleanups| then CleanupEvents(g.cleanups[i - 1]) else []);
        EmitTwice(g, done, more);
        done := done + more;
        i := i - 1;
      }
      assert g.defers[..|g.defers|] == g.defers && C.Unwind(g.defers[..i], g.cleanups, depth) == [];
      assert done + [] == done;
    }

    method PopDeferScope()
      requires Valid()
      modifies this
      ensures Valid() && State() == C.PopScope(old(State()))
    {
      if deferScopes == [] { return; }
      EmitDefersFrom(|deferScopes| - 1);
      DiscardDeferScope();
    }

    method DiscardDeferScope()
      requires Valid()
      modifies this
      ensures Valid() && State() == C.DiscardScope(old(State()))
    {
      if deferScopes != [] { deferScopes := deferScopes[..|deferScopes| - 1]; }
      if cleanupScopes != [] { cleanupScopes := cleanupScopes[..|cleanupScopes| - 1]; }
    }

    // ---- statements ----

    method Codegen(s: Stmt)
      requires Valid()
      modifies this
      ensures Valid() && State() == C.Comp(s, old(State()))
      decreases s, 1
    {
      match s
      case Null =>
      case Expr(id) => Append(Do(id));
      case Defer(id) => AddDefer(id);
      case StringLocal(id) =>
        Append(Do(id));
        AddStringCleanup(id);
      case Compound(_) => CodegenCompound(s);
      case If(_, _, _) => CodegenIf(s);
      case While(_, _) => CodegenWhile(s);
      case DoWhile(_, _) => CodegenDoWhile(s);
      case For(_, _, _, _) => CodegenFor(s);
      case Switch(_, _, _) => CodegenSwitch(s);
      case Break =>
        if breakBlocks == [] {
          Terminate(Unreachable);
        } else {
          var target := breakBlocks[|breakBlocks| - 1];
          EmitDefersFrom(if breakDeferBoundaries == [] then 0 else breakDeferBoundaries[|breakDeferBoundaries| - 1]);
          Terminate(Br(target));
        }
      case Continue =>
        if continueBlocks == [] {
          Terminate(Unreachable);
        } else {
          var target := continueBlocks[|continueBlocks| - 1];
          EmitDefersFrom(if continueDeferBoundaries == [] then 0
                         else continueDeferBoundaries[|continueDeferBoundaries| - 1]);
          Terminate(Br(target));
        }
      case Return(v) =>
        if v.Some? { Append(Do(v.value)); }
        EmitDefersFrom(0);
        Terminate(Ret);
    }

    method CodegenCompound(s: Stmt)
      requires Valid() && s.Compound?
      modifies this
      ensures Valid() && State() == C.Comp(s, old(State()))
      decreases s, 0
    {
      PushDeferScope();
      ghost var g := State();
      var ss := s.stmts;
      var i := 0;
      assert ss[0..] == ss;
      while i < |ss| && graph[insertBlock].term.None?
        invariant i <= |ss| && Valid()
        invariant C.CompList(ss[i..], State()) == C.CompList(ss, g)
      {
        assert ss[i] == ss[i..][0] && ss[i..][1..] == ss[i + 1..];
        Codegen(ss[i]);
        i := i + 1;
      }
      if graph[insertBlock].term.Some? { DiscardDeferScope(); } else { PopDeferScope(); }
    }

    method CodegenIf(s: Stmt)
      requires Valid() && s.If?
      modifies this
      ensures Valid() && State() == C.Comp(s, old(State()))
      decreases s, 0
    {
      hide C.Into, C.Finish, C.Join, C.Emit, C.NewBlocks, C.PushBreak, C.PushContinue, C.PopBreak, C.PopContinue,
          C.AddCleanup;
      var thenBB := CreateBlocks(3);
      var elseBB, mergeBB := thenBB + 1, thenBB + 2;
      Terminate(CondBr(s.cond, thenBB, elseBB));
      SetInsertPoint(thenBB);
      Codegen(s.thn);
      BranchUnlessTerminated(mergeBB);
      SetInsertPoint(elseBB);
      if s.els.Some? { Codegen(s.els.value); }
      BranchUnlessTerminated(mergeBB);
      SetInsertPoint(mergeBB);
    }

    /** What the three loops begin with: k blocks, the targets, and the jump to the first. */
    method EnterLoop(init: Option<Init>, k: nat, cont: nat) returns (first: nat)
      requires Valid() && k > 0
      modifies this
      ensures Valid() && first == |old(graph)| && State() == C.LoopStart(old(State()), init, k, cont)
    {
      hide C.Into, C.Finish, C.Join, C.Emit, C.NewBlocks, C.PushBreak, C.PushContinue, C.PopBreak, C.PopContinue,
          C.AddCleanup;
      first := CreateBlocks(k);
      PushBreakBlock(first + k - 1);
      PushContinueBlock(cont);
      if init.Some? {
        Append(Do(init.value.id));
        if init.value.InitString? { AddStringCleanup(init.value.id); }
      }
      Terminate(Br(first));
      SetInsertPoint(first);
    }

    method CodegenWhile(s: Stmt)
      requires Valid() && s.While?
      modifies this
      ensures Valid() && State() == C.Comp(s, old(State()))
      decreases s, 0
    {
      hide C.Into, C.Finish, C.Join, C.Emit, C.NewBlocks, C.PushBreak, C.PushContinue, C.PopBreak, C.PopContinue,
          C.AddCleanup, C.LoopStart;
      var condBB := EnterLoop(None, 3, |graph|);
      var bodyBB, endBB := condBB + 1, condBB + 2;
      Terminate(CondBr(s.cond, bodyBB, endBB));
      SetInsertPoint(bodyBB);
      Codegen(s.body);
      BranchUnlessTerminated(condBB);
      PopContinueBlock();
      PopBreakBlock();
      SetInsertPoint(endBB);
    }

    method CodegenDoWhile(s: Stmt)
      requires Valid() && s.DoWhile?
      modifies this
      ensures Valid() && State() == C.Comp(s, old(State()))
      decreases s, 0
    {
      hide C.Into, C.Finish, C.Join, C.Emit, C.NewBlocks, C.PushBreak, C.PushContinue, C.PopBreak, C.PopContinue,
          C.AddCleanup, C.LoopStart;
      var bodyBB := EnterLoop(None, 3, |graph| + 1);
      var condBB, endBB := bodyBB + 1, bodyBB + 2;
      Codegen(s.body);
      BranchUnlessTerminated(condBB);
      SetInsertPoint(condBB);
      Terminate(CondBr(s.cond, bodyBB, endBB));
      PopContinueBlock();
      PopBreakBlock();
      SetInsertPoint(endBB);
    }

    method Advance(inc: Option<nat>, head: nat)
      requires Valid()
      modifies this
      ensures Valid()
      ensures State() == C.Finish(if inc.Some? then C.Emit(old(State()), [Do(inc.value)]) else old(State()), Br(head))
    {
      hide C.Finish, C.Emit;
      if inc.Some? { Append(Do(inc.value)); }
      Terminate(Br(head));
    }

    method CodegenFor(s: Stmt)
      requires Valid() && s.For?
      modifies this
      ensures Valid() && State() == C.Comp(s, old(State()))
      decreases s, 0
    {
      hide C.LoopBody, C.EndFor;
      var condBB := EnterFor(s.init, s.test);
      Codegen(s.body);
      LeaveFor(s.inc, condBB);
    }

    /** The condition, body, step and end blocks, and the way into the body. */
    method EnterFor(init: Option<Init>, test: Option<nat>) returns (condBB: nat)
      requires Valid()
      modifies this
      ensures Valid() && condBB == |old(graph)|
      ensures State() == C.LoopBody(old(State()), init, 4, |old(graph)| + 2, test)
    {
      hide C.Into, C.Finish, C.LoopStart;
      condBB := EnterLoop(init, 4, |graph| + 2);
      Terminate(if test.Some? then CondBr(test.value, condBB + 1, condBB + 3) else Br(condBB + 1));
      SetInsertPoint(condBB + 1);
    }

    method LeaveFor(inc: Option<nat>, condBB: nat)
      requires Valid()
      modifies this
      ensures Valid() && State() == C.EndFor(old(State()), inc, condBB)
    {
      hide C.Into, C.Finish, C.Join, C.Emit, C.PopBreak, C.PopContinue;
      BranchUnlessTerminated(condBB + 2);
      SetInsertPoint(condBB + 2);
      Advance(inc, condBB);
      PopContinueBlock();
      PopBreakBlock();
      SetInsertPoint(condBB + 3);
    }

    method CodegenSwitch(s: Stmt)
      requires Valid() && s.Switch?
      modifies this
      ensures Valid() && State() == C.Comp(s, old(State()))
      decreases s, 0
    {
      hide C.Into, C.Finish, C.Join, C.Emit, C.NewBlocks, C.PushBreak, C.PushContinue, C.PopBreak, C.PopContinue,
          C.AddCleanup;
      ghost var g := State();
      var cases := s.cases;
      var endBB := CreateBlocks(1 + |cases|);
      PushBreakBlock(endBB);
      var arms, defaultBB := SwitchArms(s.labels, |cases|, endBB);
      Terminate(Jump(s.cond, arms, defaultBB));
      ghost var g1 := State();
      var i := 0;
      while i < |cases|
        invariant i <= |cases| && Valid()
        invariant C.CompCases(cases, i, endBB, State()) == C.CompCases(cases, 0, endBB, g1)
      {
        SetInsertPoint(endBB + 1 + i);
        Codegen(cases[i]);
        BranchUnlessTerminated(if i + 1 < |cases| then endBB + 2 + i else endBB);
        i := i + 1;
      }
      PopBreakBlock();
      SetInsertPoint(endBB);
    }

    /** Labelled cases become arms; the last one without a label is where the rest go. */
    method SwitchArms(labels: seq<Option<int>>, count: nat, endBB: nat) returns (arms: seq<Arm>, defaultBB: nat)
      ensures arms == C.Arms(labels, count, endBB + 1, 0) && defaultBB == C.DefaultArm(labels, count, endBB)
    {
      arms, defaultBB := [], endBB;
      var i := 0;
      while i < count
        invariant i <= count
        invariant arms + C.Arms(labels, count, endBB + 1, i) == C.Arms(labels, count, endBB + 1, 0)
        invariant var d := FindDefault(labels, count, i); defaultBB == if d < count then endBB + 1 + d else endBB
      {
        if i < |labels| && labels[i].Some? {
          arms := arms + [Arm(labels[i].value, endBB + 1 + i)];
        } else {
          defaultBB := endBB + 1 + i;
        }
        i := i + 1;
      }
      assert arms + [] == arms;
    }

    /** A function body, closed with the terminator it may still lack. */
    method CodegenFunction(body: seq<Stmt>, isVoid: bool)
      requires Valid() && State() == C.Gen([C.OPEN], 0, [], [], [], [], [], [])
      modifies this
      ensures Valid() && State() == C.CompFunction(body, isVoid)
    {
      Codegen(Compound(body));
      if graph[insertBlock].term.None? { Terminate(if isVoid then Ret else Unreachable); }
    }
  }

  lemma EmitNothing(g: C.Builder)
    ensures C.Emit(g, []) == g
  {
    assert g.graph[g.cur].instrs + [] == g.graph[g.cur].instrs;
  }

  lemma EmitTwice(g: C.Builder, a: seq<Event>, b: seq<Event>)
    ensures C.Emit(C.Emit(g, a), b) == C.Emit(g, a + b)
  {
    assert g.graph[g.cur].instrs + (a + b) == g.graph[g.cur].instrs + a + b;
  }
}
