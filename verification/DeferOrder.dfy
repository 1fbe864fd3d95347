/** The order in which deferred calls and string releases run, said without the functions
    that the source semantics and the generator share. */
module DeferOrder {
  import opened Options
  import opened Cfg
  import opened DeferSource
  import DeferCodegen
  import DeferTheorem

  /** The last one first. */
  function Backwards(events: seq<Event>): (r: seq<Event>)
    ensures |r| == |events| && forall i :: 0 <= i < |r| ==> r[i] == events[|r| - 1 - i]
  {
    seq(|events|, i requires 0 <= i < |events| => events[|events| - 1 - i])
  }

  function Calls(ids: seq<nat>): (r: seq<Event>)
    ensures |r| == |ids| && forall i :: 0 <= i < |r| ==> r[i] == Do(ids[i])
  {
    seq(|ids|, i requires 0 <= i < |ids| => Do(ids[i]))
  }

  function Releases(ids: seq<nat>): (r: seq<Event>)
    ensures |r| == |ids| && forall i :: 0 <= i < |r| ==> r[i] == Release(ids[i])
  {
    seq(|ids|, i requires 0 <= i < |ids| => Release(ids[i]))
  }

  /** Deferred calls run last registered first. */
  lemma {:induction false} DefersBackwards(ids: seq<nat>)
    ensures DeferEvents(ids) == Backwards(Calls(ids))
    ensures |DeferEvents(ids)| == |ids| && forall i :: 0 <= i < |ids| ==> DeferEvents(ids)[i] == Do(ids[|ids| - 1 - i])
    decreases |ids|
  {
    if ids != [] {
      var n := |ids| - 1;
      DefersBackwards(ids[..n]);
      assert Backwards(Calls(ids)) == [Do(ids[n])] + Backwards(Calls(ids[..n]));
    }
  }

  /** Strings are released last declared first. */
  lemma {:induction false} CleanupsBackwards(ids: seq<nat>)
    ensures CleanupEvents(ids) == Backwards(Releases(ids))
    ensures |CleanupEvents(ids)| == |ids|
    ensures forall i :: 0 <= i < |ids| ==> CleanupEvents(ids)[i] == Release(ids[|ids| - 1 - i])
    decreases |ids|
  {
    if ids != [] {
      var n := |ids| - 1;
      CleanupsBackwards(ids[..n]);
      assert Backwards(Releases(ids)) == [Release(ids[n])] + Backwards(Releases(ids[..n]));
    }
  }

  // ---- straight-line statements ----

  predicate Straight(ss: seq<Stmt>) {
    forall i :: 0 <= i < |ss| ==> ss[i].Null? || ss[i].Expr? || ss[i].Defer? || ss[i].StringLocal?
  }

  /** What happens on the way through. */
  function Passed(ss: seq<Stmt>): seq<Event> {
    if ss == [] then []
    else (if ss[0].Expr? || ss[0].StringLocal? then [Do(ss[0].id)] else []) + Passed(ss[1..])
  }

  function Deferred(ss: seq<Stmt>): seq<nat> {
    if ss == [] then [] else (if ss[0].Defer? then [ss[0].id] else []) + Deferred(ss[1..])
  }

  function Strings(ss: seq<Stmt>): seq<nat> {
    if ss == [] then [] else (if ss[0].StringLocal? then [ss[0].id] else []) + Strings(ss[1..])
  }

  /** What leaving the block of these statements runs. */
  function Exit(ss: seq<Stmt>): seq<Event> {
    Backwards(Calls(Deferred(ss))) + Backwards(Releases(Strings(ss)))
  }

  function After(ss: seq<Stmt>, sc: Scope): Scope {
    Scope(sc.defers + Deferred(ss), sc.cleanups + Strings(ss))
  }

  lemma OneRuns(o: Oracle, s: Stmt, sc: Scope, tr: Trace, at: Targets, n: nat)
    requires Straight([s])
    ensures Exec(o, s, sc, tr, at, n) == Done(Fell, tr + Passed([s]), After([s], sc))
  {
    assert [s][0] == s && [s][1..] == [];
    assert Passed([s]) == (if s.Expr? || s.StringLocal? then [Do(s.id)] else []) + Passed([]);
    assert Deferred([s]) == (if s.Defer? then [s.id] else []) + Deferred([]);
    assert Strings([s]) == (if s.StringLocal? then [s.id] else []) + Strings([]);
    assert sc.defers + [] == sc.defers && sc.cleanups + [] == sc.cleanups && tr + [] == tr;
  }

  lemma Split(s: Stmt, ss: seq<Stmt>, sc: Scope, tr: Trace)
    ensures tr + Passed([s]) + Passed(ss) == tr + Passed([s] + ss)
    ensures After(ss, After([s], sc)) == After([s] + ss, sc)
  {
    var all := [s] + ss;
    assert all[0] == s && all[1..] == ss && [s][0] == s && [s][1..] == [];
    assert Passed(all) == Passed([s]) + Passed(ss);
    assert Deferred(all) == Deferred([s]) + Deferred(ss) && Strings(all) == Strings([s]) + Strings(ss);
  }

  lemma ListFirst(o: Oracle, s: Stmt, ss: seq<Stmt>, sc: Scope, tr: Trace, at: Targets, n: nat)
    requires Exec(o, s, sc, tr, at, n).Done? && Exec(o, s, sc, tr, at, n).how == Fell
    ensures var out := Exec(o, s, sc, tr, at, n);
      ExecList(o, [s] + ss, sc, tr, at, n) == ExecList(o, ss, out.scope, out.trace, at, n)
  {
    assert ([s] + ss)[0] == s && ([s] + ss)[1..] == ss;
    hide Exec;
  }

  /** Straight-line statements are passed, and then the rest of the list runs. */
  lemma {:induction false} StraightRuns(o: Oracle, ss: seq<Stmt>, rest: seq<Stmt>, sc: Scope, tr: Trace, at: Targets,
      n: nat)
    requires Straight(ss)
    ensures ExecList(o, ss + rest, sc, tr, at, n) == ExecList(o, rest, After(ss, sc), tr + Passed(ss), at, n)
    decreases |ss|
  {
    if ss == [] {
      assert ss + rest == rest && After(ss, sc) == sc && tr + Passed(ss) == tr;
    } else {
      var s, more := ss[0], ss[1..];
      assert ss == [s] + more && ss + rest == [s] + (more + rest);
      assert Straight([s]) && Straight(more);
      hide *;
      OneRuns(o, s, sc, tr, at, n);
      Split(s, more, sc, tr);
      ListFirst(o, s, more + rest, sc, tr, at, n);
      StraightRuns(o, more, rest, After([s], sc), tr + Passed([s]), at, n);
    }
  }

  lemma ExitIs(ss: seq<Stmt>)
    ensures ExitEvents(After(ss, EMPTY)) == Exit(ss)
  {
    assert After(ss, EMPTY) == Scope(Deferred(ss), Strings(ss));
    DefersBackwards(Deferred(ss));
    CleanupsBackwards(Strings(ss));
  }

  lemma {:induction false} StraightScoped(ss: seq<Stmt>, rest: seq<Stmt>)
    requires Straight(ss) && ScopedList(rest)
    ensures ScopedList(ss + rest)
    decreases |ss|
  {
    if ss == [] {
      assert ss + rest == rest;
    } else {
      assert (ss + rest)[1..] == ss[1..] + rest;
      StraightScoped(ss[1..], rest);
    }
  }

  // ---- falling off the end ----

  /** A function whose body is straight-line code runs it, then its deferred calls, last
      registered first, then releases its strings, last declared first. */
  lemma FallsThrough(o: Oracle, ss: seq<Stmt>, n: nat)
    requires Straight(ss)
    ensures Call(o, ss, true, n) == Returned(Passed(ss) + Exit(ss))
    ensures Reaches(DeferCodegen.CompFunction(ss, true).graph, o, At(0, 0, []), Returned(Passed(ss) + Exit(ss)))
  {
    assert ss + [] == ss;
    StraightRuns(o, ss, [], EMPTY, [], Targets(false, false), n);
    StraightScoped(ss, []);
    ExitIs(ss);
    assert [] + Passed(ss) == Passed(ss);
    DeferTheorem.CallRuns(o, ss, true, n);
  }

  /** A function that only defers runs the calls in reverse, and so do the generated blocks. */
  lemma DefersRunBackwards(o: Oracle, ids: seq<nat>, n: nat)
    ensures var body := seq(|ids|, i requires 0 <= i < |ids| => Defer(ids[i]));
      var calls := seq(|ids|, i requires 0 <= i < |ids| => Do(ids[|ids| - 1 - i]));
      && Call(o, body, true, n) == Returned(calls)
      && Reaches(DeferCodegen.CompFunction(body, true).graph, o, At(0, 0, []), Returned(calls))
  {
    var body := seq(|ids|, i requires 0 <= i < |ids| => Defer(ids[i]));
    FallsThrough(o, body, n);
    OnlyDefers(ids, body);
    assert Passed(body) + Exit(body) == Backwards(Calls(ids));
  }

  lemma {:induction false} OnlyDefers(ids: seq<nat>, body: seq<Stmt>)
    requires |body| == |ids| && forall i :: 0 <= i < |ids| ==> body[i] == Defer(ids[i])
    ensures Passed(body) == [] && Deferred(body) == ids && Strings(body) == []
    decreases |ids|
  {
    if ids != [] {
      OnlyDefers(ids[1..], body[1..]);
      assert ids == [ids[0]] + ids[1..];
    }
  }

  // ---- returning from nested blocks ----

  /** Blocks inside blocks, each with straight-line code before the next, and a return in the
      innermost. */
  function Nest(layers: seq<seq<Stmt>>, v: Option<nat>): seq<Stmt> {
    if layers == [] then [Return(v)] else layers[0] + [Compound(Nest(layers[1..], v))]
  }

  function AllPassed(layers: seq<seq<Stmt>>): seq<Event> {
    if layers == [] then [] else Passed(layers[0]) + AllPassed(layers[1..])
  }

  /** The innermost block first. */
  function AllExits(layers: seq<seq<Stmt>>): seq<Event> {
    if layers == [] then [] else AllExits(layers[1..]) + Exit(layers[0])
  }

  function Value(v: Option<nat>): seq<Event> {
    if v.Some? then [Do(v.value)] else []
  }

  lemma {:induction false} NestLeaves(o: Oracle, layers: seq<seq<Stmt>>, v: Option<nat>, tr: Trace, at: Targets, n: nat)
    requires forall i :: 0 <= i < |layers| ==> Straight(layers[i])
    ensures Exec(o, Compound(Nest(layers, v)), EMPTY, tr, at, n)
         == Done(Left, tr + AllPassed(layers) + Value(v) + AllExits(layers), EMPTY)
    ensures ScopedList(Nest(layers, v))
    decreases |layers|
  {
    if layers == [] {
      InnermostLeaves(o, v, tr, at, n);
    } else {
      var ss, inner := layers[0], Compound(Nest(layers[1..], v));
      NestLeaves(o, layers[1..], v, tr + Passed(ss), at, n);
      hide ExecList, Exec, Straight;
      BlockLeaves(o, ss, inner, tr, at, n);
      StraightScoped(ss, [inner]);
      hide *;
      Gathered(layers, v, tr);
    }
  }

  lemma InnermostLeaves(o: Oracle, v: Option<nat>, tr: Trace, at: Targets, n: nat)
    ensures Nest([], v) == [Return(v)] && ScopedList([Return(v)])
    ensures Exec(o, Compound([Return(v)]), EMPTY, tr, at, n)
         == Done(Left, tr + AllPassed([]) + Value(v) + AllExits([]), EMPTY)
  {
    var tr1 := if v.Some? then tr + [Do(v.value)] else tr;
    assert ScopedList([Return(v)][1..]);
    assert ExecList(o, [Return(v)], EMPTY, tr, at, n) == Done(Left, tr1, EMPTY);
    assert ExitEvents(EMPTY) == [];
    assert tr1 + [] == tr + [] + Value(v) + [];
  }

  lemma Gathered(layers: seq<seq<Stmt>>, v: Option<nat>, tr: Trace)
    requires layers != []
    ensures Nest(layers, v) == layers[0] + [Compound(Nest(layers[1..], v))]
    ensures tr + Passed(layers[0]) + AllPassed(layers[1..]) + Value(v) + AllExits(layers[1..]) + Exit(layers[0])
         == tr + AllPassed(layers) + Value(v) + AllExits(layers)
  {
    hide Passed, Exit, Value;
  }

  lemma BlockLeaves(o: Oracle, ss: seq<Stmt>, inner: Stmt, tr: Trace, at: Targets, n: nat)
    requires Straight(ss) && inner.Compound?
    requires var out := Exec(o, inner, EMPTY, tr + Passed(ss), at, n); out.Done? && out.how == Left
    ensures Exec(o, Compound(ss + [inner]), EMPTY, tr, at, n)
         == Done(Left, Exec(o, inner, EMPTY, tr + Passed(ss), at, n).trace + Exit(ss), EMPTY)
    ensures ScopedList(inner.stmts) ==> ScopedList([inner])
  {
    var sc := After(ss, EMPTY);
    StraightRuns(o, ss, [inner], EMPTY, tr, at, n);
    ScopeUnused(o, inner, sc, EMPTY, tr + Passed(ss), at, n);
    ExitIs(ss);
    assert [inner][1..] == [];
    assert ExecList(o, [inner], sc, tr + Passed(ss), at, n) == Exec(o, inner, sc, tr + Passed(ss), at, n);
  }

  /** A block does not look at what the blocks around it have collected. */
  lemma ScopeUnused(o: Oracle, s: Stmt, a: Scope, b: Scope, tr: Trace, at: Targets, n: nat)
    requires s.Compound?
    ensures var x, y := Exec(o, s, a, tr, at, n), Exec(o, s, b, tr, at, n);
      if x.Done? then y.Done? && x.how == y.how && x.trace == y.trace && x.scope == a && y.scope == b else y == x
  {
  }

  /** A return inside nested blocks evaluates its value and then leaves the blocks from the
      innermost outwards, each with its deferred calls backwards and then its strings
      backwards; the generated blocks do the same. */
  lemma ReturnsThroughBlocks(o: Oracle, layers: seq<seq<Stmt>>, v: Option<nat>, isVoid: bool, n: nat)
    requires forall i :: 0 <= i < |layers| ==> Straight(layers[i])
    ensures var end := Returned(AllPassed(layers) + Value(v) + AllExits(layers));
      && Call(o, Nest(layers, v), isVoid, n) == end
      && Reaches(DeferCodegen.CompFunction(Nest(layers, v), isVoid).graph, o, At(0, 0, []), end)
  {
    hide *;
    NestLeaves(o, layers, v, [], Targets(false, false), n);
    var tr := AllPassed(layers) + Value(v) + AllExits(layers);
    assert [] + AllPassed(layers) + Value(v) + AllExits(layers) == tr;
    DeferTheorem.CallRuns(o, Nest(layers, v), isVoid, n);
    CallIs(o, Nest(layers, v), isVoid, n, tr);
  }

  lemma CallIs(o: Oracle, body: seq<Stmt>, isVoid: bool, n: nat, tr: Trace)
    requires Exec(o, Compound(body), EMPTY, [], Targets(false, false), n) == Done(Left, tr, EMPTY)
    ensures Call(o, body, isVoid, n) == Returned(tr)
  {
    hide Exec;
  }
}
