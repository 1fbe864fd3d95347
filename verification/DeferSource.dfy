/** Statements and their meaning: a deferred call belongs to the block that executed
    it, and a block runs what it collected whenever control leaves it. */
module DeferSource {
  import opened Options
  import opened Cfg

  datatype Stmt =
    | Null
    | Expr(id: nat)
    | Defer(id: nat)
    | StringLocal(id: nat)              // initialise an owning string, release it at scope exit
    | Compound(stmts: seq<Stmt>)
    | If(cond: nat, thn: Stmt, els: Option<Stmt>)
    | While(cond: nat, body: Stmt)
    | DoWhile(body: Stmt, cond: nat)
    | For(init: Option<Init>, test: Option<nat>, inc: Option<nat>, body: Stmt)
    | Switch(cond: nat, labels: seq<Option<int>>, cases: seq<Stmt>)
    | Break
    | Continue
    | Return(value: Option<nat>)

  /** The expression or the declaration that a `for` starts with; the string such a
      declaration makes is released with the block around the loop. */
  datatype Init = InitExpr(id: nat) | InitString(id: nat)

  /** What one block has collected so far. */
  datatype Scope = Scope(defers: seq<nat>, cleanups: seq<nat>)

  const EMPTY := Scope([], [])

  datatype How = Fell | Broke | Continued | Left

  datatype Outcome =
    | Done(how: How, trace: Trace, scope: Scope)
    | Trap(trace: Trace)                // a break or continue that has nothing to leave
    | Timeout                           // more loop rounds than the fuel allows

  function DeferEvents(ids: seq<nat>): seq<Event> {
    if ids == [] then [] else [Do(ids[|ids| - 1])] + DeferEvents(ids[..|ids| - 1])
  }

  function CleanupEvents(ids: seq<nat>): seq<Event> {
    if ids == [] then [] else [Release(ids[|ids| - 1])] + CleanupEvents(ids[..|ids| - 1])
  }

  /** Leaving a block: its deferred calls, last first, then its strings, last first. */
  function ExitEvents(sc: Scope): seq<Event> {
    DeferEvents(sc.defers) + CleanupEvents(sc.cleanups)
  }

  /** Which statements control may leave from here by break and by continue. */
  datatype Targets = Targets(brk: bool, cont: bool)

  const LOOP := Targets(true, true)

  function InitTrace(init: Option<Init>, tr: Trace): Trace {
    if init.Some? then tr + [Do(init.value.id)] else tr
  }

  function InitScope(init: Option<Init>, sc: Scope): Scope {
    if init.Some? && init.value.InitString? then sc.(cleanups := sc.cleanups + [init.value.id]) else sc
  }

  function Exec(o: Oracle, s: Stmt, sc: Scope, tr: Trace, at: Targets, n: nat): Outcome
    decreases n, s, 0
  {
    match s
    case Null => Done(Fell, tr, sc)
    case Expr(id) => Done(Fell, tr + [Do(id)], sc)
    case Defer(id) => Done(Fell, tr, sc.(defers := sc.defers + [id]))
    case StringLocal(id) => Done(Fell, tr + [Do(id)], sc.(cleanups := sc.cleanups + [id]))
    case Compound(ss) =>
      (match ExecList(o, ss, EMPTY, tr, at, n)
       case Done(how, tr1, inner) => Done(how, tr1 + ExitEvents(inner), sc)
       case other => other)
    case If(c, t, e) =>
      var v := o(c, tr);
      var tr1 := tr + [Test(c, v)];
      if v != 0 then Exec(o, t, sc, tr1, at, n)
      else if e.Some? then Exec(o, e.value, sc, tr1, at, n)
      else Done(Fell, tr1, sc)
    case While(c, body) => ExecLoop(o, Some(c), None, body, sc, tr, n)
    case DoWhile(body, c) => ExecDo(o, body, c, sc, tr, n)
    case For(init, c, inc, body) =>
      ExecLoop(o, c, inc, body, InitScope(init, sc), InitTrace(init, tr), n)
    case Switch(c, labels, cases) =>
      var v := o(c, tr);
      var tr1 := tr + [Test(c, v)];
      AfterSwitch(ExecCases(o, cases, Entry(labels, |cases|, v), sc, tr1, at.(brk := true), n))
    case Break => if at.brk then Done(Broke, tr, sc) else Trap(tr)
    case Continue => if at.cont then Done(Continued, tr, sc) else Trap(tr)
    case Return(v) => Done(Left, if v.Some? then tr + [Do(v.value)] else tr, sc)
  }

  function ExecList(o: Oracle, ss: seq<Stmt>, sc: Scope, tr: Trace, at: Targets, n: nat): Outcome
    decreases n, ss, 0
  {
    if ss == [] then Done(Fell, tr, sc)
    else
      match Exec(o, ss[0], sc, tr, at, n)
      case Done(Fell, tr1, sc1) => ExecList(o, ss[1..], sc1, tr1, at, n)
      case other => other
  }

  /** `while` and `for`: test, body, step. A continue in the body goes on to the step. */
  function ExecLoop(o: Oracle, c: Option<nat>, inc: Option<nat>, body: Stmt, sc: Scope, tr: Trace, n: nat): Outcome
    decreases n, body, 1
  {
    if n == 0 then Timeout
    else
      var v := if c.Some? then o(c.value, tr) else 1;
      var tr1 := if c.Some? then tr + [Test(c.value, v)] else tr;
      if v == 0 then Done(Fell, tr1, sc)
      else
        match Exec(o, body, sc, tr1, LOOP, n - 1)
        case Done(how, tr2, sc2) =>
          if how == Broke then Done(Fell, tr2, sc2)
          else if how == Left then Done(Left, tr2, sc2)
          else ExecLoop(o, c, inc, body, sc2, if inc.Some? then tr2 + [Do(inc.value)] else tr2, n - 1)
        case other => other
  }

  function ExecDo(o: Oracle, body: Stmt, c: nat, sc: Scope, tr: Trace, n: nat): Outcome
    decreases n, body, 1
  {
    if n == 0 then Timeout
    else
      match Exec(o, body, sc, tr, LOOP, n - 1)
      case Done(how, tr1, sc1) =>
        if how == Broke then Done(Fell, tr1, sc1)
        else if how == Left then Done(Left, tr1, sc1)
        else
          var v := o(c, tr1);
          var tr2 := tr1 + [Test(c, v)];
          if v == 0 then Done(Fell, tr2, sc1) else ExecDo(o, body, c, sc1, tr2, n - 1)
      case other => other
  }

  /** The label of the i-th case; a missing one is `default`. */
  function LabelOf(labels: seq<Option<int>>, i: nat): Option<int> {
    if i < |labels| then labels[i] else None
  }

  /** The case a value enters: the first with its label, else the last `default`, else past the end. */
  function Entry(labels: seq<Option<int>>, count: nat, v: int): (i: nat)
    ensures i <= count
  {
    var i := FindLabel(labels, count, v, 0);
    if i < count then i else FindDefault(labels, count, count)
  }

  function FindLabel(labels: seq<Option<int>>, count: nat, v: int, from: nat): (i: nat)
    requires from <= count
    ensures from <= i <= count
    ensures i < count ==> LabelOf(labels, i) == Some(v)
    ensures forall j :: from <= j < i ==> LabelOf(labels, j) != Some(v)
    decreases count - from
  {
    if from == count || LabelOf(labels, from) == Some(v) then from
    else FindLabel(labels, count, v, from + 1)
  }

  /** The last default among the first k cases, or count. */
  function FindDefault(labels: seq<Option<int>>, count: nat, k: nat): (i: nat)
    requires k <= count
    ensures i < k || i == count
    ensures i < count ==> LabelOf(labels, i).None?
    ensures forall j :: 0 <= j < k && LabelOf(labels, j).None? ==> j <= i < count
  {
    if k == 0 then count
    else if LabelOf(labels, k - 1).None? then k - 1
    else FindDefault(labels, count, k - 1)
  }

  /** The cases from i on, each falling through to the next. */
  function ExecCases(o: Oracle, cases: seq<Stmt>, i: nat, sc: Scope, tr: Trace, at: Targets, n: nat): Outcome
    requires i <= |cases|
    decreases n, cases, |cases| - i
  {
    if i == |cases| then Done(Fell, tr, sc)
    else
      match Exec(o, cases[i], sc, tr, at, n)
      case Done(Fell, tr1, sc1) => ExecCases(o, cases, i + 1, sc1, tr1, at, n)
      case other => other
  }

  function AfterSwitch(out: Outcome): Outcome {
    match out
    case Done(Broke, tr, sc) => Done(Fell, tr, sc)
    case other => other
  }

  /** A whole function. Falling off the end of one that must return a value is undefined. */
  function Call(o: Oracle, body: seq<Stmt>, isVoid: bool, n: nat): Config {
    match Exec(o, Compound(body), EMPTY, [], Targets(false, false), n)
    case Done(how, tr, _) => if how == Left || isVoid then Returned(tr) else Trapped(tr)
    case Trap(tr) => Trapped(tr)
    case Timeout => At(0, 0, [])
  }

  /** The statement itself adds to the block that contains it. */
  predicate Registers(s: Stmt) {
    match s
    case Defer(_) => true
    case StringLocal(_) => true
    case For(init, _, _, _) => init.Some? && init.value.InitString?
    case _ => false
  }

  /** No defer or string declaration stands alone as a branch or a loop body. */
  predicate Scoped(s: Stmt)
    decreases s, 0
  {
    match s
    case Compound(ss) => ScopedList(ss)
    case If(_, t, e) => Branch(t) && (e.Some? ==> Branch(e.value))
    case While(_, b) => Branch(b)
    case DoWhile(b, _) => Branch(b)
    case For(_, _, _, b) => Branch(b)
    case Switch(_, _, cases) => forall i :: 0 <= i < |cases| ==> Branch(cases[i])
    case _ => true
  }

  predicate Branch(s: Stmt)
    decreases s, 1
  {
    Scoped(s) && !Registers(s)
  }

  predicate ScopedList(ss: seq<Stmt>)
    decreases ss, 0
  {
    ss == [] || (Scoped(ss[0]) && ScopedList(ss[1..]))
  }

  /** Only a registering statement changes what its block has collected. */
  lemma {:induction false} ScopeKept(o: Oracle, s: Stmt, sc: Scope, tr: Trace, at: Targets, n: nat)
    requires Branch(s)
    ensures var out := Exec(o, s, sc, tr, at, n); out.Done? ==> out.scope == sc
    decreases n, s, 0
  {
    match s
    case If(c, t, e) =>
      var tr1 := tr + [Test(c, o(c, tr))];
      ScopeKept(o, t, sc, tr1, at, n);
      if e.Some? { ScopeKept(o, e.value, sc, tr1, at, n); }
    case While(c, b) => LoopScopeKept(o, Some(c), None, b, sc, tr, n);
    case DoWhile(b, c) => DoScopeKept(o, b, c, sc, tr, n);
    case For(init, c, inc, b) =>
      LoopScopeKept(o, c, inc, b, sc, InitTrace(init, tr), n);
    case Switch(c, labels, cases) =>
      var v := o(c, tr);
      CasesScopeKept(o, cases, Entry(labels, |cases|, v), sc, tr + [Test(c, v)], at.(brk := true), n);
    case _ =>
  }

  lemma {:induction false} LoopScopeKept(o: Oracle, c: Option<nat>, inc: Option<nat>, body: Stmt, sc: Scope, tr: Trace,
      n: nat)
    requires Branch(body)
    ensures var out := ExecLoop(o, c, inc, body, sc, tr, n); out.Done? ==> out.scope == sc
    decreases n, body, 1
  {
    if n > 0 {
      var tr1 := if c.Some? then tr + [Test(c.value, o(c.value, tr))] else tr;
      ScopeKept(o, body, sc, tr1, LOOP, n - 1);
      var out := Exec(o, body, sc, tr1, LOOP, n - 1);
      if out.Done? {
        LoopScopeKept(o, c, inc, body, sc, if inc.Some? then out.trace + [Do(inc.value)] else out.trace, n - 1);
      }
    }
  }

  lemma {:induction false} DoScopeKept(o: Oracle, body: Stmt, c: nat, sc: Scope, tr: Trace, n: nat)
    requires Branch(body)
    ensures var out := ExecDo(o, body, c, sc, tr, n); out.Done? ==> out.scope == sc
    decreases n, body, 1
  {
    if n > 0 {
      ScopeKept(o, body, sc, tr, LOOP, n - 1);
      var out := Exec(o, body, sc, tr, LOOP, n - 1);
      if out.Done? {
        DoScopeKept(o, body, c, sc, out.trace + [Test(c, o(c, out.trace))], n - 1);
      }
    }
  }

  lemma {:induction false} CasesScopeKept(o: Oracle, cases: seq<Stmt>, i: nat, sc: Scope, tr: Trace, at: Targets,
      n: nat)
    requires i <= |cases| && forall j :: 0 <= j < |cases| ==> Branch(cases[j])
    ensures var out := ExecCases(o, cases, i, sc, tr, at, n); out.Done? ==> out.scope == sc
    decreases n, cases, |cases| - i
  {
    if i < |cases| {
      ScopeKept(o, cases[i], sc, tr, at, n);
      var out := Exec(o, cases[i], sc, tr, at, n);
      if out.Done? {
        CasesScopeKept(o, cases, i + 1, sc, out.trace, at, n);
      }
    }
  }
}
