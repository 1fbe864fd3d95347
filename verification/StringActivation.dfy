/** A call of a function over local strings, run instruction by instruction on the heap: its
    locals and scopes are updated in place, and every string operation is one of the emitted
    routines. */
module StringActivation {
  import H = StringHeap
  import R = StringRuns
  import opened StringMachine

  class Activation {
    const heap: Machine
    var vars: map<nat, H.Header>
    var scopes: seq<seq<nat>>

    constructor ()
      ensures fresh(heap) && Now() == R.EMPTY
    {
      heap := new Machine();
      vars, scopes := map[], [];
    }

    ghost function Now(): R.State
      reads this, heap
    {
      R.State(heap.Now(), vars, scopes)
    }

    function Viewed(src: R.Source): H.View
      reads this
    {
      match src
      case Literal(bytes) => H.Outside(bytes)
      case Part(y, off, len) =>
        if y in vars && vars[y].ptr.Some? then H.Into(vars[y].ptr.value, off, len) else H.Outside([])
    }

    method Declare(x: nat)
      requires scopes != []
      modifies this
      ensures Now() == R.Declare(old(Now()), x)
    {
      var n := |scopes| - 1;
      vars, scopes := vars[x := H.NULL], scopes[n := scopes[n] + [x]];
    }

    /** Release the locals of a scope, the last declared first. */
    method Release(slots: seq<nat>)
      modifies this, heap
      ensures Now() == R.Release(old(Now()), slots)
    {
      var i := |slots|;
      assert slots[..i] == slots;
      while i > 0
        invariant 0 <= i <= |slots| && R.Release(Now(), slots[..i]) == R.Release(old(Now()), slots)
      {
        i := i - 1;
        assert slots[..i + 1][..i] == slots[..i];
        var x := slots[i];
        hide H.Destroy;
        if x in vars {
          var r := heap.StringDestroy(vars[x]);
          vars := vars[x := r];
        }
        vars := vars - {x};
      }
    }

    method CloseScope()
      requires scopes != []
      modifies this, heap
      ensures Now() == R.CloseScope(old(Now()))
    {
      var n := |scopes| - 1;
      R.ReleaseScopes(Now(), scopes[n]);
      var rest := scopes[..n];
      Release(scopes[n]);
      scopes := rest;
    }

    /** One operation of the program. */
    method Perform(op: R.Op, c: H.Choice)
      requires R.Has(Now(), op)
      modifies this, heap
      ensures Now() == R.Apply(old(Now()), op, c)
    {
      hide H.Copy, H.Assign, H.AssignFresh, H.Append, H.Push, H.Destroy;
      match op {
        case Open => scopes := scopes + [[]];
        case Zeroed(x) => Declare(x);
        case NewFrom(x, src) => Initialise(x, Viewed(src), c);
        case CopyInit(x, y) => Initialise(x, H.ViewOf(vars[y]), c);
        case AssignLive(x, y) =>
          var r := heap.StringAssign(vars[x], vars[y], c);
          vars := vars[x := r];
        case AssignNew(x, src) =>
          var made := heap.StringCopy(Viewed(src), c);
          var r := heap.AssignFresh(vars[x], made);
          vars := vars[x := r];
        case AppendTo(x, src) =>
          var r := heap.StringAppend(vars[x], Viewed(src), c);
          vars := vars[x := r];
        case PushTo(x, ch) =>
          var r := heap.StringPush(vars[x], ch, c);
          vars := vars[x := r];
        case DestroyIt(x) =>
          var r := heap.StringDestroy(vars[x]);
          vars := vars[x := r];
        case Close => CloseScope();
      }
    }

    /** Zero and register a local, then copy into it. */
    method Initialise(x: nat, v: H.View, c: H.Choice)
      requires scopes != []
      modifies this, heap
      ensures Now() == R.Set(R.Declare(old(Now()), x), x, H.Copy(old(Now()).heap, v, c))
    {
      hide H.Copy;
      Declare(x);
      var r := heap.StringCopy(v, c);
      vars := vars[x := r];
    }

    /** A whole run: the machine ends where the model does, and so it holds the values the
        language promises. */
    method Run(es: seq<R.Event>, ghost a: R.Values)
      requires R.Holds(Now(), a) && R.Runs(a, es)
      modifies this, heap
      ensures Now() == R.Execute(old(Now()), es) && R.Holds(Now(), R.Final(a, es))
    {
      hide *;
      ghost var now := a;
      R.RunHolds(Now(), a, es);
      var i := 0;
      assert es[0..] == es;
      while i < |es|
        invariant 0 <= i <= |es| && R.Holds(Now(), now) && R.Runs(now, es[i..])
        invariant R.Execute(Now(), es[i..]) == R.Execute(old(Now()), es)
      {
        RunStep(Now(), now, es[i..]);
        now := R.Step(now, es[i].op);
        Perform(es[i].op, es[i].choice);
        assert es[i..][1..] == es[i + 1..];
        i := i + 1;
      }
      RunEnd(Now(), es[i..]);
    }

    static lemma RunStep(s: R.State, a: R.Values, es: seq<R.Event>)
      requires R.Holds(s, a) && R.Runs(a, es) && es != []
      ensures R.Enabled(a, es[0].op) && R.Has(s, es[0].op)
      ensures var t := R.Apply(s, es[0].op, es[0].choice);
        && R.Holds(t, R.Step(a, es[0].op)) && R.Runs(R.Step(a, es[0].op), es[1..])
        && R.Execute(s, es) == R.Execute(t, es[1..])
    {
      R.StepHolds(s, a, es[0].op, es[0].choice);
    }

    static lemma RunEnd(s: R.State, es: seq<R.Event>)
      requires es == []
      ensures R.Execute(s, es) == s
    {
    }

    /** Leave the function: hand over or copy what is returned, then release every scope. */
    method Leave(e: R.Exit, c: H.Choice) returns (r: H.Header)
      requires R.CanLeave(Now(), e)
      modifies this, heap
      ensures (Now(), r) == R.Leave(old(Now()), e, c)
    {
      hide H.Copy;
      match e {
        case Plain => r := H.NULL;
        case ReturnLocal(x) =>
          r := vars[x];
          vars := vars[x := H.NULL];
        case ReturnCopy(x) => r := heap.StringCopy(H.ViewOf(vars[x]), c);
        case ReturnNew(src) => r := heap.StringCopy(Viewed(src), c);
      }
      CloseAll();
    }

    method CloseAll()
      modifies this, heap
      ensures Now() == R.CloseAll(old(Now()))
    {
      while scopes != []
        invariant R.CloseAll(Now()) == R.CloseAll(old(Now()))
        decreases |scopes|
      {
        R.ReleaseScopes(Now(), scopes[|scopes| - 1]);
        hide R.Release;
        CloseScope();
      }
    }
  }

  /** A call from an empty heap: whatever the body does and however it leaves, the machine has
      misused no block, and exactly the returned buffer is live and holds the right text. */
  method Call(es: seq<R.Event>, e: R.Exit, c: H.Choice) returns (f: Activation, r: H.Header)
    requires R.Runs(R.Values(map[], []), es)
    requires R.Returned(R.Final(R.Values(map[], []), es), e).Some?
    ensures fresh(f) && fresh(f.heap)
    ensures R.LeavesOnly(f.heap.Now(), r, R.Returned(R.Final(R.Values(map[], []), es), e).value)
  {
    hide R.Holds, R.Runs, R.Final, R.LeavesOnly, R.Leave, R.Execute, R.Returned, R.CanLeave;
    f := new Activation();
    R.EmptyHolds();
    ghost var a := R.Values(map[], []);
    f.Run(es, a);
    R.LeaveLeavesOnly(f.Now(), R.Final(a, es), e, c);
    r := f.Leave(e, c);
  }
}
