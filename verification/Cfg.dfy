/** Basic blocks as the statement code generator leaves them, and how they run.
    An expression is an opaque event. What a condition evaluates to may depend on
    everything executed so far, so an oracle maps the history to its value. */
module Cfg {
  import opened Options

  datatype Event =
    | Do(id: nat)                       // an expression or a deferred call
    | Release(id: nat)                  // the release of an owning string local
    | Test(cond: nat, value: int)       // a controlling expression and its value

  type Trace = seq<Event>
  type Oracle = (nat, Trace) -> int

  datatype Terminator =
    | Br(target: nat)
    | CondBr(cond: nat, ifTrue: nat, ifFalse: nat)
    | Jump(cond: nat, arms: seq<Arm>, otherwise: nat)
    | Ret
    | Unreachable

  datatype Arm = Arm(value: int, target: nat)

  datatype Block = Block(instrs: seq<Event>, term: Option<Terminator>)
  type Graph = seq<Block>

  datatype Config =
    | At(block: nat, index: nat, trace: Trace)
    | Returned(trace: Trace)
    | Trapped(trace: Trace)
    | Malformed

  /** The target of the first arm carrying the value. */
  function Select(arms: seq<Arm>, otherwise: nat, v: int): nat {
    if arms == [] then otherwise
    else if arms[0].value == v then arms[0].target
    else Select(arms[1..], otherwise, v)
  }

  function Leave(o: Oracle, t: Terminator, tr: Trace): Config {
    match t
    case Br(b) => At(b, 0, tr)
    case CondBr(c, b0, b1) =>
      var v := o(c, tr);
      At(if v != 0 then b0 else b1, 0, tr + [Test(c, v)])
    case Jump(c, arms, b) =>
      var v := o(c, tr);
      At(Select(arms, b, v), 0, tr + [Test(c, v)])
    case Ret => Returned(tr)
    case Unreachable => Trapped(tr)
  }

  function Step(G: Graph, o: Oracle, c: Config): Config {
    match c
    case At(b, i, tr) =>
      if b >= |G| then Malformed
      else if i < |G[b].instrs| then At(b, i + 1, tr + [G[b].instrs[i]])
      else if G[b].term.None? then Malformed
      else Leave(o, G[b].term.value, tr)
    case _ => c
  }

  function Steps(G: Graph, o: Oracle, c: Config, k: nat): Config
    decreases k
  {
    if k == 0 then c else Steps(G, o, Step(G, o, c), k - 1)
  }

  ghost predicate Reaches(G: Graph, o: Oracle, c: Config, d: Config) {
    exists k: nat :: Steps(G, o, c, k) == d
  }

  /** Still inside the function after some k >= n steps. */
  ghost predicate RunsFor(G: Graph, o: Oracle, c: Config, n: nat) {
    exists k: nat :: k >= n && Steps(G, o, c, k).At?
  }

  lemma {:induction false} StepsAdd(G: Graph, o: Oracle, c: Config, j: nat, k: nat)
    ensures Steps(G, o, c, j + k) == Steps(G, o, Steps(G, o, c, j), k)
    decreases j
  {
    if j > 0 {
      StepsAdd(G, o, Step(G, o, c), j - 1, k);
    }
  }

  lemma ReachesSelf(G: Graph, o: Oracle, c: Config)
    ensures Reaches(G, o, c, c)
  {
    assert Steps(G, o, c, 0) == c;
  }

  lemma ReachesStep(G: Graph, o: Oracle, c: Config)
    ensures Reaches(G, o, c, Step(G, o, c))
  {
    assert Steps(G, o, c, 1) == Steps(G, o, Step(G, o, c), 0);
  }

  lemma ReachesTrans(G: Graph, o: Oracle, c: Config, d: Config, e: Config)
    requires Reaches(G, o, c, d) && Reaches(G, o, d, e)
    ensures Reaches(G, o, c, e)
  {
    var j: nat :| Steps(G, o, c, j) == d;
    var k: nat :| Steps(G, o, d, k) == e;
    StepsAdd(G, o, c, j, k);
  }

  lemma RunsAfter(G: Graph, o: Oracle, c: Config, d: Config, n: nat)
    requires Reaches(G, o, c, d) && RunsFor(G, o, d, n)
    ensures RunsFor(G, o, c, n)
  {
    var j: nat :| Steps(G, o, c, j) == d;
    var k: nat :| k >= n && Steps(G, o, d, k).At?;
    StepsAdd(G, o, c, j, k);
    assert Steps(G, o, c, j + k).At?;
  }

  lemma RunsOneMore(G: Graph, o: Oracle, c: Config, n: nat)
    requires n > 0 && RunsFor(G, o, Step(G, o, c), n - 1)
    ensures RunsFor(G, o, c, n)
  {
    var k: nat :| k >= n - 1 && Steps(G, o, Step(G, o, c), k).At?;
    assert Steps(G, o, c, k + 1).At?;
  }

  lemma {:induction false} Halted(G: Graph, o: Oracle, c: Config, k: nat)
    requires !c.At?
    ensures Steps(G, o, c, k) == c
    decreases k
  {
    if k > 0 {
      Halted(G, o, c, k - 1);
    }
  }

  /** Once a run has left the function, every longer run ends in the same place. */
  lemma HaltsOnce(G: Graph, o: Oracle, c: Config, d: Config, j: nat, k: nat)
    requires Steps(G, o, c, j) == d && !d.At? && j <= k
    ensures Steps(G, o, c, k) == d
  {
    StepsAdd(G, o, c, j, k - j);
    Halted(G, o, d, k - j);
  }

  /** A straight stretch of instructions runs in order. */
  lemma {:induction false} RunInstrs(G: Graph, o: Oracle, b: nat, i: nat, events: seq<Event>, tr: Trace)
    requires b < |G| && i + |events| <= |G[b].instrs|
    requires G[b].instrs[i..i + |events|] == events
    ensures Reaches(G, o, At(b, i, tr), At(b, i + |events|, tr + events))
    decreases |events|
  {
    if events == [] {
      assert tr + events == tr;
      ReachesSelf(G, o, At(b, i, tr));
    } else {
      assert G[b].instrs[i] == G[b].instrs[i..i + |events|][0] == events[0];
      assert G[b].instrs[i + 1..i + 1 + |events[1..]|] == G[b].instrs[i..i + |events|][1..] == events[1..];
      ReachesStep(G, o, At(b, i, tr));
      RunInstrs(G, o, b, i + 1, events[1..], tr + [events[0]]);
      assert tr + [events[0]] + events[1..] == tr + events;
      ReachesTrans(G, o, At(b, i, tr), At(b, i + 1, tr + [events[0]]), At(b, i + |events|, tr + events));
    }
  }

  /** H keeps everything G has: instruction lists only grow, and a finished block is final. */
  ghost predicate Grows(G: Graph, H: Graph) {
    && |G| <= |H|
    && forall b {:trigger H[b]} :: 0 <= b < |G| ==> Kept(G[b], H[b])
  }

  ghost predicate Kept(x: Block, y: Block) {
    if x.term.Some? then y == x else x.instrs <= y.instrs
  }

  lemma GrowsTrans(G: Graph, H: Graph, K: Graph)
    requires Grows(G, H) && Grows(H, K)
    ensures Grows(G, K)
  {
    forall b | 0 <= b < |G| ensures Kept(G[b], K[b]) {
      assert Kept(G[b], H[b]) && Kept(H[b], K[b]);
    }
  }
}
