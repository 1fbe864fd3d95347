/** Loading a module and, before it, everything it imports. What a file holds and where a
    specifier leads are given; the search is the loader's own. */
module ModuleLoader {
  import opened Options

  type Path = string
  datatype Decl = Decl(id: nat, moduleName: string)
  datatype Diagnostic = Diagnostic(text: string, isError: bool)

  /** What the lexer and the parser make of a readable file. */
  datatype File = File(diagnostics: seq<Diagnostic>, parsed: Option<Unit>)
  datatype Unit = Unit(errors: seq<string>, moduleName: string, imports: seq<string>, decls: seq<Decl>)

  datatype Error =
    | Circular(cycle: seq<Path>)
    | Unreadable(path: Path)
    | Unparsed(path: Path)
    | WrongName(path: Path)
    | Unresolved(specifier: string)
    | Legacy
    | Reported(text: string)

  /** The file system, the path rules and the search along a path, as the loader sees them. */
  datatype Env = Env(files: map<Path, File>, canonical: string -> Path, resolve: (string, seq<string>) -> string,
                     parentDir: Path -> string, isLegacy: string -> bool, isDotted: string -> bool,
                     toModuleName: string -> string)

  // ---- import graphs ----

  type Graph = map<Path, seq<Path>>

  predicate Edge(g: Graph, p: Path, q: Path) {
    p in g && q in g[p]
  }

  predicate Walk(g: Graph, w: seq<Path>) {
    w != [] && forall i :: 0 <= i < |w| - 1 ==> Edge(g, w[i], w[i + 1])
  }

  predicate Cycle(g: Graph, c: seq<Path>) {
    |c| >= 2 && Walk(g, c) && c[0] == c[|c| - 1]
  }

  ghost predicate Reaches(g: Graph, p: Path, q: Path) {
    exists w :: Walk(g, w) && w[0] == p && w[|w| - 1] == q
  }

  predicate Distinct(s: seq<Path>) {
    forall i, j :: 0 <= i < j < |s| ==> s[i] != s[j]
  }

  /** Every module comes after everything it imports. */
  ghost predicate Topological(order: seq<Path>, g: Graph) {
    forall i, q :: 0 <= i < |order| && Edge(g, order[i], q) ==> q in order[..i]
  }

  /** The graph only gains edges. */
  ghost predicate Extends(g: Graph, h: Graph) {
    forall p, q :: Edge(g, p, q) ==> Edge(h, p, q)
  }

  lemma WalkExtends(g: Graph, h: Graph, w: seq<Path>)
    requires Extends(g, h) && Walk(g, w)
    ensures Walk(h, w)
  {
  }

  lemma ReachesStep(g: Graph, p: Path, q: Path, r: Path)
    requires Edge(g, p, q) && Reaches(g, q, r)
    ensures Reaches(g, p, r)
  {
    var w :| Walk(g, w) && w[0] == q && w[|w| - 1] == r;
    assert Walk(g, [p] + w);
  }

  lemma ReachesExtends(g: Graph, h: Graph, p: Path, q: Path)
    requires Extends(g, h) && Reaches(g, p, q)
    ensures Reaches(h, p, q)
  {
    var w :| Walk(g, w) && w[0] == p && w[|w| - 1] == q;
    WalkExtends(g, h, w);
  }

  /** Following edges from a module in a topological order only leads to earlier ones. */
  lemma {:induction false} WalkDescends(order: seq<Path>, g: Graph, w: seq<Path>, i: nat)
    requires Topological(order, g) && Walk(g, w) && i < |order| && w[0] == order[i]
    ensures w[|w| - 1] in order[..i + 1] && (|w| >= 2 ==> w[|w| - 1] in order[..i])
    decreases |w|
  {
    if |w| >= 2 {
      assert Edge(g, w[0], w[1]);
      var j :| 0 <= j < i && order[j] == w[1];
      WalkDescends(order, g, w[1..], j);
    }
  }

  /** A module loaded without errors is on no import cycle. */
  lemma NoCycle(order: seq<Path>, g: Graph, c: seq<Path>)
    requires Topological(order, g) && Distinct(order) && Walk(g, c) && |c| >= 2 && c[0] in order
    ensures !Cycle(g, c)
  {
    var i :| 0 <= i < |order| && order[i] == c[0];
    WalkDescends(order, g, c, i);
  }

  // ---- the loader's state and what it satisfies ----

  /** Besides the loader's variables: the modules emitted so far, and the edges met, each
      module's imports resolved along the search path it was first reached with. */
  datatype State = State(loaded: set<Path>, active: seq<Path>, out: seq<Decl>, errors: seq<Error>,
                         order: seq<Path>, imports: Graph, searched: map<Path, seq<string>>)

  function Parsed(e: Env, p: Path): Option<Unit> {
    if p in e.files then e.files[p].parsed else None
  }

  /** When the loader takes a file: it can be read, no diagnostic is an error, it parses without
      errors, and the name it declares, if any, is that of a dotted specifier. */
  predicate Acceptable(e: Env, p: Path, specifier: string) {
    && p in e.files
    && (forall i :: 0 <= i < |e.files[p].diagnostics| ==> !e.files[p].diagnostics[i].isError)
    && e.files[p].parsed.Some?
    && var u := e.files[p].parsed.value;
       && u.errors == []
       && (u.moduleName == "" || !e.isDotted(specifier) || e.toModuleName(specifier) == u.moduleName)
  }

  function Texts(diags: seq<Diagnostic>): (r: seq<string>)
    ensures |r| == |diags|
  {
    seq(|diags|, i requires 0 <= i < |diags| => diags[i].text)
  }

  function Reports(texts: seq<string>): (r: seq<Error>)
    ensures |r| == |texts| && forall i :: 0 <= i < |r| ==> r[i] == Reported(texts[i])
  {
    seq(|texts|, i requires 0 <= i < |texts| => Reported(texts[i]))
  }

  /** Everything that is said about a file: its diagnostics, then the first reason not to take it. */
  function Complaints(e: Env, p: Path, specifier: string): seq<Error> {
    if p !in e.files then [Unreadable(p)]
    else
      var diags, parsed := e.files[p].diagnostics, e.files[p].parsed;
      Reports(Texts(diags))
      + if exists i :: 0 <= i < |diags| && diags[i].isError then []
        else if parsed == None then [Unparsed(p)]
        else if parsed.value.errors != [] then Reports(parsed.value.errors)
        else if Acceptable(e, p, specifier) then []
        else [WrongName(p)]
  }

  /** Nothing is said exactly about acceptable files without diagnostics. */
  lemma SilentIff(e: Env, p: Path, specifier: string)
    ensures Complaints(e, p, specifier) == [] <==> Acceptable(e, p, specifier) && e.files[p].diagnostics == []
    ensures forall x <- Complaints(e, p, specifier) :: !x.Circular?
  {
  }

  /** A specifier that is not legacy and leads to a file. */
  predicate Leads(e: Env, spec: string, dirs: seq<string>) {
    !e.isLegacy(spec) && e.resolve(spec, dirs) != ""
  }

  function Tag(decls: seq<Decl>, name: string): seq<Decl> {
    if decls == [] then []
    else [if decls[0].moduleName == "" then decls[0].(moduleName := name) else decls[0]] + Tag(decls[1..], name)
  }

  function Tagged(u: Unit): seq<Decl> {
    if u.moduleName == "" then u.decls else Tag(u.decls, u.moduleName)
  }

  /** Declarations without a module get the module's name; nothing else changes. */
  lemma {:induction false} TagNames(decls: seq<Decl>, name: string)
    ensures |Tag(decls, name)| == |decls|
    ensures forall i :: 0 <= i < |decls| ==>
      && Tag(decls, name)[i].id == decls[i].id
      && Tag(decls, name)[i].moduleName == if decls[i].moduleName == "" then name else decls[i].moduleName
  {
    if decls != [] { TagNames(decls[1..], name); }
  }

  function Emitted(e: Env, order: seq<Path>): seq<Decl> {
    if order == [] then []
    else
      var p := order[|order| - 1];
      Emitted(e, order[..|order| - 1]) + if Parsed(e, p).Some? then Tagged(Parsed(e, p).value) else []
  }

  function Target(e: Env, spec: string, dirs: seq<string>): Path {
    e.canonical(e.resolve(spec, dirs))
  }

  function Targets(e: Env, specs: seq<string>, dirs: seq<string>): seq<Path> {
    if specs == [] then []
    else Targets(e, specs[..|specs| - 1], dirs) + [Target(e, specs[|specs| - 1], dirs)]
  }

  ghost predicate StackSound(s: State) {
    && Distinct(s.active)
    && (forall p <- s.active :: p in s.loaded && p in s.imports)
    && (forall i :: 0 <= i < |s.active| - 1 ==> Edge(s.imports, s.active[i], s.active[i + 1]))
  }

  ghost predicate OrderSound(e: Env, s: State) {
    && Distinct(s.order)
    && (forall p <- s.order :: p in s.loaded && p !in s.active && p in s.imports)
    && s.out == Emitted(e, s.order)
  }

  ghost predicate CyclesReal(s: State) {
    forall x <- s.errors :: x.Circular? ==> Cycle(s.imports, x.cycle)
  }

  ghost predicate Valid(e: Env, s: State) {
    StackSound(s) && OrderSound(e, s) && CyclesReal(s) && s.imports.Keys <= s.loaded && s.searched.Keys <= s.loaded
  }

  /** An emitted module was acceptable without diagnostics, and every import of it was resolved
      and followed. */
  ghost predicate Followed(e: Env, s: State, p: Path) {
    && p in s.searched && p in s.imports && Parsed(e, p).Some?
    && s.imports[p] == Targets(e, Parsed(e, p).value.imports, s.searched[p])
    && AllLead(e, Parsed(e, p).value.imports, s.searched[p])
    && e.files[p].diagnostics == [] && exists specifier :: Acceptable(e, p, specifier)
  }

  ghost predicate AllLead(e: Env, specs: seq<string>, dirs: seq<string>) {
    forall k :: 0 <= k < |specs| ==> Leads(e, specs[k], dirs)
  }

  /** Nothing went wrong: what was reached is emitted, being loaded or about to be, and
      imports come first. */
  ghost predicate CleanBut(e: Env, s: State, entering: set<Path>) {
    && s.loaded == (set p | p in s.order) + (set p | p in s.active) + entering
    && Topological(s.order, s.imports)
    && forall p <- s.order :: Followed(e, s, p)
  }

  ghost predicate Clean(e: Env, s: State) {
    CleanBut(e, s, {})
  }

  /** What every load keeps: it adds to the record and leaves the stack as it was; only the
      module being loaded gains edges. */
  ghost predicate Kept(s: State, t: State, owner: Option<Path>) {
    && t.active == s.active && s.loaded <= t.loaded && s.order <= t.order && s.errors <= t.errors
    && (forall p <- s.imports :: p in t.imports && (Some(p) == owner || t.imports[p] == s.imports[p]))
    && (forall p <- s.searched :: p in t.searched && t.searched[p] == s.searched[p])
    && Extends(s.imports, t.imports)
  }

  /** The modules emitted in between are reached from `p`. */
  ghost predicate NewReached(s: State, t: State, p: Path) {
    forall i :: |s.order| <= i < |t.order| ==> Reaches(t.imports, p, t.order[i])
  }

  function Top(s: State): Option<Path> {
    if s.active == [] then None else Some(s.active[|s.active| - 1])
  }

  /** What loading the module `p` does. */
  ghost predicate Loads(e: Env, s: State, t: State, p: Path) {
    && Valid(e, t) && Kept(s, t, None) && NewReached(s, t, p)
    && (Clean(e, s) && t.errors == s.errors ==> Clean(e, t) && p in t.order)
  }

  /** What following one import of the module on top of the stack does. */
  ghost predicate Follows(e: Env, s: State, t: State, spec: string, dirs: seq<string>) {
    && Valid(e, t) && Kept(s, t, Top(s))
    && NewReached(s, t, if s.active == [] then Target(e, spec, dirs) else s.active[|s.active| - 1])
    && (Clean(e, s) && t.errors == s.errors ==>
          && Clean(e, t) && Target(e, spec, dirs) in t.order && Leads(e, spec, dirs)
          && (s.active != [] ==>
                var p := s.active[|s.active| - 1];
                p in s.imports && p in t.imports && t.imports[p] == s.imports[p] + [Target(e, spec, dirs)]))
  }

  ghost predicate FollowsAll(e: Env, s: State, t: State, p: Path, specs: seq<string>, dirs: seq<string>) {
    && Valid(e, t) && Kept(s, t, Some(p)) && NewReached(s, t, p)
    && (Clean(e, s) && t.errors == s.errors ==>
          && Clean(e, t) && p in t.imports && t.imports[p] == Targets(e, specs, dirs) && AllLead(e, specs, dirs)
          && forall q <- t.imports[p] :: q in t.order)
  }

  function Index(s: seq<Path>, p: Path): (i: nat)
    requires p in s
    ensures i < |s| && s[i] == p
  {
    if s[0] == p then 0 else 1 + Index(s[1..], p)
  }

  // ---- single steps ----

  /** Report something that is not a cycle. */
  lemma ReportValid(e: Env, s: State, more: seq<Error>)
    requires Valid(e, s) && forall x <- more :: !x.Circular?
    ensures var t := s.(errors := s.errors + more);
      Valid(e, t) && Kept(s, t, None) && NewReached(s, t, "") && (more == [] ==> t == s)
  {
    hide Distinct, Emitted;
  }

  /** A file met again while it is on the stack closes a cycle. */
  lemma CycleFound(e: Env, s: State, p: Path)
    requires Valid(e, s) && p in s.active && Edge(s.imports, s.active[|s.active| - 1], p)
    ensures var c := s.active[Index(s.active, p)..] + [p];
      Cycle(s.imports, c) && Loads(e, s, s.(errors := s.errors + [Circular(c)]), p)
  {
    var i := Index(s.active, p);
    var c := s.active[i..] + [p];
    forall k | 0 <= k < |c| - 1 ensures Edge(s.imports, c[k], c[k + 1]) {
      if k < |c| - 2 { assert Edge(s.imports, s.active[i + k], s.active[i + k + 1]); }
    }
  }

  /** A file met again after it was loaded is left alone. */
  lemma AlreadyLoaded(e: Env, s: State, p: Path)
    requires Valid(e, s) && p !in s.active && p in s.loaded
    ensures Loads(e, s, s, p)
  {
  }

  function Enter(s: State, p: Path, dirs: seq<string>): State {
    s.(active := s.active + [p], imports := s.imports[p := []], searched := s.searched[p := dirs])
  }

  function Emit(e: Env, s: State, p: Path): State
    requires s.active != [] && Parsed(e, p).Some?
  {
    s.(active := s.active[..|s.active| - 1], out := s.out + Tagged(Parsed(e, p).value), order := s.order + [p])
  }

  function Meet(s: State, q: Path): State
    requires s.active != [] && s.active[|s.active| - 1] in s.imports
  {
    var p := s.active[|s.active| - 1];
    s.(imports := s.imports[p := s.imports[p] + [q]])
  }

  lemma CyclesExtend(s: State, g: Graph)
    requires CyclesReal(s) && Extends(s.imports, g)
    ensures CyclesReal(s.(imports := g))
  {
    forall x <- s.errors | x.Circular? ensures Cycle(g, x.cycle) {
      WalkExtends(s.imports, g, x.cycle);
    }
  }

  lemma TopKnown(e: Env, s: State)
    requires Valid(e, s) && s.active != []
    ensures s.active[|s.active| - 1] in s.imports
  {
  }

  lemma MeetValid(e: Env, s: State, q: Path)
    requires Valid(e, s) && s.active != []
    ensures var t := Meet(s, q);
      && Valid(e, t) && Kept(s, t, Top(s)) && Edge(t.imports, s.active[|s.active| - 1], q)
      && (Clean(e, s) ==> Clean(e, t))
  {
    var t := Meet(s, q);
    CyclesExtend(s, t.imports);
    hide CyclesReal, Emitted, Targets;
  }

  lemma EnterStack(s: State, p: Path, dirs: seq<string>)
    requires StackSound(s) && p in s.loaded && p !in s.active && p !in s.imports
    requires s.active != [] ==> Edge(s.imports, s.active[|s.active| - 1], p)
    ensures StackSound(Enter(s, p, dirs)) && Extends(s.imports, s.imports[p := []])
  {
    var t := Enter(s, p, dirs);
    forall i | 0 <= i < |t.active| - 1 ensures Edge(t.imports, t.active[i], t.active[i + 1]) {
      if i < |s.active| - 1 { assert Edge(s.imports, s.active[i], s.active[i + 1]); }
    }
  }

  lemma EnterValid(e: Env, s: State, p: Path, dirs: seq<string>)
    requires Valid(e, s) && p in s.loaded && p !in s.active && p !in s.order && p !in s.imports && p !in s.searched
    requires s.active != [] ==> Edge(s.imports, s.active[|s.active| - 1], p)
    ensures var t := Enter(s, p, dirs); Valid(e, t) && Extends(s.imports, t.imports)
  {
    var t := Enter(s, p, dirs);
    EnterStack(s, p, dirs);
    hide StackSound, Edge;
    CyclesExtend(s, t.imports);
    hide CyclesReal, Emitted, Distinct, Extends;
  }

  lemma EnterClean(e: Env, s: State, p: Path, dirs: seq<string>)
    requires CleanBut(e, s, {p}) && p !in s.order
    ensures Clean(e, Enter(s, p, dirs))
  {
    hide Targets, Parsed;
  }

  lemma EmitValid(e: Env, s: State, p: Path)
    requires Valid(e, s) && Parsed(e, p).Some? && s.active != [] && s.active[|s.active| - 1] == p
    ensures Valid(e, Emit(e, s, p))
  {
    var t := Emit(e, s, p);
    var n := |s.active| - 1;
    assert forall i :: 0 <= i < n ==> t.active[i] == s.active[i] && s.active[i] != s.active[n];
    assert t.order[..|t.order| - 1] == s.order;
    hide Tagged, Parsed;
    assert StackSound(t) by {
      assert forall i :: 0 <= i < n - 1 ==> Edge(s.imports, s.active[i], s.active[i + 1]);
    }
    assert p in s.active && p !in t.active && p !in s.order;
    assert Distinct(t.order);
  }

  lemma EmitClean(e: Env, s: State, p: Path)
    requires Clean(e, s) && Parsed(e, p).Some? && s.active != [] && s.active[|s.active| - 1] == p
    requires Followed(e, s, p) && forall q <- s.imports[p] :: q in s.order
    ensures Clean(e, Emit(e, s, p))
  {
    var t := Emit(e, s, p);
    forall i, q | 0 <= i < |t.order| && Edge(t.imports, t.order[i], q) ensures q in t.order[..i] {
      if i < |s.order| {
        assert t.order[i] == s.order[i] && t.order[..i] == s.order[..i];
      } else {
        assert t.order[..i] == s.order;
      }
    }
    assert forall q :: q in t.active + [p] <==> q in s.active;
    hide Targets, Tagged, Emitted;
  }

  // ---- composition ----

  lemma KeptTrans(s: State, t: State, u: State, owner: Option<Path>)
    requires Kept(s, t, owner) && Kept(t, u, owner)
    ensures Kept(s, u, owner)
  {
  }

  lemma KeptAny(s: State, t: State, owner: Option<Path>)
    requires Kept(s, t, None)
    ensures Kept(s, t, owner)
  {
  }

  lemma NewReachedTrans(s: State, t: State, u: State, p: Path)
    requires NewReached(s, t, p) && NewReached(t, u, p) && Extends(t.imports, u.imports) && t.order <= u.order
    ensures NewReached(s, u, p)
  {
    forall i | |s.order| <= i < |u.order| ensures Reaches(u.imports, p, u.order[i]) {
      if i < |t.order| { ReachesExtends(t.imports, u.imports, p, t.order[i]); }
    }
  }

  /** The edge met first carries what loading the target reaches to the module on top. */
  lemma LoadsKept(e: Env, s: State, t: State, p: Path)
    requires Loads(e, s, t, p)
    ensures t.active == s.active
  {
  }

  lemma FollowOne(e: Env, s: State, m: State, t: State, spec: string, dirs: seq<string>)
    requires Valid(e, s) && Loads(e, m, t, Target(e, spec, dirs))
    requires m == (if s.active == [] then s else Meet(s, Target(e, spec, dirs))) && Leads(e, spec, dirs)
    ensures Follows(e, s, t, spec, dirs)
  {
    var q := Target(e, spec, dirs);
    if s.active != [] {
      var p := s.active[|s.active| - 1];
      MeetValid(e, s, q);
      hide Valid, Clean, Target;
      KeptAny(m, t, Top(s));
      KeptTrans(s, m, t, Top(s));
      forall i | |s.order| <= i < |t.order| ensures Reaches(t.imports, p, t.order[i]) {
        ReachesStep(t.imports, p, q, t.order[i]);
      }
    }
  }

  lemma FollowFailed(e: Env, s: State, x: Error, spec: string, dirs: seq<string>)
    requires Valid(e, s) && !x.Circular?
    ensures Follows(e, s, s.(errors := s.errors + [x]), spec, dirs)
  {
    ReportValid(e, s, [x]);
    hide Valid;
  }

  lemma FollowMore(e: Env, s: State, t: State, u: State, p: Path, specs: seq<string>, dirs: seq<string>, spec: string)
    requires Top(s) == Some(p) && FollowsAll(e, s, t, p, specs, dirs) && Follows(e, t, u, spec, dirs)
    ensures FollowsAll(e, s, u, p, specs + [spec], dirs)
  {
    hide Valid, Clean, Target, Extends, NewReached;
    KeptGrows(s, t, Some(p));
    KeptGrows(t, u, Top(t));
    assert Targets(e, specs + [spec], dirs) == Targets(e, specs, dirs) + [Target(e, spec, dirs)] by {
      assert (specs + [spec])[..|specs|] == specs;
    }
    hide Kept, Targets;
    KeptTrans(s, t, u, Some(p));
    NewReachedTrans(s, t, u, p);
  }

  lemma KeptGrows(s: State, t: State, owner: Option<Path>)
    requires Kept(s, t, owner)
    ensures t.active == s.active && s.errors <= t.errors && s.order <= t.order
  {
  }

  lemma FollowNone(e: Env, s: State, p: Path, dirs: seq<string>)
    requires Valid(e, s) && Top(s) == Some(p) && p in s.imports && s.imports[p] == []
    ensures FollowsAll(e, s, s, p, [], dirs)
  {
    hide Valid;
  }

  function Visiting(s: State, p: Path, more: seq<Error>, dirs: seq<string>): State {
    Enter(s.(loaded := s.loaded + {p}, errors := s.errors + more), p, dirs)
  }

  lemma VisitingIs(s: State, p: Path, more: seq<Error>, dirs: seq<string>)
    ensures Visiting(s, p, more, dirs)
         == State(s.loaded + {p}, s.active + [p], s.out, s.errors + more, s.order, s.imports[p := []],
           s.searched[p := dirs])
  {
  }

  lemma VisitingValid(e: Env, s: State, p: Path, more: seq<Error>, dirs: seq<string>)
    requires Valid(e, s) && p !in s.active && p !in s.loaded
    requires s.active != [] ==> Edge(s.imports, s.active[|s.active| - 1], p)
    requires forall x <- more :: !x.Circular?
    ensures var m := Visiting(s, p, more, dirs);
      && Valid(e, m) && Extends(s.imports, m.imports) && p !in s.imports && p !in s.searched && m.imports[p] == []
      && (Clean(e, s) && more == [] ==> Clean(e, m))
  {
    hide Valid, Clean, CleanBut, Extends, Edge;
    LoadedValid(e, s, p, more);
    var r := s.(loaded := s.loaded + {p}, errors := s.errors + more);
    EnterValid(e, r, p, dirs);
    if CleanBut(e, r, {p}) { EnterClean(e, r, p, dirs); }
  }

  /** A first visit: the file is on the stack, its imports were followed, it is emitted. */
  lemma LoadFirst(e: Env, s: State, p: Path, specifier: string, more: seq<Error>, dirs: seq<string>, t: State)
    requires Valid(e, s) && p !in s.active && p !in s.loaded && Parsed(e, p).Some? && Acceptable(e, p, specifier)
    requires more == Complaints(e, p, specifier)
    requires s.active != [] ==> Edge(s.imports, s.active[|s.active| - 1], p)
    requires forall x <- more :: !x.Circular?
    requires FollowsAll(e, Visiting(s, p, more, dirs), t, p, Parsed(e, p).value.imports, dirs)
    ensures t.active != [] && t.active[|t.active| - 1] == p && Loads(e, s, Emit(e, t, p), p)
  {
    hide Valid, Clean, CleanBut, Edge, Targets, Parsed, Tagged, Walk, Reaches, Extends, Followed, Complaints,
        Acceptable;
    var m := Visiting(s, p, more, dirs);
    VisitingValid(e, s, p, more, dirs);
    var u := Emit(e, t, p);
    assert u.active == s.active;
    EmitValid(e, t, p);
    FirstReached(s, m, t, u, p);
    if Clean(e, s) && u.errors == s.errors {
      assert more == [];
      SilentIff(e, p, specifier);
      FollowedNow(e, t, p, specifier, dirs);
      EmitClean(e, t, p);
    }
    assert Kept(s, u, None) by { ExtendsTrans(s.imports, m.imports, t.imports); }
  }

  lemma FollowedNow(e: Env, t: State, p: Path, specifier: string, dirs: seq<string>)
    requires p in t.searched && t.searched[p] == dirs && p in t.imports && Parsed(e, p).Some?
    requires t.imports[p] == Targets(e, Parsed(e, p).value.imports, dirs)
    requires AllLead(e, Parsed(e, p).value.imports, dirs) && Acceptable(e, p, specifier) && e.files[p].diagnostics == []
    ensures Followed(e, t, p)
  {
  }

  lemma ExtendsTrans(f: Graph, g: Graph, h: Graph)
    requires Extends(f, g) && Extends(g, h)
    ensures Extends(f, h)
  {
  }

  lemma FirstReached(s: State, m: State, t: State, u: State, p: Path)
    requires NewReached(m, t, p) && m.order == s.order && u.imports == t.imports && u.order == t.order + [p]
    ensures NewReached(s, u, p)
  {
    assert Walk(t.imports, [p]);
    hide Walk;
    assert Reaches(t.imports, p, p);
  }

  lemma LoadedValid(e: Env, s: State, p: Path, more: seq<Error>)
    requires Valid(e, s) && p !in s.loaded && forall x <- more :: !x.Circular?
    ensures var r := s.(loaded := s.loaded + {p}, errors := s.errors + more);
      Valid(e, r) && p !in s.order && p !in s.imports && p !in s.searched
        && (Clean(e, s) && more == [] ==> CleanBut(e, r, {p}))
  {
    hide Distinct, Emitted;
  }

  /** A first visit that fails while reading the file. */
  lemma LoadUnread(e: Env, s: State, p: Path, more: seq<Error>)
    requires Valid(e, s) && p !in s.loaded && more != [] && forall x <- more :: !x.Circular?
    ensures Loads(e, s, s.(loaded := s.loaded + {p}, errors := s.errors + more), p)
  {
    LoadedValid(e, s, p, more);
    hide Valid, Clean;
  }

  // ---- the unit's own imports ----

  /** What loading the imports of the unit being compiled does. */
  ghost predicate Preloads(e: Env, s: State, t: State, specs: seq<string>, dirs: seq<string>) {
    && Valid(e, t) && Kept(s, t, None) && t.active == []
    && (forall i :: |s.order| <= i < |t.order| ==>
          exists k :: 0 <= k < |specs| && Reaches(t.imports, Target(e, specs[k], dirs), t.order[i]))
    && (Clean(e, s) && t.errors == s.errors ==>
          && Clean(e, t) && AllLead(e, specs, dirs)
          && forall k :: 0 <= k < |specs| ==> Target(e, specs[k], dirs) in t.order)
  }

  lemma PreloadNone(e: Env, s: State, dirs: seq<string>)
    requires Valid(e, s) && s.active == []
    ensures Preloads(e, s, s, [], dirs)
  {
  }

  lemma PreloadValid(e: Env, s: State, t: State, specs: seq<string>, dirs: seq<string>)
    requires Preloads(e, s, t, specs, dirs)
    ensures Valid(e, t)
  {
  }

  lemma PreloadMore(e: Env, s: State, t: State, u: State, specs: seq<string>, dirs: seq<string>, spec: string)
    requires Preloads(e, s, t, specs, dirs) && Follows(e, t, u, spec, dirs)
    ensures Preloads(e, s, u, specs + [spec], dirs)
  {
    hide Valid, Clean, Target, Reaches;
    KeptTrans(s, t, u, None);
    var all := specs + [spec];
    forall i | |s.order| <= i < |u.order|
      ensures exists k :: 0 <= k < |all| && Reaches(u.imports, Target(e, all[k], dirs), u.order[i])
    {
      if i < |t.order| {
        var k :| 0 <= k < |specs| && Reaches(t.imports, Target(e, specs[k], dirs), t.order[i]);
        ReachesExtends(t.imports, u.imports, Target(e, specs[k], dirs), t.order[i]);
        assert all[k] == specs[k];
      } else {
        assert all[|specs|] == spec;
      }
    }
  }

  /** From an empty record: if no error was reported, the modules reached are exactly those
      emitted, each once, each after everything it imports, with all their imports resolved
      and emitted too, and no import cycle passes through any of them. */
  lemma LoadedWithoutErrors(e: Env, s: State, t: State, specs: seq<string>, dirs: seq<string>, c: seq<Path>)
    requires s == State({}, [], [], [], [], map[], map[])
    requires Preloads(e, s, t, specs, dirs) && t.errors == []
    ensures t.loaded == (set p | p in t.order) && Distinct(t.order) && t.out == Emitted(e, t.order)
    ensures forall k :: 0 <= k < |specs| ==> Target(e, specs[k], dirs) in t.order
    ensures Topological(t.order, t.imports)
    ensures forall p <- t.order :: Followed(e, t, p) && p in t.imports && forall q <- t.imports[p] :: q in t.order
    ensures AllLead(e, specs, dirs)
    ensures |c| >= 2 && c[0] in t.order ==> !Cycle(t.imports, c)
  {
    hide Emitted, Targets, Target, Reaches, Followed;
    assert Clean(e, s);
    CleanRecord(e, t);
    if |c| >= 2 && c[0] in t.order && Walk(t.imports, c) { NoCycle(t.order, t.imports, c); }
  }

  lemma CleanRecord(e: Env, t: State)
    requires Valid(e, t) && Clean(e, t) && t.active == []
    ensures t.loaded == (set p | p in t.order)
    ensures forall p <- t.order :: p in t.imports && forall q <- t.imports[p] :: q in t.order
  {
    hide Emitted, Targets, Parsed, CyclesReal;
    assert (set p | p in t.active) == {};
    forall p, q | p in t.order && q in t.imports[p] ensures q in t.order {
      var i :| 0 <= i < |t.order| && t.order[i] == p;
      assert Edge(t.imports, t.order[i], q);
    }
  }

  /** A circular import is only reported with a real cycle of imports. */
  lemma ReportedCyclesReal(e: Env, s: State, t: State, specs: seq<string>, dirs: seq<string>, c: seq<Path>)
    requires Preloads(e, s, t, specs, dirs) && Circular(c) in t.errors
    ensures Cycle(t.imports, c)
  {
  }

  lemma Fewer(files: set<Path>, loaded: set<Path>, p: Path)
    requires p in files && p !in loaded
    ensures |files - (loaded + {p})| < |files - loaded|
  {
    assert files - loaded == (files - (loaded + {p})) + {p};
  }

  lemma FewerOrSame(files: set<Path>, before: set<Path>, after: set<Path>)
    requires before <= after
    ensures |files - after| <= |files - before|
  {
    assert files - before == (files - after) + (files * after - before);
  }

  // ---- graphs that load without an error ----

  /** Nothing goes wrong on any way of imports from here: every file is acceptable under the
      specifier it is reached by and without diagnostics, every import leads somewhere, and no
      way comes back to a module on it. */
  ghost predicate Importable(e: Env, stack: set<Path>, p: Path, specifier: string, dirs: seq<string>)
    decreases |e.files.Keys - stack|, 0
  {
    && p !in stack && Acceptable(e, p, specifier) && e.files[p].diagnostics == []
    && (Fewer(e.files.Keys, stack, p);
        AllImportable(e, stack + {p}, e.files[p].parsed.value.imports, [e.parentDir(p)] + dirs))
  }

  ghost predicate AllImportable(e: Env, stack: set<Path>, specs: seq<string>, dirs: seq<string>)
    decreases |e.files.Keys - stack|, |specs|
  {
    specs == [] ||
    var n := |specs| - 1;
    && AllImportable(e, stack, specs[..n], dirs)
    && Leads(e, specs[n], dirs) && Importable(e, stack, Target(e, specs[n], dirs), specs[n], dirs)
  }

  lemma ImportableParts(e: Env, stack: set<Path>, p: Path, specifier: string, dirs: seq<string>)
    requires Importable(e, stack, p, specifier, dirs)
    ensures p !in stack && Complaints(e, p, specifier) == [] && Acceptable(e, p, specifier) && Parsed(e, p).Some?
    ensures AllImportable(e, stack + {p}, Parsed(e, p).value.imports, [e.parentDir(p)] + dirs)
  {
    SilentIff(e, p, specifier);
    hide Complaints;
  }

  lemma LastImportable(e: Env, stack: set<Path>, specs: seq<string>, spec: string, dirs: seq<string>)
    ensures AllImportable(e, stack, specs + [spec], dirs) ==>
      && AllImportable(e, stack, specs, dirs) && Leads(e, spec, dirs)
      && Importable(e, stack, Target(e, spec, dirs), spec, dirs)
  {
    assert (specs + [spec])[..|specs|] == specs;
  }

  /** A file reached by a specifier along a search path. */
  datatype Reach = Reach(path: Path, specifier: string, dirs: seq<string>)

  /** A set of reached files closed under imports and without a cycle: all are acceptable and
      without diagnostics, their imports lead to others of lower rank. */
  ghost predicate Acyclic(e: Env, good: set<Reach>, rank: map<Path, nat>) {
    forall r <- good ::
      && r.path in rank && Acceptable(e, r.path, r.specifier) && e.files[r.path].diagnostics == []
      && var local := [e.parentDir(r.path)] + r.dirs;
         forall k :: 0 <= k < |e.files[r.path].parsed.value.imports| ==>
           Descends(e, good, rank, r.path, e.files[r.path].parsed.value.imports[k], local)
  }

  ghost predicate Descends(e: Env, good: set<Reach>, rank: map<Path, nat>, p: Path, spec: string, dirs: seq<string>) {
    var q := Target(e, spec, dirs);
    && Leads(e, spec, dirs) && Reach(q, spec, dirs) in good
    && p in rank && q in rank && rank[q] < rank[p]
  }

  /** From any file of an acyclic set nothing goes wrong. */
  lemma {:induction false} AcyclicImportable(e: Env, good: set<Reach>, rank: map<Path, nat>, stack: set<Path>, r: Reach)
    requires Acyclic(e, good, rank) && r in good
    requires forall q <- stack :: q in rank && rank[q] > rank[r.path]
    ensures Importable(e, stack, r.path, r.specifier, r.dirs)
    decreases rank[r.path], 1
  {
    Fewer(e.files.Keys, stack, r.path);
    var specs, local := e.files[r.path].parsed.value.imports, [e.parentDir(r.path)] + r.dirs;
    AllAcyclicImportable(e, good, rank, stack + {r.path}, r.path, specs, local);
  }

  lemma {:induction false} AllAcyclicImportable(e: Env, good: set<Reach>, rank: map<Path, nat>, stack: set<Path>,
      p: Path, specs: seq<string>, dirs: seq<string>)
    requires Acyclic(e, good, rank) && p in rank && forall q <- stack :: q in rank && rank[q] >= rank[p]
    requires forall k :: 0 <= k < |specs| ==> Descends(e, good, rank, p, specs[k], dirs)
    ensures AllImportable(e, stack, specs, dirs)
    decreases rank[p], 0, |specs|
  {
    if specs != [] {
      var n := |specs| - 1;
      AllAcyclicImportable(e, good, rank, stack, p, specs[..n], dirs);
      assert Descends(e, good, rank, p, specs[n], dirs);
      AcyclicImportable(e, good, rank, stack, Reach(Target(e, specs[n], dirs), specs[n], dirs));
    }
  }

  function Stack(active: seq<Path>): set<Path> {
    set p | p in active
  }

  lemma StackPush(active: seq<Path>, p: Path)
    ensures Stack(active + [p]) == Stack(active) + {p}
  {
  }

  // ---- the loader ----

  class Loader {
    const env: Env
    var loaded: set<Path>
    var active: seq<Path>
    var out: seq<Decl>
    var errors: seq<Error>
    ghost var order: seq<Path>
    ghost var imports: Graph
    ghost var searched: map<Path, seq<string>>

    constructor (env: Env)
      ensures this.env == env && Now() == State({}, [], [], [], [], map[], map[])
      ensures Valid(env, Now()) && Clean(env, Now())
    {
      this.env := env;
      loaded, active, out, errors := {}, [], [], [];
      order, imports, searched := [], map[], map[];
    }

    ghost function Now(): State
      reads this
    {
      State(loaded, active, out, errors, order, imports, searched)
    }

    ghost function Remaining(): nat
      reads this`loaded
    {
      |env.files.Keys - loaded|
    }

    /** Read, scan and parse a file and check the name it declares; diagnostics that are not
        errors are reported too. */
    method ReadModule(p: Path, specifier: string) returns (u: Option<Unit>, ghost more: seq<Error>)
      modifies this`errors
      ensures errors == old(errors) + more && more == Complaints(env, p, specifier)
      ensures u.Some? <==> Acceptable(env, p, specifier)
      ensures u.Some? ==> p in env.files && u == Parsed(env, p)
    {
      more := [];
      if p !in env.files {
        errors, more := errors + [Unreadable(p)], [Unreadable(p)];
        return None, more;
      }
      var diags, lexError, i := env.files[p].diagnostics, false, 0;
      ghost var texts := Texts(diags);
      while i < |diags|
        invariant 0 <= i <= |diags| && errors == old(errors) + more && more == Reports(texts[..i])
        invariant lexError <==> exists j :: 0 <= j < i && diags[j].isError
      {
        errors, more := errors + [Reported(diags[i].text)], more + [Reported(diags[i].text)];
        lexError := lexError || diags[i].isError;
        i := i + 1;
      }
      assert texts[..i] == texts;
      if lexError { return None, more; }
      if env.files[p].parsed == None {
        errors, more := errors + [Unparsed(p)], more + [Unparsed(p)];
        return None, more;
      }
      var ast := env.files[p].parsed.value;
      if ast.errors != [] {
        ghost var heard := more;
        var k := 0;
        while k < |ast.errors|
          invariant 0 <= k <= |ast.errors| && errors == old(errors) + more && more == heard + Reports(ast.errors[..k])
        {
          errors, more := errors + [Reported(ast.errors[k])], more + [Reported(ast.errors[k])];
          k := k + 1;
        }
        assert ast.errors[..k] == ast.errors;
        return None, more;
      }
      if ast.moduleName != "" && env.isDotted(specifier) && env.toModuleName(specifier) != ast.moduleName {
        errors, more := errors + [WrongName(p)], more + [WrongName(p)];
        return None, more;
      }
      u := Some(ast);
    }

    /** Load one file and, before it, its imports. */
    method LoadModuleFile(path: string, specifier: string, dirs: seq<string>)
      requires Valid(env, Now())
      requires active != [] ==> Edge(imports, active[|active| - 1], env.canonical(path))
      modifies this
      ensures Loads(env, old(Now()), Now(), env.canonical(path))
      ensures Importable(env, Stack(old(active)), env.canonical(path), specifier, dirs) ==> errors == old(errors)
      decreases Remaining(), 1
    {
      hide Valid, Clean, Loads, FollowsAll, Edge, Emitted, Reaches, Tagged, Parsed, Complaints, Acceptable,
          AllImportable;
      hide Importable, Leads;
      var p := env.canonical(path);
      ghost var fine := Importable(env, Stack(active), p, specifier, dirs);
      if fine { ImportableParts(env, Stack(active), p, specifier, dirs); }
      if p in active {
        CycleFound(env, Now(), p);
        errors := errors + [Circular(active[Index(active, p)..] + [p])];
        return;
      }
      if p in loaded {
        AlreadyLoaded(env, Now(), p);
        return;
      }
      loaded := loaded + {p};
      ghost var more: seq<Error>;
      var ast;
      ast, more := ReadModule(p, specifier);
      SilentIff(env, p, specifier);
      if ast == None {
        LoadUnread(env, old(Now()), p, more);
        return;
      }
      Fewer(env.files.Keys, old(loaded), p);
      Visit(p, specifier, ast.value, [env.parentDir(p)] + dirs, old(Now()), more);
    }

    /** A first visit: follow the imports with the module on the stack, then emit it. */
    method Visit(p: Path, ghost specifier: string, ast: Unit, dirs: seq<string>, ghost s: State, ghost more: seq<Error>)
      requires Valid(env, s) && p !in s.active && p !in s.loaded && Parsed(env, p) == Some(ast)
      requires Acceptable(env, p, specifier) && more == Complaints(env, p, specifier)
      requires s.active != [] ==> Edge(s.imports, s.active[|s.active| - 1], p)
      requires forall x <- more :: !x.Circular?
      requires Now() == s.(loaded := s.loaded + {p}, errors := s.errors + more)
      modifies this
      ensures Loads(env, s, Now(), p)
      ensures AllImportable(env, Stack(s.active) + {p}, ast.imports, dirs) ==> errors == old(errors)
      decreases Remaining(), 4
    {
      hide Valid, Clean, Loads, FollowsAll, Edge, Tagged, Parsed, Visiting, Emit, Extends, Complaints, Acceptable;
      hide AllImportable, Stack, CleanBut;
      VisitingValid(env, s, p, more, dirs);
      EnterModule(p, dirs, s, more);
      StackPush(s.active, p);
      FollowImports(ast.imports, dirs);
      ghost var t := Now();
      LoadFirst(env, s, p, specifier, more, dirs, t);
      EmitModule(p, ast);
    }

    method EnterModule(p: Path, dirs: seq<string>, ghost s: State, ghost more: seq<Error>)
      requires Now() == s.(loaded := s.loaded + {p}, errors := s.errors + more)
      modifies this
      ensures Now() == Visiting(s, p, more, dirs) && errors == old(errors) && loaded == old(loaded)
      ensures active == s.active + [p] && p in imports && imports[p] == []
    {
      VisitingIs(s, p, more, dirs);
      hide Visiting;
      active := active + [p];
      imports, searched := imports[p := []], searched[p := dirs];
    }

    /** The module leaves the stack, and its declarations go out under its name. */
    method EmitModule(p: Path, ast: Unit)
      requires active != [] && Parsed(env, p) == Some(ast)
      modifies this
      ensures Now() == Emit(env, old(Now()), p) && errors == old(errors)
    {
      hide Parsed, Tagged;
      active := active[..|active| - 1];
      out := out + Tagged(ast);
      order := order + [p];
    }

    /** The loop over a module's imports; the module is on top of the stack. */
    method FollowImports(specs: seq<string>, dirs: seq<string>)
      requires Valid(env, Now()) && active != []
      requires active[|active| - 1] in imports && imports[active[|active| - 1]] == []
      modifies this
      ensures FollowsAll(env, old(Now()), Now(), old(active[|active| - 1]), specs, dirs)
      ensures AllImportable(env, Stack(old(active)), specs, dirs) ==> errors == old(errors)
      decreases Remaining(), 3
    {
      ghost var p := active[|active| - 1];
      FollowNone(env, Now(), p, dirs);
      hide Valid, Clean, Follows, NewReached, Emitted, Targets, Extends, AllImportable, Importable, Leads;
      assert specs[..|specs|] == specs;
      for k := 0 to |specs|
        invariant FollowsAll(env, old(Now()), Now(), p, specs[..k], dirs)
        invariant AllImportable(env, Stack(old(active)), specs[..k], dirs) ==> errors == old(errors)
      {
        assert specs[..k + 1] == specs[..k] + [specs[k]];
        ghost var t := Now();
        FewerOrSame(env.files.Keys, old(loaded), loaded);
        Follow(specs[k], dirs);
        FollowMore(env, old(Now()), t, Now(), p, specs[..k], dirs, specs[k]);
        LastImportable(env, Stack(old(active)), specs[..k], specs[k], dirs);
      }
    }

    /** One import of the module on top of the stack, or of the unit being compiled. */
    method Follow(spec: string, dirs: seq<string>)
      requires Valid(env, Now())
      modifies this
      ensures Follows(env, old(Now()), Now(), spec, dirs) && active == old(active)
      ensures Leads(env, spec, dirs) && Importable(env, Stack(old(active)), Target(env, spec, dirs), spec, dirs)
        ==> errors == old(errors)
      decreases Remaining(), 2
    {
      hide Valid, Clean, Loads, Follows, Emitted, Reaches, Kept, Importable;
      if env.isLegacy(spec) {
        FollowFailed(env, Now(), Legacy, spec, dirs);
        errors := errors + [Legacy];
        return;
      }
      var resolved := env.resolve(spec, dirs);
      if resolved == "" {
        FollowFailed(env, Now(), Unresolved(spec), spec, dirs);
        errors := errors + [Unresolved(spec)];
        return;
      }
      ghost var q := env.canonical(resolved);
      if active != [] {
        TopKnown(env, Now());
        MeetValid(env, Now(), q);
        imports := imports[active[|active| - 1] := imports[active[|active| - 1]] + [q]];
      }
      ghost var m := Now();
      LoadModuleFile(resolved, spec, dirs);
      LoadsKept(env, m, Now(), q);
      FollowOne(env, old(Now()), m, Now(), spec, dirs);
    }

    /** Load the imports of the unit being compiled, its own directory searched first. */
    method PreloadImports(specifiers: seq<string>, importerDir: string, dirs: seq<string>)
      requires Valid(env, Now()) && active == []
      modifies this
      ensures Preloads(env, old(Now()), Now(), specifiers, if importerDir == "" then dirs else [importerDir] + dirs)
      ensures AllImportable(env, {}, specifiers, if importerDir == "" then dirs else [importerDir] + dirs)
        ==> errors == old(errors)
    {
      var localDirs := if importerDir == "" then dirs else [importerDir] + dirs;
      PreloadNone(env, Now(), localDirs);
      hide Valid, Clean, Follows, Reaches, Emitted, Preloads, AllImportable, Importable, Leads;
      assert specifiers[..|specifiers|] == specifiers;
      for k := 0 to |specifiers|
        invariant Preloads(env, old(Now()), Now(), specifiers[..k], localDirs) && active == []
        invariant AllImportable(env, {}, specifiers[..k], localDirs) ==> errors == old(errors)
      {
        assert specifiers[..k + 1] == specifiers[..k] + [specifiers[k]];
        ghost var t := Now();
        PreloadValid(env, old(Now()), t, specifiers[..k], localDirs);
        assert Stack(active) == {};
        Follow(specifiers[k], localDirs);
        PreloadMore(env, old(Now()), t, Now(), specifiers[..k], localDirs, specifiers[k]);
        LastImportable(env, {}, specifiers[..k], specifiers[k], localDirs);
      }
    }
  }
}
