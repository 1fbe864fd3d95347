/** Whole runs of local owning strings: scopes, initialisation, assignment, append, push,
    destroy, and the ways out of a function. */
module StringRuns {
  import opened Options
  import opened StringHeap

  datatype Source = Literal(bytes: seq<Byte>) | Part(of: nat, off: nat, len: nat)

  datatype Op =
    | Open
    | Zeroed(x: nat)                     // string x;
    | NewFrom(x: nat, src: Source)       // string x = string.new(src);
    | CopyInit(x: nat, y: nat)           // string x = y;
    | AssignLive(x: nat, y: nat)         // x = y;
    | AssignNew(x: nat, src: Source)     // x = string.new(src);
    | AppendTo(x: nat, src: Source)
    | PushTo(x: nat, ch: Byte)
    | DestroyIt(x: nat)
    | Close

  datatype State = State(heap: Heap, vars: map<nat, Header>, scopes: seq<seq<nat>>)

  // ---- the run as emitted ----

  /** The str view of a source. A part of a null string is the empty view. */
  function Viewed(s: State, src: Source): View {
    match src
    case Literal(bytes) => Outside(bytes)
    case Part(y, off, len) =>
      if y in s.vars && s.vars[y].ptr.Some? then Into(s.vars[y].ptr.value, off, len) else Outside([])
  }

  function Set(s: State, x: nat, p: (Heap, Header)): State {
    s.(heap := p.0, vars := s.vars[x := p.1])
  }

  /** A new local is zeroed and registered for release at the end of its scope. */
  function Declare(s: State, x: nat): State
    requires s.scopes != []
  {
    var n := |s.scopes| - 1;
    s.(vars := s.vars[x := NULL], scopes := s.scopes[n := s.scopes[n] + [x]])
  }

  /** Release the locals of a scope, the last declared first; then they are gone. */
  function Release(s: State, slots: seq<nat>): State
    decreases |slots|
  {
    if slots == [] then s
    else
      var x := slots[|slots| - 1];
      var s1 := if x in s.vars then Set(s, x, Destroy(s.heap, s.vars[x])) else s;
      Release(s1.(vars := s1.vars - {x}), slots[..|slots| - 1])
  }

  function CloseScope(s: State): State
    requires s.scopes != []
  {
    var n := |s.scopes| - 1;
    Release(s, s.scopes[n]).(scopes := s.scopes[..n])
  }

  function Has(s: State, op: Op): bool {
    match op
    case Open => true
    case Zeroed(_) => s.scopes != []
    case NewFrom(_, _) => s.scopes != []
    case CopyInit(_, y) => s.scopes != [] && y in s.vars
    case AssignLive(x, y) => x in s.vars && y in s.vars
    case AssignNew(x, _) => x in s.vars
    case AppendTo(x, _) => x in s.vars
    case PushTo(x, _) => x in s.vars
    case DestroyIt(x) => x in s.vars
    case Close => s.scopes != []
  }

  function Apply(s: State, op: Op, c: Choice): State
    requires Has(s, op)
  {
    match op
    case Open => s.(scopes := s.scopes + [[]])
    case Zeroed(x) => Declare(s, x)
    case NewFrom(x, src) => Set(Declare(s, x), x, Copy(s.heap, Viewed(s, src), c))
    case CopyInit(x, y) => Set(Declare(s, x), x, Copy(s.heap, ViewOf(s.vars[y]), c))
    case AssignLive(x, y) => Set(s, x, Assign(s.heap, s.vars[x], s.vars[y], c))
    case AssignNew(x, src) =>
      var (h, fresh_) := Copy(s.heap, Viewed(s, src), c);
      Set(s, x, AssignFresh(h, s.vars[x], fresh_))
    case AppendTo(x, src) => Set(s, x, Append(s.heap, s.vars[x], Viewed(s, src), c))
    case PushTo(x, ch) => Set(s, x, Push(s.heap, s.vars[x], ch, c))
    case DestroyIt(x) => Set(s, x, Destroy(s.heap, s.vars[x]))
    case Close => CloseScope(s)
  }

  // ---- independent values ----

  datatype Values = Values(text: map<nat, seq<Byte>>, scopes: seq<seq<nat>>)

  function Bytes(a: Values, src: Source): Option<seq<Byte>> {
    match src
    case Literal(bytes) => Some(bytes)
    case Part(y, off, len) =>
      if y in a.text && off + len <= |a.text[y]| then Some(a.text[y][off..off + len]) else None
  }

  /** The program is in scope and in bounds; a part of a string appended to that string
      repeats its beginning. */
  predicate Enabled(a: Values, op: Op) {
    match op
    case Open => true
    case Zeroed(x) => a.scopes != [] && x !in a.text
    case NewFrom(x, src) => a.scopes != [] && x !in a.text && Bytes(a, src).Some?
    case CopyInit(x, y) => a.scopes != [] && x !in a.text && y in a.text
    case AssignLive(x, y) => x in a.text && y in a.text
    case AssignNew(x, src) => x in a.text && Bytes(a, src).Some?
    case AppendTo(x, src) =>
      && x in a.text && Bytes(a, src).Some?
      && (src.Part? && src.of == x ==> a.text[x][..src.len] == a.text[x][src.off..src.off + src.len])
    case PushTo(x, _) => x in a.text
    case DestroyIt(x) => x in a.text
    case Close => a.scopes != []
  }

  function AsSet(slots: seq<nat>): set<nat> {
    set x | x in slots
  }

  function Named(a: Values, x: nat, v: seq<Byte>): Values
    requires a.scopes != []
  {
    var n := |a.scopes| - 1;
    Values(a.text[x := v], a.scopes[n := a.scopes[n] + [x]])
  }

  function Step(a: Values, op: Op): Values
    requires Enabled(a, op)
  {
    match op
    case Open => a.(scopes := a.scopes + [[]])
    case Zeroed(x) => Named(a, x, [])
    case NewFrom(x, src) => Named(a, x, Bytes(a, src).value)
    case CopyInit(x, y) => Named(a, x, a.text[y])
    case AssignLive(x, y) => a.(text := a.text[x := a.text[y]])
    case AssignNew(x, src) => a.(text := a.text[x := Bytes(a, src).value])
    case AppendTo(x, src) => a.(text := a.text[x := a.text[x] + Bytes(a, src).value])
    case PushTo(x, ch) => a.(text := a.text[x := a.text[x] + [ch]])
    case DestroyIt(x) => a.(text := a.text[x := []])
    case Close =>
      var n := |a.scopes| - 1;
      Values(a.text - AsSet(a.scopes[n]), a.scopes[..n])
  }

  // ---- the invariant ----

  ghost predicate Owned(vars: map<nat, Header>, b: nat) {
    exists x :: x in vars && vars[x].ptr == Some(b)
  }

  ghost predicate Separate(vars: map<nat, Header>) {
    forall x, y :: x in vars && y in vars && x != y ==> Apart(vars[x], vars[y])
  }

  ghost predicate Owners(h: Heap, vars: map<nat, Header>) {
    && HeapSound(h) && Separate(vars)
    && (forall x <- vars :: Owns(h, vars[x]))
    && (forall b <- h.live :: Owned(vars, b))
  }

  ghost predicate Texts(h: Heap, vars: map<nat, Header>, text: map<nat, seq<Byte>>) {
    text.Keys == vars.Keys && forall x <- vars :: Owns(h, vars[x]) && text[x] == Text(h, vars[x])
  }

  function Slots(scopes: seq<seq<nat>>): seq<nat> {
    if scopes == [] then [] else Slots(scopes[..|scopes| - 1]) + scopes[|scopes| - 1]
  }

  ghost predicate Registered(vars: set<nat>, scopes: seq<seq<nat>>) {
    && (forall x :: x in vars <==> x in Slots(scopes))
    && (forall i, j :: 0 <= i < j < |Slots(scopes)| ==> Slots(scopes)[i] != Slots(scopes)[j])
  }

  /** The state holds the given values: every string owns its own live buffer, every live
      buffer has an owner, and the locals are those registered for release. */
  ghost predicate Holds(s: State, a: Values) {
    && Owners(s.heap, s.vars) && Registered(s.vars.Keys, s.scopes) && s.scopes == a.scopes
    && Texts(s.heap, s.vars, a.text)
  }

  // ---- working on one string keeps the others ----

  lemma OtherOwns(h: Heap, s: Header, t: Heap, r: Header, text: seq<Byte>, other: Header)
    requires HeapSound(h) && Becomes(h, s, t, r, text) && Owns(h, other) && Apart(other, s)
    ensures Owns(t, other) && Text(t, other) == Text(h, other) && Apart(other, r) && Apart(r, other)
  {
  }

  lemma OthersOwn(h: Heap, vars: map<nat, Header>, x: nat, t: Heap, r: Header, text: seq<Byte>)
    requires Owners(h, vars) && x in vars && Becomes(h, vars[x], t, r, text)
    ensures forall y <- vars :: y != x ==>
      Owns(t, vars[y]) && Text(t, vars[y]) == Text(h, vars[y]) && Apart(vars[y], r) && Apart(r, vars[y])
  {
    hide HeapSound, Becomes, Apart, Owns, Text, Owned;
    forall y | y in vars && y != x
      ensures Owns(t, vars[y]) && Text(t, vars[y]) == Text(h, vars[y]) && Apart(vars[y], r) && Apart(r, vars[y])
    {
      OtherOwns(h, vars[x], t, r, text, vars[y]);
    }
  }

  lemma OwnerKept(h: Heap, vars: map<nat, Header>, x: nat, t: Heap, r: Header, text: seq<Byte>, b: nat)
    requires x in vars && Becomes(h, vars[x], t, r, text) && b in t.live
    requires b in h.live ==> Owned(vars, b)
    ensures Owned(vars[x := r], b)
  {
    hide HeapSound, OthersKept, Owns;
    var more := vars[x := r];
    if r.ptr == Some(b) {
      assert more[x].ptr == Some(b);
    } else {
      var y :| y in vars && vars[y].ptr == Some(b);
      assert more[y].ptr == Some(b);
    }
  }

  lemma SeparateSet(vars: map<nat, Header>, x: nat, r: Header)
    requires Separate(vars)
    requires forall y <- vars :: y != x ==> Apart(vars[y], r) && Apart(r, vars[y])
    ensures Separate(vars[x := r])
  {
    hide Apart;
  }

  lemma SetOwners(h: Heap, vars: map<nat, Header>, x: nat, t: Heap, r: Header, text: seq<Byte>)
    requires Owners(h, vars) && x in vars && Becomes(h, vars[x], t, r, text)
    ensures Owners(t, vars[x := r])
  {
    assert HeapSound(t) && Owns(t, r);
    OthersOwn(h, vars, x, t, r, text);
    SeparateSet(vars, x, r);
    hide HeapSound, Becomes, Apart, Owns, Text, Owned, Separate;
    forall b | b in t.live ensures Owned(vars[x := r], b) {
      OwnerKept(h, vars, x, t, r, text, b);
    }
  }

  lemma SetTexts(h: Heap, vars: map<nat, Header>, x: nat, t: Heap, r: Header, text: seq<Byte>,
      texts: map<nat, seq<Byte>>)
    requires Owners(h, vars) && Texts(h, vars, texts) && x in vars && Becomes(h, vars[x], t, r, text)
    ensures Texts(t, vars[x := r], texts[x := text])
  {
    OthersOwn(h, vars, x, t, r, text);
    assert Owns(t, r) && Text(t, r) == text;
    hide HeapSound, Becomes, Apart, Owns, Text, Owned, Owners;
  }

  lemma SetHolds(s: State, a: Values, x: nat, p: (Heap, Header), text: seq<Byte>)
    requires Holds(s, a) && x in s.vars && Becomes(s.heap, s.vars[x], p.0, p.1, text)
    ensures Holds(Set(s, x, p), a.(text := a.text[x := text]))
  {
    SetOwners(s.heap, s.vars, x, p.0, p.1, text);
    SetTexts(s.heap, s.vars, x, p.0, p.1, text, a.text);
    hide Owners, Registered, Becomes, Texts;
    assert Set(s, x, p).vars.Keys == s.vars.Keys;
  }

  // ---- every operation keeps the invariant ----

  lemma SlotsPush(scopes: seq<seq<nat>>, last: seq<nat>)
    ensures Slots(scopes + [last]) == Slots(scopes) + last
  {
    assert (scopes + [last])[..|scopes|] == scopes;
  }

  lemma DeclareRegistered(vars: set<nat>, scopes: seq<seq<nat>>, x: nat)
    requires Registered(vars, scopes) && scopes != [] && x !in vars
    ensures Registered(vars + {x}, scopes[|scopes| - 1 := scopes[|scopes| - 1] + [x]])
  {
    var n := |scopes| - 1;
    var more := scopes[n := scopes[n] + [x]];
    assert scopes == scopes[..n] + [scopes[n]] && more == scopes[..n] + [scopes[n] + [x]];
    SlotsPush(scopes[..n], scopes[n]);
    SlotsPush(scopes[..n], scopes[n] + [x]);
    assert Slots(more) == Slots(scopes) + [x];
    hide Slots;
  }

  lemma DeclareOwners(h: Heap, vars: map<nat, Header>, x: nat, texts: map<nat, seq<Byte>>)
    requires Owners(h, vars) && Texts(h, vars, texts) && x !in vars
    ensures Owners(h, vars[x := NULL]) && Texts(h, vars[x := NULL], texts[x := []])
  {
    assert Owns(h, NULL) && Text(h, NULL) == [];
    hide HeapSound, Text, Owns;
    var more := vars[x := NULL];
    forall b | b in h.live ensures Owned(more, b) {
      var y :| y in vars && vars[y].ptr == Some(b);
      assert more[y].ptr == Some(b);
    }
  }

  lemma DeclareHolds(s: State, a: Values, x: nat)
    requires Holds(s, a) && s.scopes != [] && x !in s.vars
    ensures Holds(Declare(s, x), Named(a, x, []))
  {
    hide Registered, Owners, Texts;
    DeclareRegistered(s.vars.Keys, s.scopes, x);
    DeclareOwners(s.heap, s.vars, x, a.text);
    assert s.vars.Keys + {x} == s.vars[x := NULL].Keys;
  }

  /** A view of a source reads the bytes its value has. */
  lemma ViewedReads(s: State, a: Values, src: Source)
    requires Holds(s, a) && Bytes(a, src).Some?
    ensures Read(s.heap, Viewed(s, src)) == Bytes(a, src)
  {
    hide HeapSound, Registered, Separate, Owned;
    if src.Part? {
      var y := src.of;
      assert Owns(s.heap, s.vars[y]) && a.text[y] == Text(s.heap, s.vars[y]);
      hide Owners, Texts;
      if s.vars[y].ptr.Some? {
        var block := s.heap.live[s.vars[y].ptr.value];
        assert block[..s.vars[y].len][src.off..src.off + src.len] == block[src.off..src.off + src.len];
      }
    }
  }

  lemma HoldsAt(s: State, a: Values, x: nat)
    requires Holds(s, a) && x in s.vars
    ensures HeapSound(s.heap) && Owns(s.heap, s.vars[x]) && x in a.text && Text(s.heap, s.vars[x]) == a.text[x]
  {
  }

  lemma HoldsAll(s: State, a: Values)
    requires Holds(s, a)
    ensures HeapSound(s.heap) && a.text.Keys == s.vars.Keys && a.scopes == s.scopes
    ensures forall x, y :: x in s.vars && y in s.vars && x != y ==> Apart(s.vars[x], s.vars[y])
  {
  }

  lemma NewHolds(s: State, a: Values, x: nat, v: View, bytes: seq<Byte>, c: Choice)
    requires Holds(s, a) && s.scopes != [] && a.scopes == s.scopes && x !in s.vars && Read(s.heap, v) == Some(bytes)
    ensures Holds(Set(Declare(s, x), x, Copy(s.heap, v, c)), Named(a, x, bytes))
  {
    HoldsAll(s, a);
    hide *;
    DeclareHolds(s, a, x);
    CopyBecomes(s.heap, NULL, v, c);
    DeclaredNull(s, x);
    SetHolds(Declare(s, x), Named(a, x, []), x, Copy(s.heap, v, c), bytes);
    NamedTwice(a, x, bytes);
  }

  lemma DeclaredNull(s: State, x: nat)
    requires s.scopes != []
    ensures var t := Declare(s, x); x in t.vars && t.vars[x] == NULL && t.heap == s.heap && NULL.ptr.None?
  {
  }

  lemma NamedTwice(a: Values, x: nat, bytes: seq<Byte>)
    requires a.scopes != []
    ensures Named(a, x, []).(text := Named(a, x, []).text[x := bytes]) == Named(a, x, bytes)
  {
  }

  lemma AppendHolds(s: State, a: Values, x: nat, src: Source, c: Choice)
    requires Holds(s, a) && Enabled(a, AppendTo(x, src)) && x in s.vars
    ensures Holds(Apply(s, AppendTo(x, src), c), Step(a, AppendTo(x, src)))
  {
    var v := Viewed(s, src);
    ViewedReads(s, a, src);
    HoldsAt(s, a, x);
    ViewInContents(s, a, x, src);
    AppendedBytes(s, a, x, src);
    hide *;
    AppendBecomes(s.heap, s.vars[x], v, c);
    SetHolds(s, a, x, Append(s.heap, s.vars[x], v, c), a.text[x] + Bytes(a, src).value);
    AppendIsSet(s, a, x, src, c);
  }

  lemma AppendIsSet(s: State, a: Values, x: nat, src: Source, c: Choice)
    requires Enabled(a, AppendTo(x, src)) && x in s.vars
    ensures Apply(s, AppendTo(x, src), c) == Set(s, x, Append(s.heap, s.vars[x], Viewed(s, src), c))
    ensures Step(a, AppendTo(x, src)) == a.(text := a.text[x := a.text[x] + Bytes(a, src).value])
  {
    hide Append, Viewed, Bytes;
  }

  lemma ViewInContents(s: State, a: Values, x: nat, src: Source)
    requires Holds(s, a) && Enabled(a, AppendTo(x, src)) && x in s.vars
    ensures InContents(s.vars[x], Viewed(s, src))
    ensures SelfAlias(s.vars[x], Viewed(s, src)) ==> src.Part? && src.of == x
  {
    hide Holds, HeapSound, Text, Owns;
    HoldsAll(s, a);
    if src.Part? {
      HoldsAt(s, a, src.of);
      assert |Text(s.heap, s.vars[src.of])| == s.vars[src.of].len;
      if src.of != x { assert Apart(s.vars[src.of], s.vars[x]); }
    }
  }

  lemma AppendedBytes(s: State, a: Values, x: nat, src: Source)
    requires Holds(s, a) && Enabled(a, AppendTo(x, src)) && x in s.vars && Text(s.heap, s.vars[x]) == a.text[x]
    requires SelfAlias(s.vars[x], Viewed(s, src)) ==> src.Part? && src.of == x
    requires Owns(s.heap, s.vars[x]) && Read(s.heap, Viewed(s, src)) == Bytes(a, src)
      && InContents(s.vars[x], Viewed(s, src))
    ensures Appended(s.heap, s.vars[x], Viewed(s, src)) == Bytes(a, src).value
  {
    hide Holds, HeapSound, Text, Read, Owns;
  }

  // ---- leaving a scope ----

  lemma DropOwners(h: Heap, vars: map<nat, Header>, x: nat, texts: map<nat, seq<Byte>>)
    requires Owners(h, vars) && Texts(h, vars, texts) && x in vars && vars[x] == NULL
    ensures Owners(h, vars - {x}) && Texts(h, vars - {x}, texts - {x})
  {
    hide HeapSound, Text, Owns;
    var less := vars - {x};
    forall b | b in h.live ensures Owned(less, b) {
      var y :| y in vars && vars[y].ptr == Some(b);
      assert y in less && less[y].ptr == Some(b);
    }
  }

  lemma DestroyOwners(h: Heap, vars: map<nat, Header>, x: nat, texts: map<nat, seq<Byte>>)
    requires Owners(h, vars) && Texts(h, vars, texts) && x in vars
    ensures var (t, r) := Destroy(h, vars[x]);
      Owners(t, vars - {x}) && Texts(t, vars - {x}, texts - {x})
  {
    var (t, r) := Destroy(h, vars[x]);
    DestroyBecomes(h, vars[x]);
    hide Owners, Texts, Becomes, Destroy;
    SetOwners(h, vars, x, t, r, []);
    SetTexts(h, vars, x, t, r, [], texts);
    DropOwners(t, vars[x := r], x, texts[x := []]);
    assert vars[x := r] - {x} == vars - {x} && texts[x := []] - {x} == texts - {x};
  }

  /** Releasing a list of locals frees their buffers and leaves all other strings alone. */
  lemma {:induction false} ReleaseOwners(s: State, slots: seq<nat>, texts: map<nat, seq<Byte>>)
    requires Owners(s.heap, s.vars) && Texts(s.heap, s.vars, texts)
    requires forall x <- slots :: x in s.vars
    requires forall i, j :: 0 <= i < j < |slots| ==> slots[i] != slots[j]
    ensures var t := Release(s, slots); var gone := AsSet(slots);
      && t.vars == s.vars - gone && t.scopes == s.scopes
      && Owners(t.heap, t.vars) && Texts(t.heap, t.vars, texts - gone)
    decreases |slots|
  {
    hide Owners, Texts, Destroy, HeapSound, Text, Owns, Owned, Separate;
    if slots == [] {
      assert AsSet(slots) == {} && s.vars - {} == s.vars && texts - {} == texts;
    } else {
      var n := |slots| - 1;
      var x, rest := slots[n], slots[..n];
      DestroyOwners(s.heap, s.vars, x, texts);
      var u := Set(s, x, Destroy(s.heap, s.vars[x]));
      var s1 := u.(vars := u.vars - {x});
      assert s1.vars == s.vars - {x};
      ReleaseOwners(s1, rest, texts - {x});
      LessAndLast(s.vars, slots);
      LessAndLast(texts, slots);
    }
  }

  lemma LessAndLast<T>(m: map<nat, T>, slots: seq<nat>)
    requires slots != []
    ensures var n := |slots| - 1; (m - {slots[n]}) - AsSet(slots[..n]) == m - AsSet(slots)
  {
    assert slots == slots[..|slots| - 1] + [slots[|slots| - 1]];
  }

  lemma CloseRegistered(vars: set<nat>, scopes: seq<seq<nat>>)
    requires Registered(vars, scopes) && scopes != []
    ensures var last := scopes[|scopes| - 1]; var gone := AsSet(last);
      && Registered(vars - gone, scopes[..|scopes| - 1])
      && (forall x <- last :: x in vars)
      && (forall i, j :: 0 <= i < j < |last| ==> last[i] != last[j])
  {
    var n := |scopes| - 1;
    var a, last := Slots(scopes[..n]), scopes[n];
    assert Slots(scopes) == a + last;
    hide Slots;
    forall i, j | 0 <= i < j < |last| ensures last[i] != last[j] {
      assert (a + last)[|a| + i] == last[i] && (a + last)[|a| + j] == last[j];
    }
    forall i, j | 0 <= i < j < |a| ensures a[i] != a[j] {
      assert (a + last)[i] == a[i] && (a + last)[j] == a[j];
    }
    forall x | x in a ensures x !in last {
      var i :| 0 <= i < |a| && a[i] == x;
      forall j | 0 <= j < |last| ensures last[j] != x {
        assert (a + last)[i] == x && (a + last)[|a| + j] == last[j];
      }
    }
  }

  lemma CloseHolds(s: State, a: Values)
    requires Holds(s, a) && s.scopes != []
    ensures Holds(CloseScope(s), Values(a.text - AsSet(a.scopes[|a.scopes| - 1]), a.scopes[..|a.scopes| - 1]))
  {
    var n := |s.scopes| - 1;
    CloseRegistered(s.vars.Keys, s.scopes);
    ReleaseOwners(s, s.scopes[n], a.text);
    hide Owners, Texts, Registered, Release;
    var gone := AsSet(s.scopes[n]);
    assert (s.vars - gone).Keys == s.vars.Keys - gone;
  }

  // ---- whole runs ----

  lemma OpenRegistered(vars: set<nat>, scopes: seq<seq<nat>>)
    requires Registered(vars, scopes)
    ensures Registered(vars, scopes + [[]])
  {
    SlotsPush(scopes, []);
    assert Slots(scopes) + [] == Slots(scopes);
    hide Slots;
  }

  /** Each operation of the run does to the strings what it does to independent values. */
  lemma StepHolds(s: State, a: Values, op: Op, c: Choice)
    requires Holds(s, a) && Enabled(a, op)
    ensures Has(s, op) && Holds(Apply(s, op, c), Step(a, op))
  {
    HoldsAll(s, a);
    hide Holds, HeapSound, Append, Copy, Assign, AssignFresh, Push, Destroy, Becomes, Viewed, Bytes, CloseScope;
    match op {
      case Open => OpenHolds(s, a);
      case Zeroed(x) => DeclareHolds(s, a, x);
      case NewFrom(x, src) =>
        ViewedReads(s, a, src);
        NewHolds(s, a, x, Viewed(s, src), Bytes(a, src).value, c);
      case CopyInit(x, y) =>
        HoldsAt(s, a, y);
        WholeReads(s.heap, s.vars[y]);
        NewHolds(s, a, x, ViewOf(s.vars[y]), a.text[y], c);
      case AssignLive(x, y) =>
        HoldsAt(s, a, x);
        HoldsAt(s, a, y);
        AssignBecomes(s.heap, s.vars[x], s.vars[y], c);
        SetHolds(s, a, x, Assign(s.heap, s.vars[x], s.vars[y], c), a.text[y]);
      case AssignNew(x, src) =>
        AssignNewHolds(s, a, x, src, c);
      case AppendTo(x, src) => AppendHolds(s, a, x, src, c);
      case PushTo(x, ch) =>
        HoldsAt(s, a, x);
        PushBecomes(s.heap, s.vars[x], ch, c);
        SetHolds(s, a, x, Push(s.heap, s.vars[x], ch, c), a.text[x] + [ch]);
      case DestroyIt(x) =>
        HoldsAt(s, a, x);
        DestroyBecomes(s.heap, s.vars[x]);
        SetHolds(s, a, x, Destroy(s.heap, s.vars[x]), []);
      case Close => CloseHolds(s, a);
    }
  }

  lemma OpenHolds(s: State, a: Values)
    requires Holds(s, a)
    ensures Holds(s.(scopes := s.scopes + [[]]), a.(scopes := a.scopes + [[]]))
  {
    OpenRegistered(s.vars.Keys, s.scopes);
    hide Owners, Texts, Registered;
  }

  lemma WholeReads(h: Heap, s: Header)
    requires Owns(h, s)
    ensures Read(h, ViewOf(s)) == Some(Text(h, s))
  {
  }

  lemma AssignNewHolds(s: State, a: Values, x: nat, src: Source, c: Choice)
    requires Holds(s, a) && x in s.vars && Bytes(a, src).Some?
    ensures var (h, fresh_) := Copy(s.heap, Viewed(s, src), c);
      Holds(Set(s, x, AssignFresh(h, s.vars[x], fresh_)), a.(text := a.text[x := Bytes(a, src).value]))
  {
    HoldsAt(s, a, x);
    ViewedReads(s, a, src);
    AssignFreshBecomes(s.heap, s.vars[x], Viewed(s, src), c);
    hide *;
    var (h, fresh_) := Copy(s.heap, Viewed(s, src), c);
    SetHolds(s, a, x, AssignFresh(h, s.vars[x], fresh_), Bytes(a, src).value);
  }

  datatype Event = Event(op: Op, choice: Choice)

  ghost predicate Runs(a: Values, es: seq<Event>)
    decreases |es|
  {
    es == [] || (Enabled(a, es[0].op) && Runs(Step(a, es[0].op), es[1..]))
  }

  function Final(a: Values, es: seq<Event>): Values
    requires Runs(a, es)
    decreases |es|
  {
    if es == [] then a else Final(Step(a, es[0].op), es[1..])
  }

  function Execute(s: State, es: seq<Event>): State
    decreases |es|
  {
    if es == [] || !Has(s, es[0].op) then s else Execute(Apply(s, es[0].op, es[0].choice), es[1..])
  }

  /** Any run from a state that holds some values ends in one that holds the final values:
      no block is misused, no two strings share a buffer, every string has its terminator
      and its own text, and no live buffer is without an owner. */
  lemma {:induction false} RunHolds(s: State, a: Values, es: seq<Event>)
    requires Holds(s, a) && Runs(a, es)
    ensures Holds(Execute(s, es), Final(a, es))
    decreases |es|
  {
    hide Holds, Enabled, Step, Apply, Has;
    if es != [] {
      StepHolds(s, a, es[0].op, es[0].choice);
      RunHolds(Apply(s, es[0].op, es[0].choice), Step(a, es[0].op), es[1..]);
    }
  }

  // ---- leaving the function ----

  /** Nothing, a local, a string that keeps its own buffer, or a fresh value such as
      string.new(src) is returned. */
  datatype Exit = Plain | ReturnLocal(x: nat) | ReturnCopy(x: nat) | ReturnNew(src: Source)

  predicate CanLeave(s: State, e: Exit) {
    e.Plain? || e.ReturnNew? || e.x in s.vars
  }

  /** What the language says is returned, if it is a string that exists. */
  function Returned(a: Values, e: Exit): Option<seq<Byte>> {
    match e
    case Plain => Some([])
    case ReturnLocal(x) => if x in a.text then Some(a.text[x]) else None
    case ReturnCopy(x) => if x in a.text then Some(a.text[x]) else None
    case ReturnNew(src) => Bytes(a, src)
  }

  function CloseAll(s: State): State
    decreases |s.scopes|
  {
    if s.scopes == [] then s
    else
      ReleaseScopes(s, s.scopes[|s.scopes| - 1]);
      CloseAll(CloseScope(s))
  }

  lemma {:induction false} ReleaseScopes(s: State, slots: seq<nat>)
    ensures Release(s, slots).scopes == s.scopes
    decreases |slots|
  {
    if slots != [] {
      var x := slots[|slots| - 1];
      var s1 := if x in s.vars then Set(s, x, Destroy(s.heap, s.vars[x])) else s;
      ReleaseScopes(s1.(vars := s1.vars - {x}), slots[..|slots| - 1]);
    }
  }

  /** A returned local hands over its buffer and is zeroed, a fresh value is returned as it
      is, anything else is copied; then every scope is released. */
  function Leave(s: State, e: Exit, c: Choice): (State, Header)
    requires CanLeave(s, e)
  {
    match e
    case Plain => (CloseAll(s), NULL)
    case ReturnLocal(x) => (CloseAll(s.(vars := s.vars[x := NULL])), s.vars[x])
    case ReturnCopy(x) =>
      var (h, r) := Copy(s.heap, ViewOf(s.vars[x]), c);
      (CloseAll(s.(heap := h)), r)
    case ReturnNew(src) =>
      var (h, r) := Copy(s.heap, Viewed(s, src), c);
      (CloseAll(s.(heap := h)), r)
  }

  lemma {:induction false} FreshSlot(used: set<nat>) returns (k: nat)
    ensures forall x <- used :: x < k
  {
    if used == {} {
      k := 0;
    } else {
      var x :| x in used;
      var below := FreshSlot(used - {x});
      k := if below <= x then x + 1 else below;
      assert forall y <- used :: y == x || y in used - {x};
    }
  }

  /** Releasing locals does not look at a string that is not among them. */
  lemma {:induction false} ReleaseFrame(s: State, slots: seq<nat>, k: nat, r: Header)
    requires k !in slots && k !in s.vars
    ensures Release(s.(vars := s.vars[k := r]), slots)
         == var t := Release(s, slots); t.(vars := t.vars[k := r])
    ensures k !in Release(s, slots).vars
    decreases |slots|
  {
    hide Destroy;
    if slots != [] {
      var x, rest := slots[|slots| - 1], slots[..|slots| - 1];
      var s1 := if x in s.vars then Set(s, x, Destroy(s.heap, s.vars[x])) else s;
      var s2 := s1.(vars := s1.vars - {x});
      assert (s1.vars[k := r]) - {x} == s2.vars[k := r];
      assert x in s.vars ==> s.vars[k := r][x := s1.vars[x]] == s1.vars[k := r];
      ReleaseFrame(s2, rest, k, r);
    }
  }

  /** With every scope released, only the string kept outside the locals is left. */
  lemma {:induction false} CloseAllLeaves(s: State, k: nat, r: Header, texts: map<nat, seq<Byte>>)
    requires k !in s.vars && Owners(s.heap, s.vars[k := r]) && Texts(s.heap, s.vars[k := r], texts)
    requires Registered(s.vars.Keys, s.scopes)
    ensures var t := CloseAll(s);
      Owners(t.heap, map[k := r]) && Texts(t.heap, map[k := r], map[k := texts[k]])
    decreases |s.scopes|
  {
    hide Owners, Texts, Release;
    if s.scopes == [] {
      assert Slots(s.scopes) == [];
      assert s.vars.Keys == {};
      assert s.vars[k := r] == map[k := r];
      TextsKeys(s.heap, s.vars[k := r], texts);
      assert texts == map[k := texts[k]];
    } else {
      var n := |s.scopes| - 1;
      var slots := s.scopes[n];
      var all := s.(vars := s.vars[k := r]);
      CloseRegistered(s.vars.Keys, s.scopes);
      hide Registered;
      ReleaseOwners(all, slots, texts);
      ReleaseFrame(s, slots, k, r);
      ReleaseScopes(s, slots);
      var t := CloseScope(s);
      var gone := AsSet(slots);
      assert all.vars - gone == (s.vars - gone)[k := r];
      assert t.vars == s.vars - gone by { ReleaseVars(s, slots, k, r); }
      TextsKeys(s.heap, s.vars[k := r], texts);
      CloseAllLeaves(t, k, r, texts - gone);
    }
  }

  lemma TextsKeys(h: Heap, vars: map<nat, Header>, texts: map<nat, seq<Byte>>)
    requires Texts(h, vars, texts)
    ensures texts.Keys == vars.Keys
  {
  }

  lemma {:induction false} ReleaseVars(s: State, slots: seq<nat>, k: nat, r: Header)
    ensures Release(s, slots).vars == s.vars - AsSet(slots)
    decreases |slots|
  {
    hide Destroy;
    if slots == [] {
      assert AsSet(slots) == {} && s.vars - {} == s.vars;
    } else {
      var x, rest := slots[|slots| - 1], slots[..|slots| - 1];
      var s1 := if x in s.vars then Set(s, x, Destroy(s.heap, s.vars[x])) else s;
      var s2 := s1.(vars := s1.vars - {x});
      ReleaseVars(s2, rest, k, r);
      assert AsSet(slots) == AsSet(rest) + {x} by { assert slots == rest + [x]; }
      assert s2.vars == s.vars - {x} && (s.vars - {x}) - AsSet(rest) == s.vars - AsSet(slots);
    }
  }

  /** Entry x moves to the new key k and leaves `rest` behind. */
  function Moved<T>(m: map<nat, T>, x: nat, k: nat, rest: T): map<nat, T>
    requires x in m
  {
    m[x := rest][k := m[x]]
  }

  /** Taking the buffer out of a local, or copying it, before the scopes are released. */
  lemma TakenTexts(h: Heap, vars: map<nat, Header>, x: nat, k: nat, texts: map<nat, seq<Byte>>)
    requires Texts(h, vars, texts) && x in vars && k !in vars
    ensures x in texts && Texts(h, Moved(vars, x, k, NULL), Moved(texts, x, k, []))
  {
    assert Owns(h, NULL) && Text(h, NULL) == [];
    hide Text, Owns;
  }

  lemma TakenSeparate(vars: map<nat, Header>, x: nat, k: nat)
    requires Separate(vars) && x in vars && k !in vars
    ensures Separate(Moved(vars, x, k, NULL))
  {
    SeparateSet(vars, x, NULL);
    SeparateSet(vars[x := NULL], k, vars[x]);
  }

  lemma TakenOut(h: Heap, vars: map<nat, Header>, x: nat, k: nat, texts: map<nat, seq<Byte>>)
    requires Owners(h, vars) && Texts(h, vars, texts) && x in vars && k !in vars && x in texts
    ensures Owners(h, Moved(vars, x, k, NULL))
    ensures Texts(h, Moved(vars, x, k, NULL), Moved(texts, x, k, []))
  {
    hide HeapSound, Text, Owns, Owned, Separate;
    TakenSeparate(vars, x, k);
    TakenTexts(h, vars, x, k, texts);
    var more := Moved(vars, x, k, NULL);
    assert forall y <- more :: Owns(h, more[y]);
    hide Texts;
    forall b | b in h.live ensures Owned(more, b) {
      TakenOwned(vars, x, k, b);
    }
  }

  lemma TakenOwned(vars: map<nat, Header>, x: nat, k: nat, b: nat)
    requires x in vars && k !in vars && Owned(vars, b)
    ensures Owned(Moved(vars, x, k, NULL), b)
  {
    var more := Moved(vars, x, k, NULL);
    var y :| y in vars && vars[y].ptr == Some(b);
    assert more[if y == x then k else y].ptr == Some(b);
  }

  lemma CopiedOut(h: Heap, vars: map<nat, Header>, v: View, bytes: seq<Byte>, k: nat, texts: map<nat, seq<Byte>>,
      c: Choice)
    requires Owners(h, vars) && Texts(h, vars, texts) && k !in vars && Read(h, v) == Some(bytes)
    ensures var (t, r) := Copy(h, v, c); Owners(t, vars[k := r]) && Texts(t, vars[k := r], texts[k := bytes])
  {
    OwnersSound(h, vars);
    hide *;
    DeclareOwners(h, vars, k, texts);
    CopyBecomes(h, NULL, v, c);
    var (t, r) := Copy(h, v, c);
    NullAt(vars, k);
    SetOwners(h, vars[k := NULL], k, t, r, bytes);
    SetTexts(h, vars[k := NULL], k, t, r, bytes, texts[k := []]);
    SetTwice(vars, k, NULL, r);
    SetTwice(texts, k, [], bytes);
  }

  lemma SetTwice<T>(m: map<nat, T>, k: nat, a: T, b: T)
    ensures m[k := a][k := b] == m[k := b]
  {
  }

  lemma OwnersSound(h: Heap, vars: map<nat, Header>)
    requires Owners(h, vars)
    ensures HeapSound(h)
  {
  }

  lemma NullAt(vars: map<nat, Header>, k: nat)
    ensures vars[k := NULL][k] == NULL && NULL.ptr == None
  {
  }

  ghost predicate LeavesOnly(h: Heap, r: Header, text: seq<Byte>) {
    && HeapSound(h) && Owns(h, r) && Text(h, r) == text
    && forall b :: b in h.live <==> r.ptr == Some(b)
  }

  lemma OnlyOne(h: Heap, k: nat, r: Header, text: seq<Byte>)
    requires Owners(h, map[k := r]) && Texts(h, map[k := r], map[k := text])
    ensures LeavesOnly(h, r, text)
  {
    assert map[k := r][k] == r;
    hide HeapSound, Text;
    forall b | b in h.live ensures r.ptr == Some(b) {
      assert Owned(map[k := r], b);
    }
  }

  /** Leaving the function from any state: the heap was never misused, every block ever
      allocated is freed exactly once or is the returned value's own, and the returned value
      has the text of the string returned. */
  lemma LeaveLeavesOnly(s: State, a: Values, e: Exit, c: Choice)
    requires Holds(s, a) && Returned(a, e).Some?
    ensures CanLeave(s, e)
    ensures var (t, r) := Leave(s, e, c); LeavesOnly(t.heap, r, Returned(a, e).value)
  {
    var k := FreshSlot(s.vars.Keys);
    assert k !in s.vars;
    hide Owners, Texts, Registered, CloseAll, Copy, Viewed, Bytes;
    TextsKeys(s.heap, s.vars, a.text);
    var (t, r) := Leave(s, e, c);
    match e {
      case Plain =>
        DeclareOwners(s.heap, s.vars, k, a.text);
        CloseAllLeaves(s, k, NULL, a.text[k := []]);
        OnlyOne(t.heap, k, NULL, []);
      case ReturnLocal(x) =>
        var s1 := s.(vars := s.vars[x := NULL]);
        TakenOut(s.heap, s.vars, x, k, a.text);
        assert s1.vars.Keys == s.vars.Keys;
        CloseAllLeaves(s1, k, r, a.text[x := []][k := a.text[x]]);
        OnlyOne(t.heap, k, r, a.text[x]);
      case ReturnCopy(x) =>
        HoldsAt(s, a, x);
        WholeReads(s.heap, s.vars[x]);
        LeaveWithCopy(s, a, ViewOf(s.vars[x]), a.text[x], k, c);
      case ReturnNew(src) =>
        ViewedReads(s, a, src);
        LeaveWithCopy(s, a, Viewed(s, src), Bytes(a, src).value, k, c);
    }
  }

  /** A buffer made on the way out is all that is left. */
  lemma LeaveWithCopy(s: State, a: Values, v: View, bytes: seq<Byte>, k: nat, c: Choice)
    requires Holds(s, a) && Read(s.heap, v) == Some(bytes) && k !in s.vars
    ensures var (h, r) := Copy(s.heap, v, c); LeavesOnly(CloseAll(s.(heap := h)).heap, r, bytes)
  {
    hide Owners, Texts, Registered, CloseAll, Copy, Read;
    var (h, r) := Copy(s.heap, v, c);
    CopiedOut(s.heap, s.vars, v, bytes, k, a.text, c);
    CloseAllLeaves(s.(heap := h), k, r, a.text[k := bytes]);
    OnlyOne(CloseAll(s.(heap := h)).heap, k, r, bytes);
  }

  const EMPTY: State := State(Heap(map[], [], 0, true), map[], [])

  /** Any function body over local strings, from the empty heap to any of its exits. */
  lemma WholeFunction(es: seq<Event>, e: Exit, c: Choice)
    requires Runs(Values(map[], []), es) && Returned(Final(Values(map[], []), es), e).Some?
    ensures var s := Execute(EMPTY, es);
      && CanLeave(s, e)
      && var (t, r) := Leave(s, e, c);
        LeavesOnly(t.heap, r, Returned(Final(Values(map[], []), es), e).value)
  {
    EmptyHolds();
    hide *;
    RunHolds(EMPTY, Values(map[], []), es);
    LeaveLeavesOnly(Execute(EMPTY, es), Final(Values(map[], []), es), e, c);
  }

  lemma EmptyHolds()
    ensures Holds(EMPTY, Values(map[], []))
  {
    assert Slots([]) == [];
  }
}
