/** Where the aggregate copy and release meet their purpose and where they do not. */
module AggregateLimits {
  import opened StringHeap
  import opened StringAggregates
  import opened AggregateFaults
  import opened AggregateTheorem
  import opened AggregateWitness

  // ---- when the walk fits ----

  /** The destination shows what the source shows and shares no buffer with it; what it had is
      kept by it or freed once; the source and all else stay as they were. */
  ghost predicate Independent(h: Heap, dst: Val, src: Val, t: Ty, g: Heap, r: Val) {
    && HeapSound(g) && Typed(r, t) && Good(g, r) && Good(g, src) && Good(h, src)
    && Seen(g, r) == Seen(h, src) == Seen(g, src) && Ptrs(r) !! Ptrs(src)
    && (forall b <- Ptrs(dst) :: b in Ptrs(r) || (b !in g.live && b in g.freed))
    && (forall b <- g.live :: b in h.live || b in Ptrs(r))
  }

  /** Assignment between different values, and initialisation of a destination whose strings
      are null. */
  lemma AssignIndependent(h: Heap, dst: Val, src: Val, t: Ty, u: Ty, assign: bool, c: Choice)
    requires Ready(h, dst, src, u, assign) && Fits(t, u, Copying)
    ensures var (g, r) := CopyValue(h, dst, src, t, assign, c); Independent(h, dst, src, u, g, r)
  {
    var (g, r) := CopyValue(h, dst, src, t, assign, c);
    ValueCopied(h, dst, src, t, u, assign, c);
    PtrsLive(h, dst);
    PtrsLive(h, src);
    hide CopyValue, Typed, HasString, Fits;
    Kept(h, Ptrs(dst), g, Ptrs(r), src);
  }

  /** Assigning a value to itself changes nothing. */
  lemma {:induction false} AssignSelf(h: Heap, v: Val, t: Ty, u: Ty, c: Choice)
    requires Typed(v, u) && Fits(t, u, Copying)
    ensures CopyValue(h, v, v, t, true, c) == (h, v)
    decreases v, 2
  {
    if !t.Str? && HasString(t) { AssignSelfAggregate(h, v, t, u, c); }
  }

  lemma {:induction false} AssignSelfAggregate(h: Heap, v: Val, t: Ty, u: Ty, c: Choice)
    requires Typed(v, u) && Fits(t, u, Copying) && HasString(t) && !t.Str?
    ensures CopyAggregate(h, v, v, t, true, c) == (h, v)
    decreases v, 1
  {
    match t
    case Scalar =>
    case Struct(_, fields, _) => AssignSelfAll(h, v.vs, fields, Slots(u), c);
    case Class(base, fields, _) =>
      if base.None? {
        AssignSelfAll(h, v.vs, fields, Slots(u), c);
      } else {
        if BaseWalked(base.value) {
          AssignSelfAggregate(h, v.vs.head, base.value, Slots(u).head, c);
        } else {
          BaseLeftAlone(h, v.vs.head, v.vs.head, base.value, true, c);
        }
        AssignSelfAll(h, v.vs.tail, fields, Slots(u).tail, c);
        assert CopyDerived(h, v, v, base.value, fields, true, c) == (h, Items(More(v.vs.head, v.vs.tail)));
      }
    case Array(elem, n) =>
      EachIsAll(elem, n, Slots(u));
      AssignSelfAll(h, v.vs, Repeat(elem, n), Slots(u), c);
    case Optional(elem) => AssignSelf(h, v.v, elem, u.elem, c);
    case Result(s, e) =>
      AssignSelf(h, v.v, s, u.success, c);
      AssignSelf(h, v.e, e, u.error, c);
  }

  lemma {:induction false} AssignSelfAll(h: Heap, vs: Vals, ts: Tys, us: Tys, c: Choice)
    requires TypedAll(vs, us) && FitsAll(ts, us, Copying)
    ensures CopyItems(h, vs, vs, ts, true, c) == (h, vs)
    decreases vs, 0
  {
    if ts.Cons? {
      AssignSelf(h, vs.head, ts.head, us.head, c);
      AssignSelfAll(h, vs.tail, ts.tail, us.tail, c);
    }
  }

  // ---- when it does not ----

  /** The copy went wrong: an illegal access, a value that shows something else than the
      source, or a buffer with two owners. */
  ghost predicate Broken(g: Heap, r: Val, src: Val) {
    !g.ok || Outline(r) != Outline(src) || !(Ptrs(r) !! Ptrs(src))
  }

  ghost predicate AllBroken(g: Heap, rs: Vals, srcs: Vals) {
    !g.ok || Outlines(rs) != Outlines(srcs) || !(AllPtrs(rs) !! AllPtrs(srcs))
  }

  lemma HeadBroken(g: Heap, r: Val, x: Val, g1: Heap, rs: Vals, xs: Vals)
    requires Broken(g, r, x) && Later(g, g1)
    ensures AllBroken(g1, More(r, rs), More(x, xs))
  {
    ConsSame(Outline(r), Outline(x), Outlines(rs), Outlines(xs));
  }

  lemma TailBroken(r: Val, x: Val, g: Heap, rs: Vals, xs: Vals)
    requires AllBroken(g, rs, xs)
    ensures AllBroken(g, More(r, rs), More(x, xs))
  {
    ConsSame(Outline(r), Outline(x), Outlines(rs), Outlines(xs));
  }

  /** Blocks a change does not concern stay owned. */
  lemma OneStays(h: Heap, v: Val, g: Heap, now: set<nat>)
    requires HeapSound(h) && Owns(h, ONE) && Turns(h, Ptrs(v), g, now) && Ptrs(v) == {}
    ensures HeapSound(g) && Owns(g, ONE)
  {
  }

  lemma BlankReady(h: Heap, u: Ty, assign: bool)
    requires HeapSound(h)
    ensures Ready(h, Blank(u), Blank(u), u, assign) && Ptrs(Blank(u)) == {}
  {
    BlankEmpty(h, u);
  }

  /** A plain store of strings gives their buffers a second owner. */
  lemma PlainBreaks(h: Heap, u: Ty)
    requires Owns(h, ONE) && Holds(u, Releasing)
    ensures Broken(h, Mark(u, Releasing), Mark(u, Releasing))
  {
    MarkMarked(h, u, Releasing);
  }

  // How the walk over a list unfolds.

  predicate Walks(t: Ty, ts: Tys) {
    (t.Array? && ts == Repeat(t.elem, t.size)) || (t.Struct? && ts == t.fields)
    || (t.Class? && t.base.None? && ts == t.fields)
  }

  lemma CopyUnfolds(h: Heap, dst: Val, src: Val, t: Ty, ts: Tys, assign: bool, c: Choice)
    requires HasString(t) && Walks(t, ts)
    ensures CopyValue(h, dst, src, t, assign, c) == CopySlots(h, dst, src, ts, assign, c)
  {
    hide CopySlots;
    assert CopyValue(h, dst, src, t, assign, c) == CopyAggregate(h, dst, src, t, assign, c);
  }

  lemma ReleaseUnfolds(h: Heap, v: Val, t: Ty, ts: Tys)
    requires HasString(t) && Walks(t, ts)
    ensures Release(h, v, t) == ReleaseSlots(h, v, ts)
  {
    hide ReleaseSlots;
    assert Release(h, v, t) == ReleaseAggregate(h, v, t);
  }

  lemma DerivedUnfolds(h: Heap, dst: Val, src: Val, t: Ty, assign: bool, c: Choice)
    requires HasString(t) && t.Class? && t.base.Some?
    ensures CopyValue(h, dst, src, t, assign, c) == CopyDerived(h, dst, src, t.base.value, t.fields, assign, c)
    ensures Release(h, src, t) == ReleaseDerived(h, src, t.base.value, t.fields)
  {
    hide CopyDerived, ReleaseDerived;
    assert CopyValue(h, dst, src, t, assign, c) == CopyAggregate(h, dst, src, t, assign, c);
    assert Release(h, src, t) == ReleaseAggregate(h, src, t);
  }

  lemma {:induction false} CopyBreaks(h: Heap, t: Ty, u: Ty, assign: bool, c: Choice)
    requires HeapSound(h) && Owns(h, ONE) && !Fits(t, u, Copying)
    ensures var src := Culprit(t, u, Copying); var (g, r) := CopyValue(h, Blank(u), src, t, assign, c);
      Broken(g, r, src)
    decreases t, 3
  {
    if !HasString(t) {
      PlainBreaks(h, u);
    } else {
      AggregateBreaks(h, t, u, assign, c);
    }
  }

  lemma {:induction false} AggregateBreaks(h: Heap, t: Ty, u: Ty, assign: bool, c: Choice)
    requires HeapSound(h) && Owns(h, ONE) && !Fits(t, u, Copying) && HasString(t)
    ensures var src := Culprit(t, u, Copying); var (g, r) := CopyValue(h, Blank(u), src, t, assign, c);
      Broken(g, r, src)
    decreases t, 2
  {
    match t
    case Struct(_, _, _) => SlotsBreak(h, t, u, assign, c);
    case Class(_, _, _) => ClassBreaks(h, t, u, assign, c);
    case Array(_, _) => SlotsBreak(h, t, u, assign, c);
    case Optional(e) => if u.Optional? { CopyBreaks(h, e, u.elem, assign, c); }
    case Result(_, _) => if u.Result? { ResultBreaks(h, t, u, assign, c); }
    case _ =>
  }

  lemma {:induction false} SlotsBreak(h: Heap, t: Ty, u: Ty, assign: bool, c: Choice)
    requires HeapSound(h) && Owns(h, ONE) && !Fits(t, u, Copying) && HasString(t) && (t.Struct? || t.Array?)
    ensures var src := Culprit(t, u, Copying); var (g, r) := CopyValue(h, Blank(u), src, t, assign, c);
      Broken(g, r, src)
    decreases t, 1
  {
    var ts := if t.Struct? then t.fields else Repeat(t.elem, t.size);
    CopyUnfolds(h, Blank(u), Culprit(t, u, Copying), t, ts, assign, c);
    hide CopyValue, CopyAggregate;
    if Listed(u) {
      BlankSlots(u);
      if t.Struct? {
        CopyAllBreaks(h, t.fields, Slots(u), assign, c);
      } else {
        CopyEachBreaks(h, t.elem, t.size, Slots(u), assign, c);
      }
    }
  }

  lemma {:induction false} ResultBreaks(h: Heap, t: Ty, u: Ty, assign: bool, c: Choice)
    requires HeapSound(h) && Owns(h, ONE) && !Fits(t, u, Copying) && HasString(t) && t.Result? && u.Result?
    ensures var src := Culprit(t, u, Copying); var (g, r) := CopyValue(h, Blank(u), src, t, assign, c);
      Broken(g, r, src)
    decreases t, 1
  {
    if !Fits(t.success, u.success, Copying) {
      CopyBreaks(h, t.success, u.success, assign, c);
      OkBreaks(h, t, u, Culprit(t.success, u.success, Copying), assign, c);
    } else {
      CopyBreaks(h, t.error, u.error, assign, c);
    }
  }

  /** The success side went wrong; releasing the error side mends nothing. */
  lemma OkBreaks(h: Heap, t: Ty, u: Ty, x: Val, assign: bool, c: Choice)
    requires t.Result? && u.Result? && HasString(t)
    requires var (g, r) := CopyValue(h, Blank(u.success), x, t.success, assign, c); Broken(g, r, x)
    ensures var src := Res(true, x, Blank(u.error));
      var (g, r) := CopyValue(h, Blank(u), src, t, assign, c); Broken(g, r, src)
  {
    var (g, r) := CopyValue(h, Blank(u.success), x, t.success, assign, c);
    ReleaseLater(g, Blank(u.error), t.error);
    var (g1, o) := Release(g, Blank(u.error), t.error);
    var src := Res(true, x, Blank(u.error));
    assert CopyValue(h, Blank(u), src, t, assign, c) == CopyAggregate(h, Blank(u), src, t, assign, c);
    assert CopyAggregate(h, Blank(u), src, t, assign, c) == (g1, Res(true, r, o));
  }

  lemma {:induction false} ClassBreaks(h: Heap, t: Ty, u: Ty, assign: bool, c: Choice)
    requires HeapSound(h) && Owns(h, ONE) && !Fits(t, u, Copying) && HasString(t) && t.Class?
    ensures var src := Culprit(t, u, Copying); var (g, r) := CopyValue(h, Blank(u), src, t, assign, c);
      Broken(g, r, src)
    decreases t, 1
  {
    if t.base.None? {
      CopyUnfolds(h, Blank(u), Culprit(t, u, Copying), t, t.fields, assign, c);
      if Listed(u) {
        BlankSlots(u);
        CopyAllBreaks(h, t.fields, Slots(u), assign, c);
      }
    } else {
      DerivedUnfolds(h, Blank(u), Culprit(t, u, Copying), t, assign, c);
      if Listed(u) {
        BlankSlots(u);
        if Slots(u).Cons? { DerivedBreaks(h, t, u, assign, c); }
      }
    }
  }

  lemma BaseIsValue(h: Heap, dst: Val, src: Val, base: Ty, assign: bool, c: Choice)
    requires BaseWalked(base)
    ensures CopyBase(h, dst, src, base, assign, c) == CopyValue(h, dst, src, base, assign, c)
    ensures ReleaseBase(h, src, base) == Release(h, src, base)
  {
    hide CopyAggregate, ReleaseAggregate;
  }

  lemma {:induction false} DerivedBreaks(h: Heap, t: Ty, u: Ty, assign: bool, c: Choice)
    requires HeapSound(h) && Owns(h, ONE) && !Fits(t, u, Copying) && HasString(t) && t.Class? && t.base.Some?
    requires Listed(u) && Slots(u).Cons?
    ensures var src := Culprit(t, u, Copying);
      var (g, r) := CopyDerived(h, Items(Blanks(Slots(u))), src, t.base.value, t.fields, assign, c); Broken(g, r, src)
    decreases t, 0
  {
    var b, us := t.base.value, Slots(u);
    var src := Culprit(t, u, Copying);
    var (g, x) := CopyBase(h, Blank(us.head), src.vs.head, b, assign, c);
    var (g1, xs) := CopyItems(g, Blanks(us.tail), src.vs.tail, t.fields, assign, c);
    CopyItemsLater(g, Blanks(us.tail), src.vs.tail, t.fields, assign, c);
    if BaseWalked(b) && !Fits(b, us.head, Copying) {
      CopyBreaks(h, b, us.head, assign, c);
      BaseIsValue(h, Blank(us.head), src.vs.head, b, assign, c);
      HeadBroken(g, x, src.vs.head, g1, xs, src.vs.tail);
    } else if !BaseWalked(b) && Holds(us.head, Copying) {
      MarkMarked(h, us.head, Copying);
      BaseLeftAlone(h, Blank(us.head), src.vs.head, b, assign, c);
      HeadBroken(g, x, src.vs.head, g1, xs, src.vs.tail);
    } else {
      BlankReady(h, us.head, assign);
      BaseCopied(h, Blank(us.head), Blank(us.head), b, us.head, assign, c);
      OneStays(h, Blank(us.head), g, Ptrs(x));
      CopyAllBreaks(g, t.fields, us.tail, assign, c);
      TailBroken(x, src.vs.head, g1, xs, src.vs.tail);
    }
  }

  lemma {:induction false} CopyAllBreaks(h: Heap, ts: Tys, us: Tys, assign: bool, c: Choice)
    requires HeapSound(h) && Owns(h, ONE) && !FitsAll(ts, us, Copying)
    ensures var srcs := CulpritAll(ts, us, Copying);
      var (g, rs) := CopyItems(h, Blanks(us), srcs, ts, assign, c); AllBroken(g, rs, srcs)
    decreases ts, 0
  {
    if ts.Nil? {
      MarksMarked(h, us, Copying);
    } else if us.Cons? {
      var srcs := CulpritAll(ts, us, Copying);
      var (g, r) := CopyValue(h, Blank(us.head), srcs.head, ts.head, assign, c);
      var (g1, rs) := CopyItems(g, Blanks(us.tail), srcs.tail, ts.tail, assign, c);
      if !Fits(ts.head, us.head, Copying) {
        CopyBreaks(h, ts.head, us.head, assign, c);
        CopyItemsLater(g, Blanks(us.tail), srcs.tail, ts.tail, assign, c);
        HeadBroken(g, r, srcs.head, g1, rs, srcs.tail);
      } else {
        BlankReady(h, us.head, assign);
        ValueCopied(h, Blank(us.head), Blank(us.head), ts.head, us.head, assign, c);
        OneStays(h, Blank(us.head), g, Ptrs(r));
        CopyAllBreaks(g, ts.tail, us.tail, assign, c);
        TailBroken(r, srcs.head, g1, rs, srcs.tail);
      }
    }
  }

  lemma {:induction false} CopyEachBreaks(h: Heap, t: Ty, n: nat, us: Tys, assign: bool, c: Choice)
    requires HeapSound(h) && Owns(h, ONE) && !FitsEach(t, n, us, Copying)
    ensures var srcs := CulpritEach(t, n, us, Copying);
      var (g, rs) := CopyItems(h, Blanks(us), srcs, Repeat(t, n), assign, c); AllBroken(g, rs, srcs)
    decreases t, 4 + n
  {
    if n == 0 {
      MarksMarked(h, us, Copying);
    } else if us.Cons? {
      var srcs, ts := CulpritEach(t, n, us, Copying), Repeat(t, n - 1);
      var (g, r) := CopyValue(h, Blank(us.head), srcs.head, t, assign, c);
      var (g1, rs) := CopyItems(g, Blanks(us.tail), srcs.tail, ts, assign, c);
      if !Fits(t, us.head, Copying) {
        CopyBreaks(h, t, us.head, assign, c);
        CopyItemsLater(g, Blanks(us.tail), srcs.tail, ts, assign, c);
        HeadBroken(g, r, srcs.head, g1, rs, srcs.tail);
      } else {
        BlankReady(h, us.head, assign);
        ValueCopied(h, Blank(us.head), Blank(us.head), t, us.head, assign, c);
        OneStays(h, Blank(us.head), g, Ptrs(r));
        CopyEachBreaks(g, t, n - 1, us.tail, assign, c);
        TailBroken(r, srcs.head, g1, rs, srcs.tail);
      }
    }
  }

  ghost predicate CopyFaithful(h: Heap, dst: Val, src: Val, t: Ty, assign: bool, c: Choice) {
    var (g, r) := CopyValue(h, dst, src, t, assign, c);
    Copied(h, dst, src, t, g, r) && Ptrs(r) !! Ptrs(src)
  }

  /** Copying keeps the content and gives the destination buffers of its own, for all values,
      exactly when the walk at the type fits the type. */
  lemma AssignFaithfulIff(t: Ty, assign: bool, c: Choice)
    ensures (forall h, dst, src :: Ready(h, dst, src, t, assign) ==> CopyFaithful(h, dst, src, t, assign, c))
       <==> Fits(t, t, Copying)
  {
    if Fits(t, t, Copying) {
      forall h, dst, src | Ready(h, dst, src, t, assign) ensures CopyFaithful(h, dst, src, t, assign, c) {
        ValueCopied(h, dst, src, t, t, assign, c);
        AssignIndependent(h, dst, src, t, t, assign, c);
      }
    } else {
      CulpritUnfaithful(t, assign, c);
    }
  }

  lemma CulpritUnfaithful(t: Ty, assign: bool, c: Choice)
    requires !Fits(t, t, Copying)
    ensures var src := Culprit(t, t, Copying);
      Ready(HEAP, Blank(t), src, t, assign) && !CopyFaithful(HEAP, Blank(t), src, t, assign, c)
  {
    var src := Culprit(t, t, Copying);
    var (g, r) := CopyValue(HEAP, Blank(t), src, t, assign, c);
    BlankEmpty(HEAP, t);
    CulpritGood(HEAP, t, t, Copying);
    CopyBreaks(HEAP, t, t, assign, c);
    hide CopyValue, Culprit, Fits;
    if CopyFaithful(HEAP, Blank(t), src, t, assign, c) {
      SeenOutline(g, r, HEAP, src);
      assert false;
    }
  }

  // ---- releasing ----

  lemma {:induction false} ReleaseBreaks(h: Heap, t: Ty, u: Ty)
    requires HeapSound(h) && Owns(h, ONE) && !Fits(t, u, Releasing)
    ensures var (g, r) := Release(h, Culprit(t, u, Releasing), t); !g.ok || Ptrs(r) != {}
    decreases t, 2
  {
    if !HasString(t) {
      MarkMarked(h, u, Releasing);
    } else {
      match t
      case Scalar =>
      case Str =>
      case Struct(_, fields, _) =>
        ReleaseUnfolds(h, Culprit(t, u, Releasing), t, fields);
        if Listed(u) { ReleaseAllBreaks(h, fields, Slots(u)); }
      case Class(_, _, _) => ReleaseClassBreaks(h, t, u);
      case Array(elem, n) =>
        ReleaseUnfolds(h, Culprit(t, u, Releasing), t, Repeat(elem, n));
        if Listed(u) { ReleaseEachBreaks(h, elem, n, Slots(u)); }
      case Optional(e) => if u.Optional? { ReleaseBreaks(h, e, u.elem); }
      case Result(s, e) =>
        if u.Result? {
          if !Fits(s, u.success, Releasing) { ReleaseBreaks(h, s, u.success); } else { ReleaseBreaks(h, e, u.error); }
        }
    }
  }

  lemma {:induction false} ReleaseClassBreaks(h: Heap, t: Ty, u: Ty)
    requires HeapSound(h) && Owns(h, ONE) && !Fits(t, u, Releasing) && HasString(t) && t.Class?
    ensures var (g, r) := Release(h, Culprit(t, u, Releasing), t); !g.ok || Ptrs(r) != {}
    decreases t, 1
  {
    var us, v := Slots(u), Culprit(t, u, Releasing);
    if t.base.None? {
      ReleaseUnfolds(h, v, t, t.fields);
      if Listed(u) { ReleaseAllBreaks(h, t.fields, us); }
    } else {
      DerivedUnfolds(h, v, v, t, true, Choice(true, 0));
      if Listed(u) {
        BlankSlots(u);
        if us.Cons? { ReleaseDerivedBreaks(h, t, u); }
      }
    }
  }

  lemma {:induction false} ReleaseDerivedBreaks(h: Heap, t: Ty, u: Ty)
    requires HeapSound(h) && Owns(h, ONE) && !Fits(t, u, Releasing) && HasString(t) && t.Class? && t.base.Some?
    requires Listed(u) && Slots(u).Cons?
    ensures var (g, r) := ReleaseDerived(h, Culprit(t, u, Releasing), t.base.value, t.fields); !g.ok || Ptrs(r) != {}
    decreases t, 0
  {
    var us, b, v := Slots(u), t.base.value, Culprit(t, u, Releasing);
    var (g, x) := ReleaseBase(h, v.vs.head, b);
    ReleaseItemsLater(g, v.vs.tail, t.fields);
    if BaseWalked(b) && !Fits(b, us.head, Releasing) {
      ReleaseBreaks(h, b, us.head);
      BaseIsValue(h, v.vs.head, v.vs.head, b, true, Choice(true, 0));
    } else if !BaseWalked(b) && Holds(us.head, Releasing) {
      MarkMarked(h, us.head, Releasing);
      BaseLeftAlone(h, v.vs.head, v.vs.head, b, true, Choice(true, 0));
    } else {
      BlankEmpty(h, us.head);
      BaseFreed(h, Blank(us.head), b, us.head);
      OneStays(h, Blank(us.head), g, {});
      ReleaseAllBreaks(g, t.fields, us.tail);
    }
  }

  lemma {:induction false} ReleaseAllBreaks(h: Heap, ts: Tys, us: Tys)
    requires HeapSound(h) && Owns(h, ONE) && !FitsAll(ts, us, Releasing)
    ensures var (g, rs) := ReleaseItems(h, CulpritAll(ts, us, Releasing), ts); !g.ok || AllPtrs(rs) != {}
    decreases ts, 0
  {
    if ts.Nil? {
      MarksMarked(h, us, Releasing);
    } else if us.Cons? {
      var vs := CulpritAll(ts, us, Releasing);
      var g := Release(h, vs.head, ts.head).0;
      ReleaseItemsLater(g, vs.tail, ts.tail);
      if !Fits(ts.head, us.head, Releasing) {
        ReleaseBreaks(h, ts.head, us.head);
      } else {
        BlankEmpty(h, us.head);
        ReleaseFrees(h, Blank(us.head), ts.head, us.head);
        OneStays(h, Blank(us.head), g, {});
        ReleaseAllBreaks(g, ts.tail, us.tail);
      }
    }
  }

  lemma {:induction false} ReleaseEachBreaks(h: Heap, t: Ty, n: nat, us: Tys)
    requires HeapSound(h) && Owns(h, ONE) && !FitsEach(t, n, us, Releasing)
    ensures var (g, rs) := ReleaseItems(h, CulpritEach(t, n, us, Releasing), Repeat(t, n)); !g.ok || AllPtrs(rs) != {}
    decreases t, 3 + n
  {
    if n == 0 {
      MarksMarked(h, us, Releasing);
    } else if us.Cons? {
      var vs, ts := CulpritEach(t, n, us, Releasing), Repeat(t, n - 1);
      var g := Release(h, vs.head, t).0;
      ReleaseItemsLater(g, vs.tail, ts);
      if !Fits(t, us.head, Releasing) {
        ReleaseBreaks(h, t, us.head);
      } else {
        BlankEmpty(h, us.head);
        ReleaseFrees(h, Blank(us.head), t, us.head);
        OneStays(h, Blank(us.head), g, {});
        ReleaseEachBreaks(g, t, n - 1, us.tail);
      }
    }
  }

  ghost predicate Releasable(h: Heap, v: Val, t: Ty) {
    HeapSound(h) && Good(h, v) && Typed(v, t)
  }

  ghost predicate ReleaseComplete(h: Heap, v: Val, t: Ty) {
    var (g, r) := Release(h, v, t);
    Freed(h, v, t, g, r)
  }

  /** Releasing frees every buffer once and leaves null strings, for all values, exactly when
      the walk at the type fits the type. */
  lemma ReleaseCompleteIff(t: Ty)
    ensures (forall h, v :: Releasable(h, v, t) ==> ReleaseComplete(h, v, t)) <==> Fits(t, t, Releasing)
  {
    if Fits(t, t, Releasing) {
      forall h, v | Releasable(h, v, t) ensures ReleaseComplete(h, v, t) {
        ReleaseFrees(h, v, t, t);
      }
    } else {
      CulpritGood(HEAP, t, t, Releasing);
      ReleaseBreaks(HEAP, t, t);
      hide Release, Culprit, Fits;
      assert Releasable(HEAP, Culprit(t, t, Releasing), t) && !ReleaseComplete(HEAP, Culprit(t, t, Releasing), t);
    }
  }
}
