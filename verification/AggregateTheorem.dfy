/** Copying, assigning and releasing aggregates keeps every string buffer with exactly one
    owner. */
module AggregateTheorem {
  import opened StringHeap
  import opened StringAggregates

  /** The blocks `mine` give way to the blocks `now`: what is not kept is freed, what is new
      is fresh, and all other blocks stay as they are. */
  ghost predicate Turns(h: Heap, mine: set<nat>, t: Heap, now: set<nat>) {
    && HeapSound(t) && h.next <= t.next
    && (forall b :: b !in mine && b < h.next ==>
          (b in h.live <==> b in t.live) && (b in h.live ==> h.live[b] == t.live[b]))
    && (forall b <- t.live :: b in h.live || b in now)
    && (forall b <- mine :: b in t.live ==> b in now)
    && (forall b <- now :: b in t.live && (b in mine || b >= h.next))
  }

  lemma TurnsNothing(h: Heap)
    requires HeapSound(h)
    ensures Turns(h, {}, h, {})
  {
  }

  lemma TurnsTrans(h: Heap, m: set<nat>, g: Heap, n: set<nat>, m1: set<nat>, t: Heap, n1: set<nat>)
    requires HeapSound(h) && Turns(h, m, g, n) && Turns(g, m1, t, n1) && m !! m1 && m1 <= h.live.Keys
    ensures n !! m1 && n !! n1 && Turns(h, m + m1, t, n + n1)
  {
    assert forall b <- n :: b < g.next;
    assert forall b <- m1 :: b < h.next;
  }

  lemma BecomesTurns(h: Heap, s: Header, t: Heap, r: Header, text: seq<Byte>)
    requires HeapSound(h) && Becomes(h, s, t, r, text)
    ensures Turns(h, Ptrs(StrV(s)), t, Ptrs(StrV(r)))
  {
  }

  // ---- values the change does not concern ----

  lemma {:induction false} PtrsLive(h: Heap, v: Val)
    requires Good(h, v)
    ensures Ptrs(v) <= h.live.Keys
    decreases v
  {
    match v
    case Num(_) =>
    case StrV(_) =>
    case Items(vs) => AllPtrsLive(h, vs);
    case Opt(_, x) => PtrsLive(h, x);
    case Res(_, x, e) =>
      PtrsLive(h, x);
      PtrsLive(h, e);
  }

  lemma {:induction false} AllPtrsLive(h: Heap, vs: Vals)
    requires AllGood(h, vs)
    ensures AllPtrs(vs) <= h.live.Keys
    decreases vs
  {
    if vs.More? {
      PtrsLive(h, vs.head);
      AllPtrsLive(h, vs.tail);
    }
  }

  lemma {:induction false} Kept(h: Heap, mine: set<nat>, t: Heap, now: set<nat>, v: Val)
    requires HeapSound(h) && Turns(h, mine, t, now) && Good(h, v) && Ptrs(v) !! mine
    ensures Good(t, v) && Seen(t, v) == Seen(h, v)
    decreases v
  {
    match v
    case Num(_) =>
    case StrV(_) =>
    case Items(vs) => AllKept(h, mine, t, now, vs);
    case Opt(_, x) => Kept(h, mine, t, now, x);
    case Res(_, x, e) =>
      Kept(h, mine, t, now, x);
      Kept(h, mine, t, now, e);
  }

  lemma {:induction false} AllKept(h: Heap, mine: set<nat>, t: Heap, now: set<nat>, vs: Vals)
    requires HeapSound(h) && Turns(h, mine, t, now) && AllGood(h, vs) && AllPtrs(vs) !! mine
    ensures AllGood(t, vs) && AllSeen(t, vs) == AllSeen(h, vs)
    decreases vs
  {
    if vs.More? {
      Kept(h, mine, t, now, vs.head);
      AllKept(h, mine, t, now, vs.tail);
    }
  }

  lemma {:induction false} NullsFree(v: Val)
    requires Nulls(v)
    ensures Ptrs(v) == {}
    decreases v
  {
    match v
    case Num(_) =>
    case StrV(_) =>
    case Items(vs) => AllNullsFree(vs);
    case Opt(_, x) => NullsFree(x);
    case Res(_, x, e) =>
      NullsFree(x);
      NullsFree(e);
  }

  lemma {:induction false} AllNullsFree(vs: Vals)
    requires AllNulls(vs)
    ensures AllPtrs(vs) == {}
    decreases vs
  {
    if vs.More? {
      NullsFree(vs.head);
      AllNullsFree(vs.tail);
    }
  }

  lemma {:induction false} RepeatSlots(t: Ty, n: nat)
    ensures AnyHolds(Repeat(t, n), Releasing) <==> n > 0 && Holds(t, Releasing)
    ensures AnyHolds(Repeat(t, n), Copying) <==> n > 0 && Holds(t, Copying)
  {
    if n > 0 { RepeatSlots(t, n - 1); }
  }

  /** What a list of slots holds is what its type holds. */
  lemma SlotsHold(t: Ty)
    requires Listed(t)
    ensures Holds(t, Releasing) <==> AnyHolds(Slots(t), Releasing)
    ensures Holds(t, Copying) <==> AnyHolds(Slots(t), Copying)
  {
    if t.Array? { RepeatSlots(t.elem, t.size); }
  }

  /** A type that holds no strings has no string slots. */
  lemma {:induction false} NoStrings(v: Val, t: Ty)
    requires Typed(v, t) && !Holds(t, Releasing)
    ensures Nulls(v) && Ptrs(v) == {}
    decreases v
  {
    match v
    case Num(_) =>
    case StrV(_) =>
    case Items(vs) =>
      SlotsHold(t);
      NoStringsAll(vs, Slots(t));
    case Opt(_, x) => NoStrings(x, t.elem);
    case Res(_, x, e) =>
      NoStrings(x, t.success);
      NoStrings(e, t.error);
  }

  lemma {:induction false} NoStringsAll(vs: Vals, ts: Tys)
    requires TypedAll(vs, ts) && !AnyHolds(ts, Releasing)
    ensures AllNulls(vs) && AllPtrs(vs) == {}
    decreases vs
  {
    if vs.More? {
      NoStrings(vs.head, ts.head);
      NoStringsAll(vs.tail, ts.tail);
    }
  }

  lemma {:induction false} StringsShow(t: Ty)
    requires Holds(t, Releasing)
    ensures Holds(t, Copying)
  {
    match t
    case Scalar =>
    case Str =>
    case Struct(base, fields, m) =>
      if base.Some? && !m && Holds(base.value, Releasing) { StringsShow(base.value); } else { AnyStringsShow(fields); }
    case Class(base, fields, m) =>
      if base.Some? && !m && Holds(base.value, Releasing) { StringsShow(base.value); } else { AnyStringsShow(fields); }
    case Array(elem, _) => StringsShow(elem);
    case Optional(_) =>
    case Result(_, _) =>
  }

  lemma {:induction false} AnyStringsShow(ts: Tys)
    requires AnyHolds(ts, Releasing)
    ensures AnyHolds(ts, Copying)
  {
    if Holds(ts.head, Releasing) { StringsShow(ts.head); } else { AnyStringsShow(ts.tail); }
  }

  lemma {:induction false} EachIsAll(t: Ty, n: nat, us: Tys)
    ensures FitsEach(t, n, us, Copying) <==> FitsAll(Repeat(t, n), us, Copying)
    ensures FitsEach(t, n, us, Releasing) <==> FitsAll(Repeat(t, n), us, Releasing)
    decreases n
  {
    if n > 0 && us.Cons? { EachIsAll(t, n - 1, us.tail); }
  }

  /** A walk that fits for copying fits for releasing. */
  lemma {:induction false} CopyingFitsReleasing(t: Ty, u: Ty)
    requires Fits(t, u, Copying)
    ensures Fits(t, u, Releasing)
    decreases t, 0
  {
    if HasString(t) {
      match t
      case Scalar =>
      case Str =>
      case Optional(e) => CopyingFitsReleasing(e, u.elem);
      case Result(s, e) =>
        CopyingFitsReleasing(s, u.success);
        CopyingFitsReleasing(e, u.error);
      case Array(elem, n) => CopyingFitsReleasingEach(elem, n, Slots(u));
      case Struct(_, fields, _) => CopyingFitsReleasingAll(fields, Slots(u));
      case Class(base, fields, _) =>
        if base.None? {
          CopyingFitsReleasingAll(fields, Slots(u));
        } else {
          if BaseWalked(base.value) { CopyingFitsReleasing(base.value, Slots(u).head); }
          if Holds(Slots(u).head, Releasing) { StringsShow(Slots(u).head); }
          CopyingFitsReleasingAll(fields, Slots(u).tail);
        }
    }
  }

  lemma {:induction false} CopyingFitsReleasingEach(t: Ty, n: nat, us: Tys)
    requires FitsEach(t, n, us, Copying)
    ensures FitsEach(t, n, us, Releasing)
    decreases t, 1 + n
  {
    if n == 0 {
      if AnyHolds(us, Releasing) { AnyStringsShow(us); }
    } else {
      CopyingFitsReleasing(t, us.head);
      CopyingFitsReleasingEach(t, n - 1, us.tail);
    }
  }

  lemma {:induction false} CopyingFitsReleasingAll(ts: Tys, us: Tys)
    requires FitsAll(ts, us, Copying)
    ensures FitsAll(ts, us, Releasing)
    decreases ts, 0
  {
    if ts.Nil? {
      if AnyHolds(us, Releasing) { AnyStringsShow(us); }
    } else {
      CopyingFitsReleasing(ts.head, us.head);
      CopyingFitsReleasingAll(ts.tail, us.tail);
    }
  }

  /** A base in which no strings are found is neither copied nor released. */
  lemma BaseLeftAlone(h: Heap, dst: Val, src: Val, base: Ty, assign: bool, c: Choice)
    requires !BaseWalked(base)
    ensures CopyBase(h, dst, src, base, assign, c) == (h, dst)
    ensures ReleaseBase(h, src, base) == (h, src)
  {
    if base.Str? {
      assert CopyAggregate(h, dst, src, base, assign, c) == (h, dst);
      assert ReleaseAggregate(h, src, base) == (h, src);
    }
  }

  // ---- release ----

  /** Every string slot is null afterwards, and every buffer has been freed once. */
  ghost predicate Freed(h: Heap, v: Val, u: Ty, g: Heap, r: Val) {
    Turns(h, Ptrs(v), g, {}) && Nulls(r) && Good(g, r) && Typed(r, u) && Ptrs(r) == {}
  }

  lemma NothingFreed(h: Heap, v: Val, u: Ty)
    requires HeapSound(h) && Good(h, v) && Typed(v, u) && !Holds(u, Releasing)
    ensures Freed(h, v, u, h, v)
  {
    NoStrings(v, u);
    TurnsNothing(h);
  }

  lemma {:induction false} ReleaseFrees(h: Heap, v: Val, t: Ty, u: Ty)
    requires HeapSound(h) && Good(h, v) && Typed(v, u) && Fits(t, u, Releasing)
    ensures var (g, r) := Release(h, v, t); Freed(h, v, u, g, r)
    decreases v, 2
  {
    if t.Str? {
      DestroyBecomes(h, v.h);
      var (g, r) := Destroy(h, v.h);
      BecomesTurns(h, v.h, g, r, []);
    } else if HasString(t) {
      ReleaseAggregateFrees(h, v, t, u);
    } else {
      NothingFreed(h, v, u);
    }
  }

  lemma {:induction false} ReleaseAggregateFrees(h: Heap, v: Val, t: Ty, u: Ty)
    requires HeapSound(h) && Good(h, v) && Typed(v, u) && Fits(t, u, Releasing) && HasString(t) && !t.Str?
    ensures var (g, r) := ReleaseAggregate(h, v, t); Freed(h, v, u, g, r)
    decreases v, 1
  {
    hide HeapSound, Turns;
    match t
    case Struct(_, fields, _) => ReleaseSlotsFrees(h, v, fields, u);
    case Class(base, fields, _) =>
      if base.Some? { ReleaseDerivedFrees(h, v, base.value, fields, u); } else { ReleaseSlotsFrees(h, v, fields, u); }
    case Array(elem, n) =>
      EachIsAll(elem, n, Slots(u));
      ReleaseSlotsFrees(h, v, Repeat(elem, n), u);
    case Optional(elem) =>
      if v.valid { ReleaseFrees(h, v.v, elem, u.elem); } else { NullsFree(v.v); TurnsNothing(h); }
    case Result(s, e) =>
      if v.ok {
        ReleaseFrees(h, v.v, s, u.success);
        OtherSide(h, v.v, v.e, Release(h, v.v, s).0);
      } else {
        ReleaseFrees(h, v.e, e, u.error);
        OtherSide(h, v.e, v.v, Release(h, v.e, e).0);
        assert Ptrs(v) == Ptrs(v.e);
      }
  }

  /** The inactive side of a result is null before and after. */
  lemma OtherSide(h: Heap, x: Val, other: Val, g: Heap)
    requires HeapSound(h) && Turns(h, Ptrs(x), g, {}) && Good(h, other) && Nulls(other)
    ensures Good(g, other) && Ptrs(other) == {} && Ptrs(x) + Ptrs(other) == Ptrs(x)
  {
    NullsFree(other);
    Kept(h, Ptrs(x), g, {}, other);
  }

  lemma {:induction false} ReleaseSlotsFrees(h: Heap, v: Val, ts: Tys, u: Ty)
    requires HeapSound(h) && Good(h, v) && Typed(v, u) && Listed(u) && FitsAll(ts, Slots(u), Releasing)
    ensures var (g, r) := ReleaseSlots(h, v, ts); Freed(h, v, u, g, r)
    decreases v, 0
  {
    hide HeapSound, Turns;
    ReleaseItemsFrees(h, v.vs, ts, Slots(u));
  }

  lemma {:induction false} BaseFreed(h: Heap, v: Val, base: Ty, u: Ty)
    requires HeapSound(h) && Good(h, v) && Typed(v, u)
    requires if BaseWalked(base) then Fits(base, u, Releasing) else !Holds(u, Releasing)
    ensures var (g, r) := ReleaseBase(h, v, base); Freed(h, v, u, g, r)
    decreases v, 2
  {
    hide HeapSound, Turns;
    if BaseWalked(base) {
      ReleaseAggregateFrees(h, v, base, u);
    } else {
      NothingFreed(h, v, u);
    }
  }

  lemma {:induction false} ReleaseDerivedFrees(h: Heap, v: Val, base: Ty, fields: Tys, u: Ty)
    requires HeapSound(h) && Good(h, v) && Typed(v, u) && Listed(u) && Slots(u).Cons?
    requires if BaseWalked(base) then Fits(base, Slots(u).head, Releasing) else !Holds(Slots(u).head, Releasing)
    requires FitsAll(fields, Slots(u).tail, Releasing)
    ensures var (g, r) := ReleaseDerived(h, v, base, fields); Freed(h, v, u, g, r)
    decreases v, 0
  {
    hide HeapSound, Turns, ReleaseBase, HasString, Fits, Holds, FitsAll, Slots;
    var (vs, us) := (v.vs, Slots(u));
    BaseFreed(h, vs.head, base, us.head);
    var (g, b) := ReleaseBase(h, vs.head, base);
    RestFreed(h, vs, fields, us, g, b);
  }

  ghost predicate FreedAll(h: Heap, vs: Vals, us: Tys, g: Heap, rs: Vals) {
    Turns(h, AllPtrs(vs), g, {}) && AllNulls(rs) && AllGood(g, rs) && TypedAll(rs, us) && AllPtrs(rs) == {}
  }

  lemma ReleaseRest(h: Heap, vs: Vals, us: Tys, g: Heap, r: Val)
    requires HeapSound(h) && AllGood(h, vs) && vs.More? && us.Cons? && Freed(h, vs.head, us.head, g, r)
    ensures HeapSound(g) && AllGood(g, vs.tail)
  {
    AllKept(h, Ptrs(vs.head), g, {}, vs.tail);
  }

  lemma ReleasedBoth(h: Heap, vs: Vals, us: Tys, g: Heap, r: Val, g1: Heap, rs: Vals)
    requires HeapSound(h) && HeapSound(g) && AllGood(h, vs) && vs.More? && us.Cons?
    requires Freed(h, vs.head, us.head, g, r) && FreedAll(g, vs.tail, us.tail, g1, rs)
    ensures FreedAll(h, vs, us, g1, More(r, rs))
  {
    AllPtrsLive(h, vs.tail);
    TurnsTrans(h, Ptrs(vs.head), g, {}, AllPtrs(vs.tail), g1, {});
    var none: set<nat> := {};
    assert none + none == none;
    hide HeapSound, Turns;
    assert Turns(h, AllPtrs(vs), g1, {});
    Kept(g, AllPtrs(vs.tail), g1, {}, r);
  }

  lemma {:induction false} ReleaseItemsFrees(h: Heap, vs: Vals, ts: Tys, us: Tys)
    requires HeapSound(h) && AllGood(h, vs) && TypedAll(vs, us) && FitsAll(ts, us, Releasing)
    ensures var (g, rs) := ReleaseItems(h, vs, ts); FreedAll(h, vs, us, g, rs)
    decreases vs, 0
  {
    if ts.Nil? {
      NoStringsAll(vs, us);
      TurnsNothing(h);
    } else {
      var (g, r) := Release(h, vs.head, ts.head);
      ReleaseFrees(h, vs.head, ts.head, us.head);
      hide HeapSound, Turns;
      RestFreed(h, vs, ts.tail, us, g, r);
    }
  }

  /** The tail after a head that has been released. */
  lemma {:induction false} RestFreed(h: Heap, vs: Vals, ts: Tys, us: Tys, g: Heap, r: Val)
    requires HeapSound(h) && AllGood(h, vs) && TypedAll(vs, us) && vs.More? && us.Cons?
    requires Freed(h, vs.head, us.head, g, r) && FitsAll(ts, us.tail, Releasing)
    ensures var (g1, rs) := ReleaseItems(g, vs.tail, ts); FreedAll(h, vs, us, g1, More(r, rs))
    decreases vs.tail, 1
  {
    hide HeapSound, Turns;
    ReleaseRest(h, vs, us, g, r);
    ReleaseItemsFrees(g, vs.tail, ts, us.tail);
    var (g1, rs) := ReleaseItems(g, vs.tail, ts);
    ReleasedBoth(h, vs, us, g, r, g1, rs);
  }

  // ---- types with nothing to show ----

  lemma {:induction false} NothingSeen(h: Heap, v: Val, g: Heap, w: Val, t: Ty)
    requires Typed(v, t) && Typed(w, t) && !Holds(t, Copying) && Good(h, v) && Good(g, w)
    ensures Seen(h, v) == Seen(g, w)
    decreases v
  {
    SlotsHold(t);
    NothingSeenAll(h, v.vs, g, w.vs, Slots(t));
  }

  lemma {:induction false} NothingSeenAll(h: Heap, vs: Vals, g: Heap, ws: Vals, ts: Tys)
    requires TypedAll(vs, ts) && TypedAll(ws, ts) && !AnyHolds(ts, Copying) && AllGood(h, vs) && AllGood(g, ws)
    ensures AllSeen(h, vs) == AllSeen(g, ws)
    decreases vs
  {
    if vs.More? {
      NothingSeen(h, vs.head, g, ws.head, ts.head);
      NothingSeenAll(h, vs.tail, g, ws.tail, ts.tail);
    }
  }

  // ---- copy and assignment ----

  /** Two values of type u that share no buffer. */
  ghost predicate Ready(h: Heap, dst: Val, src: Val, u: Ty, assign: bool) {
    && HeapSound(h) && Good(h, dst) && Good(h, src) && Typed(dst, u) && Typed(src, u)
    && Ptrs(dst) !! Ptrs(src) && (!assign ==> Nulls(dst))
  }

  /** The result shows what the source shows; replaced buffers are freed, new ones fresh. */
  ghost predicate Copied(h: Heap, dst: Val, src: Val, u: Ty, g: Heap, r: Val) {
    && Turns(h, Ptrs(dst), g, Ptrs(r)) && Good(g, r) && Typed(r, u)
    && Good(h, src) && Seen(g, r) == Seen(h, src)
  }

  lemma StringCopied(h: Heap, dst: Val, src: Val, u: Ty, assign: bool, c: Choice)
    requires Ready(h, dst, src, u, assign) && u.Str?
    ensures var (g, r) := CopyValue(h, dst, src, Str, assign, c); Copied(h, dst, src, u, g, r)
  {
    var (g, r) := CopyValue(h, dst, src, Str, assign, c);
    var text := Text(h, src.h);
    hide Assign, Copy;
    if assign {
      if dst.h.ptr == src.h.ptr { assert dst.h == src.h; }
      AssignBecomes(h, dst.h, src.h, c);
    } else {
      CopyBecomes(h, dst.h, ViewOf(src.h), c);
    }
    BecomesTurns(h, dst.h, g, r.h, text);
  }

  lemma PlainCopied(h: Heap, dst: Val, src: Val, u: Ty, assign: bool)
    requires Ready(h, dst, src, u, assign) && !Holds(u, Releasing)
    ensures Copied(h, dst, src, u, h, src)
  {
    NoStrings(src, u);
    NoStrings(dst, u);
    TurnsNothing(h);
  }

  lemma KeptCopied(h: Heap, dst: Val, src: Val, u: Ty, assign: bool)
    requires Ready(h, dst, src, u, assign) && !Holds(u, Copying)
    ensures Copied(h, dst, src, u, h, dst)
  {
    if Holds(u, Releasing) { StringsShow(u); }
    NoStrings(dst, u);
    NothingSeen(h, dst, h, src, u);
    TurnsNothing(h);
  }

  /** Copying at type t into a slot of type u, when the walk fits. */
  lemma {:induction false} ValueCopied(h: Heap, dst: Val, src: Val, t: Ty, u: Ty, assign: bool, c: Choice)
    requires Ready(h, dst, src, u, assign) && Fits(t, u, Copying)
    ensures var (g, r) := CopyValue(h, dst, src, t, assign, c); Copied(h, dst, src, u, g, r)
    decreases src, 2
  {
    if t.Str? {
      StringCopied(h, dst, src, u, assign, c);
    } else if HasString(t) {
      AggregateCopied(h, dst, src, t, u, assign, c);
    } else {
      PlainCopied(h, dst, src, u, assign);
    }
  }

  lemma {:induction false} AggregateCopied(h: Heap, dst: Val, src: Val, t: Ty, u: Ty, assign: bool, c: Choice)
    requires Ready(h, dst, src, u, assign) && Fits(t, u, Copying) && HasString(t) && !t.Str?
    ensures var (g, r) := CopyAggregate(h, dst, src, t, assign, c); Copied(h, dst, src, u, g, r)
    decreases src, 1
  {
    hide HeapSound, Turns;
    match t
    case Struct(_, fields, _) => SlotsCopied(h, dst, src, fields, u, assign, c);
    case Class(base, fields, _) =>
      if base.Some? {
        DerivedCopied(h, dst, src, base.value, fields, u, assign, c);
      } else {
        SlotsCopied(h, dst, src, fields, u, assign, c);
      }
    case Array(elem, n) =>
      EachIsAll(elem, n, Slots(u));
      SlotsCopied(h, dst, src, Repeat(elem, n), u, assign, c);
    case Optional(elem) =>
      if src.valid {
        ValueCopied(h, dst.v, src.v, elem, u.elem, assign, c);
      } else if dst.valid {
        CopyingFitsReleasing(elem, u.elem);
        ReleaseFrees(h, dst.v, elem, u.elem);
      } else {
        NullsFree(dst.v);
        TurnsNothing(h);
      }
    case Result(_, _) => ResultCopied(h, dst, src, t, u, assign, c);
  }

  lemma {:induction false} SlotsCopied(h: Heap, dst: Val, src: Val, ts: Tys, u: Ty, assign: bool, c: Choice)
    requires Ready(h, dst, src, u, assign) && Listed(u) && FitsAll(ts, Slots(u), Copying)
    ensures var (g, r) := CopySlots(h, dst, src, ts, assign, c); Copied(h, dst, src, u, g, r)
    decreases src, 0
  {
    hide HeapSound, Turns;
    ItemsCopied(h, dst.vs, src.vs, ts, Slots(u), assign, c);
  }

  ghost predicate ReadyAll(h: Heap, dsts: Vals, srcs: Vals, us: Tys, assign: bool) {
    && HeapSound(h) && AllGood(h, dsts) && AllGood(h, srcs) && TypedAll(dsts, us) && TypedAll(srcs, us)
    && AllPtrs(dsts) !! AllPtrs(srcs) && (!assign ==> AllNulls(dsts))
  }

  ghost predicate CopiedAll(h: Heap, dsts: Vals, srcs: Vals, us: Tys, g: Heap, rs: Vals) {
    && Turns(h, AllPtrs(dsts), g, AllPtrs(rs)) && AllGood(g, rs) && TypedAll(rs, us)
    && AllGood(h, srcs) && AllSeen(g, rs) == AllSeen(h, srcs)
  }

  /** After the head the tail is still ready. */
  lemma TailReady(h: Heap, dsts: Vals, srcs: Vals, ts: Tys, assign: bool, g: Heap, r: Val)
    requires ReadyAll(h, dsts, srcs, ts, assign) && srcs.More? && dsts.More? && ts.Cons?
    requires Turns(h, Ptrs(dsts.head), g, Ptrs(r))
    ensures ReadyAll(g, dsts.tail, srcs.tail, ts.tail, assign)
    ensures AllSeen(g, srcs.tail) == AllSeen(h, srcs.tail)
  {
    AllKept(h, Ptrs(dsts.head), g, Ptrs(r), dsts.tail);
    AllKept(h, Ptrs(dsts.head), g, Ptrs(r), srcs.tail);
  }

  /** The tail leaves the finished head alone. */
  lemma TailDone(h: Heap, dsts: Vals, g: Heap, r: Val, g1: Heap, rs: Vals)
    requires HeapSound(h) && AllGood(h, dsts) && dsts.More?
    requires Turns(h, Ptrs(dsts.head), g, Ptrs(r)) && Good(g, r)
    requires Turns(g, AllPtrs(dsts.tail), g1, AllPtrs(rs)) && AllGood(g1, rs)
    ensures Turns(h, AllPtrs(dsts), g1, AllPtrs(More(r, rs)))
    ensures AllGood(g1, More(r, rs)) && Seen(g1, r) == Seen(g, r)
  {
    AllPtrsLive(h, dsts.tail);
    TurnsTrans(h, Ptrs(dsts.head), g, Ptrs(r), AllPtrs(dsts.tail), g1, AllPtrs(rs));
    assert HeapSound(g);
    hide HeapSound, Turns;
    Kept(g, AllPtrs(dsts.tail), g1, AllPtrs(rs), r);
  }

  lemma {:induction false} ItemsCopied(h: Heap, dsts: Vals, srcs: Vals, ts: Tys, us: Tys, assign: bool, c: Choice)
    requires ReadyAll(h, dsts, srcs, us, assign) && FitsAll(ts, us, Copying)
    ensures var (g, rs) := CopyItems(h, dsts, srcs, ts, assign, c); CopiedAll(h, dsts, srcs, us, g, rs)
    decreases srcs, 0
  {
    if ts.Nil? {
      if AnyHolds(us, Releasing) { AnyStringsShow(us); }
      NoStringsAll(dsts, us);
      NothingSeenAll(h, dsts, h, srcs, us);
      TurnsNothing(h);
    } else {
      hide HeapSound, Turns;
      HeadReady(h, dsts, srcs, us, assign);
      ValueCopied(h, dsts.head, srcs.head, ts.head, us.head, assign, c);
      var (g, r) := CopyValue(h, dsts.head, srcs.head, ts.head, assign, c);
      RestCopied(h, dsts, srcs, ts.tail, us, assign, c, g, r);
    }
  }

  lemma HeadReady(h: Heap, d: Vals, s: Vals, us: Tys, assign: bool)
    requires ReadyAll(h, d, s, us, assign) && us.Cons?
    ensures d.More? && s.More? && Ready(h, d.head, s.head, us.head, assign)
  {
    hide HeapSound;
  }

  /** The tail after a head that has been copied. */
  lemma {:induction false} RestCopied(h: Heap, d: Vals, s: Vals, ts: Tys, us: Tys, assign: bool, c: Choice, g: Heap,
      b: Val)
    requires ReadyAll(h, d, s, us, assign) && us.Cons? && d.More? && s.More?
    requires Copied(h, d.head, s.head, us.head, g, b) && FitsAll(ts, us.tail, Copying)
    ensures var (g1, rs) := CopyItems(g, d.tail, s.tail, ts, assign, c); CopiedAll(h, d, s, us, g1, More(b, rs))
    decreases s.tail, 1
  {
    hide HeapSound, Turns;
    TailReady(h, d, s, us, assign, g, b);
    ItemsCopied(g, d.tail, s.tail, ts, us.tail, assign, c);
    var (g1, rs) := CopyItems(g, d.tail, s.tail, ts, assign, c);
    TailDone(h, d, g, b, g1, rs);
    BothCopied(h, d, s, us, g, b, g1, rs);
  }

  /** A base that is not walked keeps what it has, so it must have nothing to show. */
  lemma {:induction false} BaseCopied(h: Heap, dst: Val, src: Val, base: Ty, u: Ty, assign: bool, c: Choice)
    requires Ready(h, dst, src, u, assign) && if BaseWalked(base) then Fits(base, u, Copying) else !Holds(u, Copying)
    ensures var (g, r) := CopyBase(h, dst, src, base, assign, c); Copied(h, dst, src, u, g, r)
    decreases src, 2
  {
    hide HeapSound, Turns;
    if BaseWalked(base) {
      AggregateCopied(h, dst, src, base, u, assign, c);
    } else {
      KeptCopied(h, dst, src, u, assign);
    }
  }

  lemma {:induction false} DerivedCopied(h: Heap, dst: Val, src: Val, base: Ty, fields: Tys, u: Ty, assign: bool,
      c: Choice)
    requires Ready(h, dst, src, u, assign) && Listed(u) && Slots(u).Cons?
    requires if BaseWalked(base) then Fits(base, Slots(u).head, Copying) else !Holds(Slots(u).head, Copying)
    requires FitsAll(fields, Slots(u).tail, Copying)
    ensures var (g, r) := CopyDerived(h, dst, src, base, fields, assign, c); Copied(h, dst, src, u, g, r)
    decreases src, 0
  {
    var us, d, s := Slots(u), dst.vs, src.vs;
    HeadReady(h, d, s, us, assign);
    BaseCopied(h, d.head, s.head, base, us.head, assign, c);
    var (g, b) := CopyBase(h, d.head, s.head, base, assign, c);
    hide HeapSound, Turns, CopyBase, HasString, Fits, Holds;
    RestCopied(h, d, s, fields, us, assign, c, g, b);
  }

  lemma BothCopied(h: Heap, d: Vals, s: Vals, us: Tys, g: Heap, b: Val, g1: Heap, rs: Vals)
    requires d.More? && s.More? && us.Cons? && AllGood(h, s)
    requires Copied(h, d.head, s.head, us.head, g, b)
    requires AllGood(g, s.tail) && AllSeen(g, s.tail) == AllSeen(h, s.tail)
    requires CopiedAll(g, d.tail, s.tail, us.tail, g1, rs)
    requires Turns(h, AllPtrs(d), g1, AllPtrs(More(b, rs))) && AllGood(g1, More(b, rs)) && Seen(g1, b) == Seen(g, b)
    ensures CopiedAll(h, d, s, us, g1, More(b, rs))
  {
    hide Turns;
  }

  /** The slot that becomes active is copied, the one that becomes inactive released. */
  lemma {:induction false} ResultCopied(h: Heap, dst: Val, src: Val, t: Ty, u: Ty, assign: bool, c: Choice)
    requires Ready(h, dst, src, u, assign) && HasString(t) && t.Result? && Fits(t, u, Copying)
    ensures var (g, r) := CopyAggregate(h, dst, src, t, assign, c); Copied(h, dst, src, u, g, r)
    decreases src, 0
  {
    var (now, to, tn, un) := if src.ok then (dst.v, src.v, t.success, u.success) else (dst.e, src.e, t.error, u.error);
    var (other, tb, ub) := if src.ok then (dst.e, t.error, u.error) else (dst.v, t.success, u.success);
    var active := dst.ok != src.ok;
    CopyingFitsReleasing(tb, ub);
    SideReady(h, dst, src, u, assign);
    ValueCopied(h, now, to, tn, un, assign, c);
    var (g, r) := CopyValue(h, now, to, tn, assign, c);
    SwitchDone(h, now, other, tb, ub, active, g, r);
    var (g1, o) := if active then Release(g, other, tb) else (g, other);
    assert CopyAggregate(h, dst, src, t, assign, c) == (g1, if src.ok then Res(true, r, o) else Res(false, o, r));
    hide *;
    if src.ok { OkCopied(h, dst, src, u, g1, r, o); } else { ErrCopied(h, dst, src, u, g1, r, o); }
  }

  /** The side of the source that is active, and the same side of the destination. */
  lemma SideReady(h: Heap, dst: Val, src: Val, u: Ty, assign: bool)
    requires Ready(h, dst, src, u, assign) && u.Result?
    ensures src.ok ==> Ready(h, dst.v, src.v, u.success, assign)
    ensures !src.ok ==> Ready(h, dst.e, src.e, u.error, assign)
  {
    hide HeapSound;
  }

  lemma OkCopied(h: Heap, dst: Val, src: Val, u: Ty, g: Heap, r: Val, o: Val)
    requires Typed(dst, u) && Typed(src, u) && u.Result? && src.ok && Good(h, src)
    requires Turns(h, Ptrs(dst.v) + Ptrs(dst.e), g, Ptrs(r) + Ptrs(o)) && Good(g, r) && Good(g, o) && Nulls(o)
    requires Typed(r, u.success) && Typed(o, u.error) && Seen(g, r) == Seen(h, src.v)
    ensures Copied(h, dst, src, u, g, Res(true, r, o))
  {
    hide Turns, HeapSound, Owns, Text;
    assert Seen(g, Res(true, r, o)) == COk(Seen(g, r));
  }

  lemma ErrCopied(h: Heap, dst: Val, src: Val, u: Ty, g: Heap, r: Val, o: Val)
    requires Typed(dst, u) && Typed(src, u) && u.Result? && !src.ok && Good(h, src)
    requires Turns(h, Ptrs(dst.e) + Ptrs(dst.v), g, Ptrs(r) + Ptrs(o)) && Good(g, r) && Good(g, o) && Nulls(o)
    requires Typed(r, u.error) && Typed(o, u.success) && Seen(g, r) == Seen(h, src.e)
    ensures Copied(h, dst, src, u, g, Res(false, o, r))
  {
    hide Turns, HeapSound, Owns, Text;
    assert Ptrs(dst) == Ptrs(dst.e) + Ptrs(dst.v);
    assert Ptrs(Res(false, o, r)) == Ptrs(r) + Ptrs(o);
    assert Seen(g, Res(false, o, r)) == CErr(Seen(g, r));
  }

  lemma SwitchDone(h: Heap, now: Val, other: Val, t: Ty, u: Ty, active: bool, g: Heap, r: Val)
    requires HeapSound(h) && Good(h, now) && Good(h, other) && Typed(other, u) && Fits(t, u, Releasing)
    requires Turns(h, Ptrs(now), g, Ptrs(r)) && Good(g, r)
    requires if active then Nulls(now) else Nulls(other)
    ensures var (g1, o) := if active then Release(g, other, t) else (g, other);
      && Turns(h, Ptrs(now) + Ptrs(other), g1, Ptrs(r) + Ptrs(o)) && Good(g1, r) && Seen(g1, r) == Seen(g, r)
      && Nulls(o) && Good(g1, o) && Typed(o, u)
  {
    hide *;
    NullsFree(if active then now else other);
    Kept(h, Ptrs(now), g, Ptrs(r), other);
    if active {
      PtrsLive(h, other);
      Switched(h, now, other, t, u, g, r);
    } else {
      assert Ptrs(now) + Ptrs(other) == Ptrs(now) && Ptrs(r) + Ptrs(other) == Ptrs(r);
    }
  }

  lemma Switched(h: Heap, now: Val, other: Val, t: Ty, u: Ty, g: Heap, r: Val)
    requires HeapSound(h) && Turns(h, Ptrs(now), g, Ptrs(r)) && Good(g, r) && Ptrs(now) == {}
    requires Good(g, other) && Typed(other, u) && Fits(t, u, Releasing) && Ptrs(other) <= h.live.Keys
    ensures var (g1, o) := Release(g, other, t);
      && Turns(h, Ptrs(now) + Ptrs(other), g1, Ptrs(r) + Ptrs(o)) && Good(g1, r) && Seen(g1, r) == Seen(g, r)
      && Nulls(o) && Good(g1, o) && Typed(o, u)
  {
    assert HeapSound(g);
    hide Good, Typed, Nulls, Fits, Release, Ptrs, HeapSound, Seen;
    ReleaseFrees(g, other, t, u);
    var (g1, o) := Release(g, other, t);
    TurnsTrans(h, Ptrs(now), g, Ptrs(r), Ptrs(other), g1, {});
    hide Turns;
    Kept(g, Ptrs(other), g1, {}, r);
  }
}
