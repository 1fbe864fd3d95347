/** Initialising memory that need not be zeroed: the copy reads the old flags of optionals
    and results, and frees what they declare active. */
module AggregateInit {
  import opened Options
  import opened StringHeap
  import opened StringAggregates
  import opened AggregateFaults
  import opened AggregateTheorem

  /** Would a release of this value free anything, or meet a slot of another kind? */
  predicate Frees(v: Val, t: Ty)
    decreases v
  {
    HasString(t) &&
    match t
    case Scalar => false
    case Str => !v.StrV? || v.h.ptr.Some?
    case Struct(_, fields, _) => !v.Items? || AnyFrees(v.vs, fields)
    case Class(base, fields, _) =>
      if base.None? then !v.Items? || AnyFrees(v.vs, fields)
      else
        || !v.Items? || v.vs.None_?
        || (BaseWalked(base.value) && Frees(v.vs.head, base.value)) || AnyFrees(v.vs.tail, fields)
    case Array(elem, size) => !v.Items? || AnyFrees(v.vs, Repeat(elem, size))
    case Optional(elem) => !v.Opt? || (v.valid && Frees(v.v, elem))
    case Result(s, e) => !v.Res? || if v.ok then Frees(v.v, s) else Frees(v.e, e)
  }

  predicate AnyFrees(vs: Vals, ts: Tys)
    decreases vs
  {
    ts.Cons? && (vs.None_? || Frees(vs.head, ts.head) || AnyFrees(vs.tail, ts.tail))
  }

  /** Some slot that the source makes inactive was marked active and holds a string that is
      not null, or a slot is of another kind. */
  predicate Stale(dst: Val, src: Val, t: Ty)
    decreases src
  {
    HasString(t) &&
    match t
    case Scalar => false
    case Str => !dst.StrV? || !src.StrV?
    case Struct(_, fields, _) => !dst.Items? || !src.Items? || AnyStale(dst.vs, src.vs, fields)
    case Class(base, fields, _) =>
      if base.None? then !dst.Items? || !src.Items? || AnyStale(dst.vs, src.vs, fields)
      else
        || !dst.Items? || !src.Items? || dst.vs.None_? || src.vs.None_?
        || (BaseWalked(base.value) && Stale(dst.vs.head, src.vs.head, base.value))
        || AnyStale(dst.vs.tail, src.vs.tail, fields)
    case Array(elem, size) => !dst.Items? || !src.Items? || AnyStale(dst.vs, src.vs, Repeat(elem, size))
    case Optional(elem) =>
      !dst.Opt? || !src.Opt? || if src.valid then Stale(dst.v, src.v, elem) else dst.valid && Frees(dst.v, elem)
    case Result(s, e) =>
      || !dst.Res? || !src.Res?
      || (if src.ok then Stale(dst.v, src.v, s) || (!dst.ok && Frees(dst.e, e))
          else Stale(dst.e, src.e, e) || (dst.ok && Frees(dst.v, s)))
  }

  predicate AnyStale(dsts: Vals, srcs: Vals, ts: Tys)
    decreases srcs
  {
    && ts.Cons?
    && (srcs.None_? || dsts.None_? || Stale(dsts.head, srcs.head, ts.head) || AnyStale(dsts.tail, srcs.tail, ts.tail))
  }

  /** No illegal access so far, nothing freed, and all old blocks as they were. */
  ghost predicate NothingFreed(h: Heap, g: Heap) {
    g.ok && g.freed == h.freed && forall b <- h.live :: b in g.live && g.live[b] == h.live[b]
  }

  ghost predicate Grown(h: Heap, g: Heap) {
    NothingFreed(h, g) && HeapSound(g) && h.next <= g.next
  }

  /** Something was freed, or an access was illegal. */
  predicate Damaged(h: Heap, g: Heap) {
    !g.ok || |g.freed| > |h.freed|
  }

  // ---- release ----

  /** A release frees something, or fails, exactly for values that would free something;
      otherwise the heap is the same. */
  ghost predicate Exactly(h: Heap, g: Heap, frees: bool) {
    if frees then Damaged(h, g) else g == h
  }

  lemma {:induction false} ReleaseIff(h: Heap, v: Val, t: Ty)
    ensures Exactly(h, Release(h, v, t).0, Frees(v, t))
    decreases v, 2
  {
    if !t.Str? && HasString(t) { ReleaseAggregateIff(h, v, t); }
  }

  lemma {:induction false} ReleaseAggregateIff(h: Heap, v: Val, t: Ty)
    requires HasString(t) && !t.Str?
    ensures Exactly(h, ReleaseAggregate(h, v, t).0, Frees(v, t))
    decreases v, 1
  {
    match t
    case Scalar =>
    case Struct(_, fields, _) => if v.Items? { ReleaseItemsIff(h, v.vs, fields); }
    case Class(base, fields, _) =>
      if base.None? {
        if v.Items? { ReleaseItemsIff(h, v.vs, fields); }
      } else if v.Items? && v.vs.More? {
        var g := ReleaseBase(h, v.vs.head, base.value).0;
        if BaseWalked(base.value) {
          ReleaseAggregateIff(h, v.vs.head, base.value);
        } else {
          BaseLeftAlone(h, v.vs.head, v.vs.head, base.value, false, Choice(false, 0));
        }
        ReleaseItemsIff(g, v.vs.tail, fields);
        ReleaseItemsLater(g, v.vs.tail, fields);
      }
    case Array(elem, n) => if v.Items? { ReleaseItemsIff(h, v.vs, Repeat(elem, n)); }
    case Optional(elem) => if v.Opt? { ReleaseIff(h, v.v, elem); }
    case Result(s, e) =>
      if v.Res? {
        ReleaseIff(h, v.v, s);
        ReleaseIff(h, v.e, e);
      }
  }

  lemma {:induction false} ReleaseItemsIff(h: Heap, vs: Vals, ts: Tys)
    ensures Exactly(h, ReleaseItems(h, vs, ts).0, AnyFrees(vs, ts))
    decreases vs, 0
  {
    if ts.Cons? && vs.More? {
      var g := Release(h, vs.head, ts.head).0;
      ReleaseIff(h, vs.head, ts.head);
      ReleaseItemsIff(g, vs.tail, ts.tail);
      ReleaseItemsLater(g, vs.tail, ts.tail);
    }
  }

  // ---- exactly when nothing is damaged ----

  lemma {:induction false} GrownGood(h: Heap, g: Heap, v: Val)
    requires Grown(h, g) && Good(h, v)
    ensures Good(g, v)
    decreases v
  {
    match v
    case Num(_) =>
    case StrV(_) =>
    case Items(vs) => GrownAllGood(h, g, vs);
    case Opt(_, x) => GrownGood(h, g, x);
    case Res(_, x, e) =>
      GrownGood(h, g, x);
      GrownGood(h, g, e);
  }

  lemma {:induction false} GrownAllGood(h: Heap, g: Heap, vs: Vals)
    requires Grown(h, g) && AllGood(h, vs)
    ensures AllGood(g, vs)
    decreases vs
  {
    if vs.More? {
      GrownGood(h, g, vs.head);
      GrownAllGood(h, g, vs.tail);
    }
  }

  lemma CopyGrows(h: Heap, s: Header, c: Choice)
    requires HeapSound(h) && Owns(h, s)
    ensures Grown(h, Copy(h, ViewOf(s), c).0)
  {
    assert Copy(h, ViewOf(s), c).0.freed == h.freed;
    CopyBecomes(h, NULL, ViewOf(s), c);
    hide Copy, Text, Read;
  }

  ghost predicate Outcome(h: Heap, g: Heap, stale: bool) {
    if stale then Damaged(h, g) else Grown(h, g)
  }

  /** One thing after another. */
  lemma Then(h: Heap, g: Heap, first: bool, k: Heap, second: bool)
    requires HeapSound(h) && Outcome(h, g, first) && Later(g, k) && Later(h, g) && (!first ==> Outcome(g, k, second))
    ensures Outcome(h, k, first || second)
  {
  }

  lemma Untouched(h: Heap)
    requires HeapSound(h)
    ensures Outcome(h, h, false)
  {
  }

  lemma Released(h: Heap, v: Val, t: Ty)
    requires HeapSound(h)
    ensures Outcome(h, Release(h, v, t).0, Frees(v, t)) && Later(h, Release(h, v, t).0)
  {
    ReleaseIff(h, v, t);
    ReleaseLater(h, v, t);
  }

  lemma {:induction false} InitOutcome(h: Heap, dst: Val, src: Val, t: Ty, c: Choice)
    requires HeapSound(h) && Good(h, src)
    ensures Outcome(h, CopyValue(h, dst, src, t, false, c).0, Stale(dst, src, t))
    decreases src, 2
  {
    if t.Str? {
      if src.StrV? { CopyGrows(h, src.h, c); }
    } else if HasString(t) {
      InitAggregateOutcome(h, dst, src, t, c);
    }
  }

  lemma {:induction false} InitAggregateOutcome(h: Heap, dst: Val, src: Val, t: Ty, c: Choice)
    requires HeapSound(h) && Good(h, src) && HasString(t) && !t.Str?
    ensures Outcome(h, CopyAggregate(h, dst, src, t, false, c).0, Stale(dst, src, t))
    decreases src, 1
  {
    Untouched(h);
    match t
    case Scalar =>
    case Struct(_, fields, _) => InitSlotsOutcome(h, dst, src, fields, c);
    case Class(base, fields, _) =>
      if base.None? {
        InitSlotsOutcome(h, dst, src, fields, c);
      } else {
        InitDerivedOutcome(h, dst, src, base.value, fields, c);
      }
    case Array(elem, n) => InitSlotsOutcome(h, dst, src, Repeat(elem, n), c);
    case Optional(elem) =>
      if dst.Opt? && src.Opt? {
        if src.valid { InitOutcome(h, dst.v, src.v, elem, c); } else { Released(h, dst.v, elem); }
      }
    case Result(s, e) =>
      if dst.Res? && src.Res? {
        if src.ok {
          InitSideOutcome(h, dst.v, src.v, s, dst.e, e, c);
        } else {
          InitSideOutcome(h, dst.e, src.e, e, dst.v, s, c);
        }
      }
  }

  /** The side the source makes active, then the release of the other if it was active. */
  lemma {:induction false} InitSideOutcome(h: Heap, dst: Val, src: Val, t: Ty, other: Val, u: Ty, c: Choice)
    requires HeapSound(h) && Good(h, src)
    ensures var g := CopyValue(h, dst, src, t, false, c).0; var stale := Stale(dst, src, t);
      && Outcome(h, g, stale)
      && Outcome(h, Release(g, other, u).0, stale || Frees(other, u))
    decreases src, 3
  {
    var g := CopyValue(h, dst, src, t, false, c).0;
    InitOutcome(h, dst, src, t, c);
    CopyLater(h, dst, src, t, false, c);
    ReleaseLater(g, other, u);
    if !Stale(dst, src, t) { Released(g, other, u); }
    hide HeapSound, CopyValue, Stale, Release, Frees;
    Then(h, g, Stale(dst, src, t), Release(g, other, u).0, Frees(other, u));
  }

  ghost predicate StaleSlots(dst: Val, src: Val, ts: Tys) {
    !dst.Items? || !src.Items? || AnyStale(dst.vs, src.vs, ts)
  }

  lemma {:induction false} InitSlotsOutcome(h: Heap, dst: Val, src: Val, ts: Tys, c: Choice)
    requires HeapSound(h) && Good(h, src)
    ensures Outcome(h, CopySlots(h, dst, src, ts, false, c).0, StaleSlots(dst, src, ts))
    decreases src, 0
  {
    if dst.Items? && src.Items? { InitItemsOutcome(h, dst.vs, src.vs, ts, c); }
  }

  ghost predicate StaleDerived(dst: Val, src: Val, base: Ty, fields: Tys) {
    || !dst.Items? || !src.Items? || dst.vs.None_? || src.vs.None_?
    || (BaseWalked(base) && Stale(dst.vs.head, src.vs.head, base))
    || AnyStale(dst.vs.tail, src.vs.tail, fields)
  }

  lemma {:induction false} InitDerivedOutcome(h: Heap, dst: Val, src: Val, base: Ty, fields: Tys, c: Choice)
    requires HeapSound(h) && Good(h, src)
    ensures Outcome(h, CopyDerived(h, dst, src, base, fields, false, c).0, StaleDerived(dst, src, base, fields))
    decreases src, 0
  {
    if dst.Items? && src.Items? && dst.vs.More? && src.vs.More? {
      var stale := BaseWalked(base) && Stale(dst.vs.head, src.vs.head, base);
      var g := CopyBase(h, dst.vs.head, src.vs.head, base, false, c).0;
      InitBaseOutcome(h, dst.vs.head, src.vs.head, base, c);
      InitRestOutcome(h, g, stale, dst.vs.tail, src.vs.tail, fields, c);
    }
  }

  lemma {:induction false} InitBaseOutcome(h: Heap, dst: Val, src: Val, base: Ty, c: Choice)
    requires HeapSound(h) && Good(h, src)
    ensures var g := CopyBase(h, dst, src, base, false, c).0;
      Outcome(h, g, BaseWalked(base) && Stale(dst, src, base)) && Later(h, g)
    decreases src, 2
  {
    Untouched(h);
    CopyAggregateLater(h, dst, src, base, false, c);
    if BaseWalked(base) { InitAggregateOutcome(h, dst, src, base, c); }
  }

  /** The slots after the first. */
  lemma {:induction false} InitRestOutcome(h: Heap, g: Heap, stale: bool, dsts: Vals, srcs: Vals, ts: Tys, c: Choice)
    requires HeapSound(h) && Outcome(h, g, stale) && Later(h, g) && AllGood(h, srcs)
    ensures Outcome(h, CopyItems(g, dsts, srcs, ts, false, c).0, stale || AnyStale(dsts, srcs, ts))
    decreases srcs, 1
  {
    CopyItemsLater(g, dsts, srcs, ts, false, c);
    if !stale {
      GrownAllGood(h, g, srcs);
      InitItemsOutcome(g, dsts, srcs, ts, c);
    }
    hide HeapSound, CopyItems, AnyStale;
    Then(h, g, stale, CopyItems(g, dsts, srcs, ts, false, c).0, AnyStale(dsts, srcs, ts));
  }

  lemma {:induction false} InitItemsOutcome(h: Heap, dsts: Vals, srcs: Vals, ts: Tys, c: Choice)
    requires HeapSound(h) && AllGood(h, srcs)
    ensures Outcome(h, CopyItems(h, dsts, srcs, ts, false, c).0, AnyStale(dsts, srcs, ts))
    decreases srcs, 0
  {
    Untouched(h);
    if ts.Cons? && srcs.More? && dsts.More? {
      var g := CopyValue(h, dsts.head, srcs.head, ts.head, false, c).0;
      InitOutcome(h, dsts.head, srcs.head, ts.head, c);
      CopyLater(h, dsts.head, srcs.head, ts.head, false, c);
      InitRestOutcome(h, g, Stale(dsts.head, srcs.head, ts.head), dsts.tail, srcs.tail, ts.tail, c);
    }
  }

  /** Initialising a destination of any content is harmless, that is, nothing is freed and no
      access is illegal, exactly when no slot it deactivates is marked active with a string
      and every slot is of the kind it is walked as. */
  lemma InitSafeIff(h: Heap, dst: Val, src: Val, t: Ty, c: Choice)
    requires HeapSound(h) && Good(h, src)
    ensures NothingFreed(h, CopyValue(h, dst, src, t, false, c).0) <==> !Stale(dst, src, t)
  {
    InitOutcome(h, dst, src, t, c);
  }

  // ---- destinations with null strings ----

  /** Where the walk fits the type, a destination whose strings are null meets the condition. */
  lemma {:induction false} NullsNotStale(dst: Val, src: Val, t: Ty, u: Ty)
    requires Typed(dst, u) && Typed(src, u) && Fits(t, u, Releasing) && Nulls(dst)
    ensures !Stale(dst, src, t)
    decreases src, 1
  {
    if HasString(t) {
      match t
      case Scalar =>
      case Str =>
      case Struct(_, fields, _) => AllNullsNotStale(dst.vs, src.vs, fields, Slots(u));
      case Class(base, fields, _) =>
        if base.None? {
          AllNullsNotStale(dst.vs, src.vs, fields, Slots(u));
        } else {
          if BaseWalked(base.value) { NullsNotStale(dst.vs.head, src.vs.head, base.value, Slots(u).head); }
          AllNullsNotStale(dst.vs.tail, src.vs.tail, fields, Slots(u).tail);
        }
      case Array(elem, n) =>
        EachIsAll(elem, n, Slots(u));
        AllNullsNotStale(dst.vs, src.vs, Repeat(elem, n), Slots(u));
      case Optional(elem) =>
        NullsNotStale(dst.v, src.v, elem, u.elem);
        NullsFreeNothing(dst.v, elem, u.elem);
      case Result(s, e) =>
        NullsNotStale(dst.v, src.v, s, u.success);
        NullsNotStale(dst.e, src.e, e, u.error);
        NullsFreeNothing(dst.v, s, u.success);
        NullsFreeNothing(dst.e, e, u.error);
    }
  }

  lemma {:induction false} AllNullsNotStale(dsts: Vals, srcs: Vals, ts: Tys, us: Tys)
    requires TypedAll(dsts, us) && TypedAll(srcs, us) && FitsAll(ts, us, Releasing) && AllNulls(dsts)
    ensures !AnyStale(dsts, srcs, ts)
    decreases srcs, 0
  {
    if ts.Cons? {
      NullsNotStale(dsts.head, srcs.head, ts.head, us.head);
      AllNullsNotStale(dsts.tail, srcs.tail, ts.tail, us.tail);
    }
  }

  lemma {:induction false} NullsFreeNothing(v: Val, t: Ty, u: Ty)
    requires Typed(v, u) && Fits(t, u, Releasing) && Nulls(v)
    ensures !Frees(v, t)
    decreases v, 1
  {
    if HasString(t) {
      match t
      case Scalar =>
      case Str =>
      case Struct(_, fields, _) => AllNullsFreeNothing(v.vs, fields, Slots(u));
      case Class(base, fields, _) =>
        if base.None? {
          AllNullsFreeNothing(v.vs, fields, Slots(u));
        } else {
          if BaseWalked(base.value) { NullsFreeNothing(v.vs.head, base.value, Slots(u).head); }
          AllNullsFreeNothing(v.vs.tail, fields, Slots(u).tail);
        }
      case Array(elem, n) =>
        EachIsAll(elem, n, Slots(u));
        AllNullsFreeNothing(v.vs, Repeat(elem, n), Slots(u));
      case Optional(elem) => NullsFreeNothing(v.v, elem, u.elem);
      case Result(s, e) =>
        NullsFreeNothing(v.v, s, u.success);
        NullsFreeNothing(v.e, e, u.error);
    }
  }

  lemma {:induction false} AllNullsFreeNothing(vs: Vals, ts: Tys, us: Tys)
    requires TypedAll(vs, us) && FitsAll(ts, us, Releasing) && AllNulls(vs)
    ensures !AnyFrees(vs, ts)
    decreases vs, 0
  {
    if ts.Cons? {
      NullsFreeNothing(vs.head, ts.head, us.head);
      AllNullsFreeNothing(vs.tail, ts.tail, us.tail);
    }
  }

  /** An absent optional string, copied over stale memory that is marked valid and still
      holds the pointer of another string: the free is legal, and the other string has lost
      its buffer. */
  lemma InitFreesAnother(c: Choice)
    ensures var h := Heap(map[0 := [0]], [], 1, true); var other := Header(Some(0), 0, 1);
      var dst, src := Opt(true, StrV(other)), Opt(false, StrV(NULL));
      var g := CopyValue(h, dst, src, Optional(Str), false, c).0;
      && HeapSound(h) && Owns(h, other) && Good(h, src) && Typed(dst, Optional(Str)) && Typed(src, Optional(Str))
      && Stale(dst, src, Optional(Str)) && g.ok && !Owns(g, other)
  {
  }
}
