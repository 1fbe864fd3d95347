/** An illegal access or a free is never undone by what a copy or a release does next. */
module AggregateFaults {
  import opened StringHeap
  import opened StringAggregates

  predicate Later(h: Heap, g: Heap) {
    (!h.ok ==> !g.ok) && |h.freed| <= |g.freed|
  }

  lemma {:induction false} ReleaseLater(h: Heap, v: Val, t: Ty)
    ensures Later(h, Release(h, v, t).0)
    decreases v, 2
  {
    if !t.Str? && HasString(t) { ReleaseAggregateLater(h, v, t); }
  }

  lemma {:induction false} ReleaseAggregateLater(h: Heap, v: Val, t: Ty)
    ensures Later(h, ReleaseAggregate(h, v, t).0)
    decreases v, 1
  {
    match t
    case Scalar =>
    case Str =>
    case Struct(_, fields, _) => ReleaseSlotsLater(h, v, fields);
    case Class(base, fields, _) =>
      if base.None? {
        ReleaseSlotsLater(h, v, fields);
      } else if v.Items? && v.vs.More? {
        var g := ReleaseBase(h, v.vs.head, base.value).0;
        ReleaseAggregateLater(h, v.vs.head, base.value);
        ReleaseItemsLater(g, v.vs.tail, fields);
      }
    case Array(elem, n) => ReleaseSlotsLater(h, v, Repeat(elem, n));
    case Optional(elem) => if v.Opt? { ReleaseLater(h, v.v, elem); }
    case Result(s, e) => if v.Res? { ReleaseLater(h, v.v, s); ReleaseLater(h, v.e, e); }
  }

  lemma {:induction false} ReleaseSlotsLater(h: Heap, v: Val, ts: Tys)
    ensures Later(h, ReleaseSlots(h, v, ts).0)
    decreases v, 0
  {
    if v.Items? { ReleaseItemsLater(h, v.vs, ts); }
  }

  lemma {:induction false} ReleaseItemsLater(h: Heap, vs: Vals, ts: Tys)
    ensures Later(h, ReleaseItems(h, vs, ts).0)
    decreases vs, 0
  {
    if vs.More? && ts.Cons? {
      ReleaseLater(h, vs.head, ts.head);
      ReleaseItemsLater(Release(h, vs.head, ts.head).0, vs.tail, ts.tail);
    }
  }

  lemma {:induction false} CopyLater(h: Heap, dst: Val, src: Val, t: Ty, assign: bool, c: Choice)
    ensures Later(h, CopyValue(h, dst, src, t, assign, c).0)
    decreases src, 2
  {
    if !t.Str? && HasString(t) { CopyAggregateLater(h, dst, src, t, assign, c); }
  }

  lemma {:induction false} CopyAggregateLater(h: Heap, dst: Val, src: Val, t: Ty, assign: bool, c: Choice)
    ensures Later(h, CopyAggregate(h, dst, src, t, assign, c).0)
    decreases src, 1
  {
    match t
    case Scalar =>
    case Str =>
    case Struct(_, fields, _) => CopySlotsLater(h, dst, src, fields, assign, c);
    case Class(base, fields, _) =>
      if base.None? {
        CopySlotsLater(h, dst, src, fields, assign, c);
      } else if dst.Items? && src.Items? && dst.vs.More? && src.vs.More? {
        var g := CopyBase(h, dst.vs.head, src.vs.head, base.value, assign, c).0;
        CopyAggregateLater(h, dst.vs.head, src.vs.head, base.value, assign, c);
        CopyItemsLater(g, dst.vs.tail, src.vs.tail, fields, assign, c);
      }
    case Array(elem, n) => CopySlotsLater(h, dst, src, Repeat(elem, n), assign, c);
    case Optional(elem) =>
      if dst.Opt? && src.Opt? {
        CopyLater(h, dst.v, src.v, elem, assign, c);
        ReleaseLater(h, dst.v, elem);
      }
    case Result(s, e) =>
      if dst.Res? && src.Res? {
        CopyLater(h, dst.v, src.v, s, assign, c);
        ReleaseLater(CopyValue(h, dst.v, src.v, s, assign, c).0, dst.e, e);
        CopyLater(h, dst.e, src.e, e, assign, c);
        ReleaseLater(CopyValue(h, dst.e, src.e, e, assign, c).0, dst.v, s);
      }
  }

  lemma {:induction false} CopySlotsLater(h: Heap, dst: Val, src: Val, ts: Tys, assign: bool, c: Choice)
    ensures Later(h, CopySlots(h, dst, src, ts, assign, c).0)
    decreases src, 0
  {
    if dst.Items? && src.Items? { CopyItemsLater(h, dst.vs, src.vs, ts, assign, c); }
  }

  lemma {:induction false} CopyItemsLater(h: Heap, dsts: Vals, srcs: Vals, ts: Tys, assign: bool, c: Choice)
    ensures Later(h, CopyItems(h, dsts, srcs, ts, assign, c).0)
    decreases srcs, 0
  {
    if srcs.More? && dsts.More? && ts.Cons? {
      CopyLater(h, dsts.head, srcs.head, ts.head, assign, c);
      var g := CopyValue(h, dsts.head, srcs.head, ts.head, assign, c).0;
      CopyItemsLater(g, dsts.tail, srcs.tail, ts.tail, assign, c);
    }
  }
}
