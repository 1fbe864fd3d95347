/** Values on which a walk that does not fit its type can be seen to fail. */
module AggregateWitness {
  import opened Options
  import opened StringHeap
  import opened StringAggregates

  /** A string of one character, and a heap with nothing else. */
  const ONE: Header := Header(Some(0), 1, 2)
  const HEAP: Heap := Heap(map[0 := [65, 0]], [], 1, true)

  function Times(v: Val, n: nat): Vals {
    if n == 0 then None_ else More(v, Times(v, n - 1))
  }

  /** Null strings, zeros, flags clear. */
  function Blank(t: Ty): Val {
    match t
    case Scalar => Num(0)
    case Str => StrV(NULL)
    case Struct(base, fields, m) =>
      Items(if base.Some? && !m then More(Blank(base.value), Blanks(fields)) else Blanks(fields))
    case Class(base, fields, m) =>
      Items(if base.Some? && !m then More(Blank(base.value), Blanks(fields)) else Blanks(fields))
    case Array(elem, size) => Items(Times(Blank(elem), size))
    case Optional(elem) => Opt(false, Blank(elem))
    case Result(s, e) => Res(false, Blank(s), Blank(e))
  }

  function Blanks(ts: Tys): Vals {
    if ts.Nil? then None_ else More(Blank(ts.head), Blanks(ts.tail))
  }

  /** The blank value but for one place that the walk must not miss. */
  function Mark(t: Ty, w: Walk): Val
    requires Holds(t, w)
  {
    match t
    case Scalar => Num(1)
    case Str => StrV(ONE)
    case Struct(base, fields, m) =>
      if base.Some? && !m && Holds(base.value, w) then Items(More(Mark(base.value, w), Blanks(fields)))
      else if base.Some? && !m then Items(More(Blank(base.value), Marks(fields, w)))
      else Items(Marks(fields, w))
    case Class(base, fields, m) =>
      if base.Some? && !m && Holds(base.value, w) then Items(More(Mark(base.value, w), Blanks(fields)))
      else if base.Some? && !m then Items(More(Blank(base.value), Marks(fields, w)))
      else Items(Marks(fields, w))
    case Array(elem, size) => Items(More(Mark(elem, w), Times(Blank(elem), size - 1)))
    case Optional(elem) => Opt(true, if Holds(elem, w) then Mark(elem, w) else Blank(elem))
    case Result(s, e) =>
      if Holds(s, w) then Res(true, Mark(s, w), Blank(e))
      else if Holds(e, w) then Res(false, Blank(s), Mark(e, w))
      else Res(true, Blank(s), Blank(e))
  }

  function Marks(ts: Tys, w: Walk): Vals
    requires AnyHolds(ts, w)
  {
    if Holds(ts.head, w) then More(Mark(ts.head, w), Blanks(ts.tail)) else More(Blank(ts.head), Marks(ts.tail, w))
  }

  // ---- what shows without a heap ----

  /** What can be seen of a value, of strings only the length. */
  function Outline(v: Val): Content {
    match v
    case Num(n) => CNum(n)
    case StrV(s) => CText(seq(s.len, _ => 0))
    case Items(vs) => CItems(Outlines(vs))
    case Opt(valid, x) => if valid then CSome(Outline(x)) else CNone
    case Res(ok, x, e) => if ok then COk(Outline(x)) else CErr(Outline(e))
  }

  function Outlines(vs: Vals): seq<Content> {
    if vs.None_? then [] else [Outline(vs.head)] + Outlines(vs.tail)
  }

  lemma ConsSame(a: Content, b: Content, s: seq<Content>, t: seq<Content>)
    ensures [a] + s == [b] + t <==> a == b && s == t
  {
    assert ([a] + s)[0] == a && ([b] + t)[0] == b;
    assert ([a] + s)[1..] == s && ([b] + t)[1..] == t;
  }

  /** Values that show the same have the same outline. */
  lemma {:induction false} SeenOutline(g: Heap, a: Val, h: Heap, b: Val)
    requires Good(g, a) && Good(h, b) && Seen(g, a) == Seen(h, b)
    ensures Outline(a) == Outline(b)
    decreases a
  {
    match a
    case Num(_) =>
    case StrV(s) => assert |Text(g, s)| == |Text(h, b.h)|;
    case Items(vs) => AllSeenOutline(g, vs, h, b.vs);
    case Opt(valid, x) => if valid { SeenOutline(g, x, h, b.v); }
    case Res(ok, x, e) => if ok { SeenOutline(g, x, h, b.v); } else { SeenOutline(g, e, h, b.e); }
  }

  lemma {:induction false} AllSeenOutline(g: Heap, us: Vals, h: Heap, vs: Vals)
    requires AllGood(g, us) && AllGood(h, vs) && AllSeen(g, us) == AllSeen(h, vs)
    ensures Outlines(us) == Outlines(vs)
    decreases us
  {
    if us.More? {
      ConsSame(Seen(g, us.head), Seen(h, vs.head), AllSeen(g, us.tail), AllSeen(h, vs.tail));
      SeenOutline(g, us.head, h, vs.head);
      AllSeenOutline(g, us.tail, h, vs.tail);
    }
  }

  // ---- blank values ----

  ghost predicate Empty(h: Heap, v: Val, t: Ty) {
    Typed(v, t) && Nulls(v) && Good(h, v) && Ptrs(v) == {}
  }

  ghost predicate AllEmpty(h: Heap, vs: Vals, ts: Tys) {
    TypedAll(vs, ts) && AllNulls(vs) && AllGood(h, vs) && AllPtrs(vs) == {}
  }

  lemma {:induction false} TimesEmpty(h: Heap, v: Val, t: Ty, n: nat)
    requires Empty(h, v, t)
    ensures AllEmpty(h, Times(v, n), Repeat(t, n))
  {
    if n > 0 { TimesEmpty(h, v, t, n - 1); }
  }

  lemma {:induction false} BlankEmpty(h: Heap, t: Ty)
    ensures Empty(h, Blank(t), t)
  {
    match t
    case Scalar =>
    case Str =>
    case Struct(base, fields, m) =>
      BlanksEmpty(h, fields);
      if base.Some? && !m { BlankEmpty(h, base.value); }
    case Class(base, fields, m) =>
      BlanksEmpty(h, fields);
      if base.Some? && !m { BlankEmpty(h, base.value); }
    case Array(elem, size) =>
      BlankEmpty(h, elem);
      TimesEmpty(h, Blank(elem), elem, size);
    case Optional(elem) => BlankEmpty(h, elem);
    case Result(s, e) =>
      BlankEmpty(h, s);
      BlankEmpty(h, e);
  }

  lemma {:induction false} BlanksEmpty(h: Heap, ts: Tys)
    ensures AllEmpty(h, Blanks(ts), ts)
  {
    if ts.Cons? {
      BlankEmpty(h, ts.head);
      BlanksEmpty(h, ts.tail);
    }
  }

  lemma {:induction false} BlanksOfRepeat(t: Ty, n: nat)
    ensures Blanks(Repeat(t, n)) == Times(Blank(t), n)
  {
    if n > 0 { BlanksOfRepeat(t, n - 1); }
  }

  lemma BlankSlots(t: Ty)
    requires Listed(t)
    ensures Blank(t) == Items(Blanks(Slots(t)))
  {
    if t.Array? { BlanksOfRepeat(t.elem, t.size); }
  }

  // ---- marked values ----

  /** A value of the type that is sound where the one string is, and differs from the blank
      one; marked for a release, it holds the string. */
  ghost predicate Marked(h: Heap, v: Val, t: Ty, blank: Val, w: Walk) {
    Typed(v, t) && Good(h, v) && Outline(v) != Outline(blank) && (w.Releasing? ==> 0 in Ptrs(v))
  }

  ghost predicate AllMarked(h: Heap, vs: Vals, ts: Tys, blanks: Vals, w: Walk) {
    TypedAll(vs, ts) && AllGood(h, vs) && Outlines(vs) != Outlines(blanks) && (w.Releasing? ==> 0 in AllPtrs(vs))
  }

  lemma HeadMarked(h: Heap, v: Val, t: Ty, blank: Val, rest: Vals, ts: Tys, w: Walk)
    requires Marked(h, v, t, blank, w) && AllEmpty(h, rest, ts)
    ensures AllMarked(h, More(v, rest), Cons(t, ts), More(blank, rest), w)
  {
    ConsSame(Outline(v), Outline(blank), Outlines(rest), Outlines(rest));
  }

  lemma TailMarked(h: Heap, blank: Val, t: Ty, vs: Vals, ts: Tys, blanks: Vals, w: Walk)
    requires AllMarked(h, vs, ts, blanks, w) && Empty(h, blank, t)
    ensures AllMarked(h, More(blank, vs), Cons(t, ts), More(blank, blanks), w)
  {
    ConsSame(Outline(blank), Outline(blank), Outlines(vs), Outlines(blanks));
  }

  lemma {:induction false} MarkMarked(h: Heap, t: Ty, w: Walk)
    requires Owns(h, ONE) && Holds(t, w)
    ensures Marked(h, Mark(t, w), t, Blank(t), w)
    decreases t, 1
  {
    match t
    case Scalar =>
    case Str => assert |seq(ONE.len, _ => 0 as Byte)| != |seq(NULL.len, _ => 0 as Byte)|;
    case Struct(base, fields, m) => RecordMarked(h, base, fields, m, t, w);
    case Class(base, fields, m) => RecordMarked(h, base, fields, m, t, w);
    case Array(elem, size) =>
      MarkMarked(h, elem, w);
      BlankEmpty(h, elem);
      TimesEmpty(h, Blank(elem), elem, size - 1);
      HeadMarked(h, Mark(elem, w), elem, Blank(elem), Times(Blank(elem), size - 1), Repeat(elem, size - 1), w);
    case Optional(elem) =>
      BlankEmpty(h, elem);
      if Holds(elem, w) { MarkMarked(h, elem, w); }
    case Result(s, e) =>
      BlankEmpty(h, s);
      BlankEmpty(h, e);
      if Holds(s, w) { MarkMarked(h, s, w); } else if Holds(e, w) { MarkMarked(h, e, w); }
  }

  lemma {:induction false} RecordMarked(h: Heap, base: Option<Ty>, fields: Tys, m: bool, t: Ty, w: Walk)
    requires Owns(h, ONE) && Holds(t, w) && (t == Struct(base, fields, m) || t == Class(base, fields, m))
    ensures Marked(h, Mark(t, w), t, Blank(t), w)
    decreases t, 0
  {
    if base.Some? && !m && Holds(base.value, w) {
      MarkMarked(h, base.value, w);
      BlanksEmpty(h, fields);
      HeadMarked(h, Mark(base.value, w), base.value, Blank(base.value), Blanks(fields), fields, w);
    } else {
      MarksMarked(h, fields, w);
      if base.Some? && !m {
        BlankEmpty(h, base.value);
        TailMarked(h, Blank(base.value), base.value, Marks(fields, w), fields, Blanks(fields), w);
      }
    }
  }

  lemma {:induction false} MarksMarked(h: Heap, ts: Tys, w: Walk)
    requires Owns(h, ONE) && AnyHolds(ts, w)
    ensures AllMarked(h, Marks(ts, w), ts, Blanks(ts), w)
    decreases ts, 1
  {
    if Holds(ts.head, w) {
      MarkMarked(h, ts.head, w);
      BlanksEmpty(h, ts.tail);
      HeadMarked(h, Mark(ts.head, w), ts.head, Blank(ts.head), Blanks(ts.tail), ts.tail, w);
    } else {
      BlankEmpty(h, ts.head);
      MarksMarked(h, ts.tail, w);
      TailMarked(h, Blank(ts.head), ts.head, Marks(ts.tail, w), ts.tail, Blanks(ts.tail), w);
    }
  }

  // ---- the value a walk that does not fit fails on ----

  /** A value of type u on which the walk at type t fails: blank but for one place that the
      walk misses or treats as something else. */
  function Culprit(t: Ty, u: Ty, w: Walk): Val
    requires !Fits(t, u, w)
    decreases t, 0
  {
    if !HasString(t) then Mark(u, Releasing)
    else match t
      case Optional(e) => if u.Optional? then Opt(true, Culprit(e, u.elem, w)) else Blank(u)
      case Result(s, e) =>
        if !u.Result? then Blank(u)
        else if !Fits(s, u.success, w) then Res(true, Culprit(s, u.success, w), Blank(u.error))
        else Res(false, Blank(u.success), Culprit(e, u.error, w))
      case Array(elem, n) => if Listed(u) then Items(CulpritEach(elem, n, Slots(u), w)) else Blank(u)
      case Struct(_, fields, _) => if Listed(u) then Items(CulpritAll(fields, Slots(u), w)) else Blank(u)
      case Class(base, fields, _) =>
        if !Listed(u) || (base.Some? && Slots(u).Nil?) then Blank(u)
        else if base.None? then Items(CulpritAll(fields, Slots(u), w))
        else
          var us := Slots(u);
          if BaseWalked(base.value) && !Fits(base.value, us.head, w)
          then Items(More(Culprit(base.value, us.head, w), Blanks(us.tail)))
          else if !BaseWalked(base.value) && Holds(us.head, w) then Items(More(Mark(us.head, w), Blanks(us.tail)))
          else Items(More(Blank(us.head), CulpritAll(fields, us.tail, w)))
      case _ => Blank(u)
  }

  function CulpritEach(t: Ty, n: nat, us: Tys, w: Walk): Vals
    requires !FitsEach(t, n, us, w)
    decreases t, 1 + n
  {
    if n == 0 then Marks(us, w)
    else if us.Nil? then None_
    else if !Fits(t, us.head, w) then More(Culprit(t, us.head, w), Blanks(us.tail))
    else More(Blank(us.head), CulpritEach(t, n - 1, us.tail, w))
  }

  function CulpritAll(ts: Tys, us: Tys, w: Walk): Vals
    requires !FitsAll(ts, us, w)
    decreases ts, 0
  {
    if ts.Nil? then Marks(us, w)
    else if us.Nil? then None_
    else if !Fits(ts.head, us.head, w) then More(Culprit(ts.head, us.head, w), Blanks(us.tail))
    else More(Blank(us.head), CulpritAll(ts.tail, us.tail, w))
  }

  lemma Beside(h: Heap, v: Val, t: Ty, rest: Vals, ts: Tys)
    requires Typed(v, t) && Good(h, v) && AllEmpty(h, rest, ts)
    ensures TypedAll(More(v, rest), Cons(t, ts)) && AllGood(h, More(v, rest))
  {
  }

  lemma Behind(h: Heap, v: Val, t: Ty, rest: Vals, ts: Tys)
    requires Empty(h, v, t) && TypedAll(rest, ts) && AllGood(h, rest)
    ensures TypedAll(More(v, rest), Cons(t, ts)) && AllGood(h, More(v, rest))
  {
  }

  lemma {:induction false} CulpritGood(h: Heap, t: Ty, u: Ty, w: Walk)
    requires Owns(h, ONE) && !Fits(t, u, w)
    ensures Typed(Culprit(t, u, w), u) && Good(h, Culprit(t, u, w))
    decreases t, 1
  {
    BlankEmpty(h, u);
    if !HasString(t) {
      MarkMarked(h, u, Releasing);
    } else {
      match t
      case Optional(e) => if u.Optional? { CulpritGood(h, e, u.elem, w); }
      case Result(s, e) =>
        if u.Result? {
          BlankEmpty(h, u.success);
          BlankEmpty(h, u.error);
          if !Fits(s, u.success, w) { CulpritGood(h, s, u.success, w); } else { CulpritGood(h, e, u.error, w); }
        }
      case Array(elem, n) => if Listed(u) { CulpritEachGood(h, elem, n, Slots(u), w); }
      case Struct(_, fields, _) => if Listed(u) { CulpritAllGood(h, fields, Slots(u), w); }
      case Class(base, fields, _) => if Listed(u) { CulpritDerivedGood(h, t, u, w); }
      case _ =>
    }
  }

  lemma {:induction false} CulpritDerivedGood(h: Heap, t: Ty, u: Ty, w: Walk)
    requires Owns(h, ONE) && !Fits(t, u, w) && HasString(t) && t.Class? && Listed(u)
    ensures Typed(Culprit(t, u, w), u) && Good(h, Culprit(t, u, w))
    decreases t, 0
  {
    var us := Slots(u);
    BlankEmpty(h, u);
    if t.base.None? {
      CulpritAllGood(h, t.fields, us, w);
    } else if us.Cons? {
      var b := t.base.value;
      BlankEmpty(h, us.head);
      BlanksEmpty(h, us.tail);
      if BaseWalked(b) && !Fits(b, us.head, w) {
        CulpritGood(h, b, us.head, w);
        Beside(h, Culprit(b, us.head, w), us.head, Blanks(us.tail), us.tail);
      } else if !BaseWalked(b) && Holds(us.head, w) {
        MarkMarked(h, us.head, w);
        Beside(h, Mark(us.head, w), us.head, Blanks(us.tail), us.tail);
      } else {
        CulpritAllGood(h, t.fields, us.tail, w);
        Behind(h, Blank(us.head), us.head, CulpritAll(t.fields, us.tail, w), us.tail);
      }
    }
  }

  lemma {:induction false} CulpritEachGood(h: Heap, t: Ty, n: nat, us: Tys, w: Walk)
    requires Owns(h, ONE) && !FitsEach(t, n, us, w)
    ensures TypedAll(CulpritEach(t, n, us, w), us) && AllGood(h, CulpritEach(t, n, us, w))
    decreases t, 2 + n
  {
    if n == 0 {
      MarksMarked(h, us, w);
    } else if us.Cons? {
      BlankEmpty(h, us.head);
      BlanksEmpty(h, us.tail);
      if !Fits(t, us.head, w) { CulpritGood(h, t, us.head, w); } else { CulpritEachGood(h, t, n - 1, us.tail, w); }
    }
  }

  lemma {:induction false} CulpritAllGood(h: Heap, ts: Tys, us: Tys, w: Walk)
    requires Owns(h, ONE) && !FitsAll(ts, us, w)
    ensures TypedAll(CulpritAll(ts, us, w), us) && AllGood(h, CulpritAll(ts, us, w))
    decreases ts, 0
  {
    if ts.Nil? {
      MarksMarked(h, us, w);
    } else if us.Cons? {
      BlankEmpty(h, us.head);
      BlanksEmpty(h, us.tail);
      if !Fits(ts.head, us.head, w) {
        CulpritGood(h, ts.head, us.head, w);
      } else {
        CulpritAllGood(h, ts.tail, us.tail, w);
      }
    }
  }
}
