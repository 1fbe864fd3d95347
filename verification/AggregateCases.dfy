/** Which types the walk fits, and types that it does not fit. */
module AggregateCases {
  import opened Options
  import opened StringHeap
  import opened StringAggregates
  import opened AggregateTheorem
  import opened AggregateWitness
  import opened AggregateLimits

  // ---- types that fit ----

  /** A struct may have a base once its layout is materialised, a class as long as it is not;
      and the base of a class with strings has strings itself, or nothing to be missed. */
  predicate Regular(t: Ty, w: Walk) {
    match t
    case Scalar => true
    case Str => true
    case Struct(base, fields, m) => (base.Some? ==> m) && AllRegular(fields, w)
    case Class(base, fields, m) =>
      && AllRegular(fields, w)
      && (base.Some? ==> !m && !base.value.Str? && Regular(base.value, w))
      && (base.Some? && HasString(t) && !HasString(base.value) ==> !Holds(base.value, w))
    case Array(elem, _) => Regular(elem, w)
    case Optional(elem) => Regular(elem, w)
    case Result(s, e) => Regular(s, w) && Regular(e, w)
  }

  predicate AllRegular(ts: Tys, w: Walk) {
    ts.Cons? ==> Regular(ts.head, w) && AllRegular(ts.tail, w)
  }

  /** Where the generator finds no strings there are none. */
  lemma {:induction false} RegularFound(t: Ty, w: Walk)
    requires Regular(t, w) && Holds(t, Releasing)
    ensures HasString(t)
  {
    match t
    case Scalar =>
    case Str =>
    case Struct(base, fields, m) => AllRegularFound(fields, w);
    case Class(base, fields, m) =>
      if base.Some? && Holds(base.value, Releasing) {
        RegularFound(base.value, w);
      } else {
        AllRegularFound(fields, w);
      }
    case Array(elem, _) => RegularFound(elem, w);
    case Optional(elem) => RegularFound(elem, w);
    case Result(s, e) => if Holds(s, Releasing) { RegularFound(s, w); } else { RegularFound(e, w); }
  }

  lemma {:induction false} AllRegularFound(ts: Tys, w: Walk)
    requires AllRegular(ts, w) && AnyHolds(ts, Releasing)
    ensures AnyString(ts)
  {
    if Holds(ts.head, Releasing) { RegularFound(ts.head, w); } else { AllRegularFound(ts.tail, w); }
  }

  lemma {:induction false} RegularFits(t: Ty, w: Walk)
    requires Regular(t, w)
    ensures Fits(t, t, w)
    decreases t, 0
  {
    if !HasString(t) {
      if Holds(t, Releasing) { RegularFound(t, w); }
    } else {
      match t
      case Scalar =>
      case Str =>
      case Struct(_, fields, _) => AllRegularFit(fields, w);
      case Class(base, fields, _) =>
        AllRegularFit(fields, w);
        if base.Some? { RegularFits(base.value, w); }
      case Array(elem, n) => RegularFitsEach(elem, n, w);
      case Optional(elem) => RegularFits(elem, w);
      case Result(s, e) =>
        RegularFits(s, w);
        RegularFits(e, w);
    }
  }

  lemma {:induction false} AllRegularFit(ts: Tys, w: Walk)
    requires AllRegular(ts, w)
    ensures FitsAll(ts, ts, w)
    decreases ts, 0
  {
    if ts.Cons? {
      RegularFits(ts.head, w);
      AllRegularFit(ts.tail, w);
    }
  }

  lemma {:induction false} RegularFitsEach(t: Ty, n: nat, w: Walk)
    requires Regular(t, w)
    ensures FitsEach(t, n, Repeat(t, n), w)
    decreases t, 1 + n
  {
    if n > 0 {
      RegularFits(t, w);
      RegularFitsEach(t, n - 1, w);
    }
  }

  // ---- types that do not ----

  /** struct Text { string s; }; */
  const TEXT: Ty := Struct(None, Cons(Str, Nil), false)

  const NULL_TEXT: Val := Items(More(StrV(NULL), None_))
  const ONE_TEXT: Val := Items(More(StrV(ONE), None_))

  /** struct Shared : Text { int32 x; }; */
  const SHARED: Ty := Struct(Some(TEXT), Cons(Scalar, Nil), false)

  /** No string is found in the fields of Shared, so its values are stored as they are, and
      both objects own one buffer. */
  lemma DerivedStructShares(c: Choice)
    ensures var src := Items(More(ONE_TEXT, More(Num(7), None_)));
      && !Fits(SHARED, SHARED, Copying) && Ready(HEAP, Blank(SHARED), src, SHARED, true)
      && CopyValue(HEAP, Blank(SHARED), src, SHARED, true, c) == (HEAP, src) && Ptrs(src) == {0}
  {
    BlankEmpty(HEAP, SHARED);
    assert AnyString(Cons(Scalar, Nil)) == AnyString(Nil) == false;
  }

  /** struct Skipped : Text { Text extra; }; */
  const SKIPPED: Ty := Struct(Some(TEXT), Cons(TEXT, Nil), false)

  /** The base object is copied as if it were `extra`, and `extra` is left as it was. */
  lemma DerivedStructSkips(c: Choice)
    ensures var src := Items(More(NULL_TEXT, More(ONE_TEXT, None_)));
      && !Fits(SKIPPED, SKIPPED, Copying) && Ready(HEAP, Blank(SKIPPED), src, SKIPPED, true)
      && CopyValue(HEAP, Blank(SKIPPED), src, SKIPPED, true, c) == (HEAP, Blank(SKIPPED))
      && Good(HEAP, Blank(SKIPPED)) && Seen(HEAP, Blank(SKIPPED)) != Seen(HEAP, src)
  {
    var src := Items(More(NULL_TEXT, More(ONE_TEXT, None_)));
    SkippedReady();
    SkippedCopied(c);
    OutlinesDiffer();
    hide *;
    if Seen(HEAP, Blank(SKIPPED)) == Seen(HEAP, src) {
      SeenOutline(HEAP, Blank(SKIPPED), HEAP, src);
      assert false;
    }
  }

  lemma SkippedReady()
    ensures Blank(SKIPPED) == Items(More(NULL_TEXT, More(NULL_TEXT, None_))) && !Fits(SKIPPED, SKIPPED, Copying)
    ensures Good(HEAP, Blank(SKIPPED))
    ensures Ready(HEAP, Blank(SKIPPED), Items(More(NULL_TEXT, More(ONE_TEXT, None_))), SKIPPED, true)
  {
    assert AnyHolds(Cons(TEXT, Nil), Copying);
  }

  lemma SkippedCopied(c: Choice)
    ensures var dst := Items(More(NULL_TEXT, More(NULL_TEXT, None_)));
      var src := Items(More(NULL_TEXT, More(ONE_TEXT, None_)));
      CopyValue(HEAP, dst, src, SKIPPED, true, c) == (HEAP, dst)
  {
    var dst, src := Items(More(NULL_TEXT, More(NULL_TEXT, None_))), Items(More(NULL_TEXT, More(ONE_TEXT, None_)));
    CopyUnfolds(HEAP, dst, src, SKIPPED, Cons(TEXT, Nil), true, c);
    CopyUnfolds(HEAP, NULL_TEXT, NULL_TEXT, TEXT, Cons(Str, Nil), true, c);
  }

  lemma OutlinesDiffer()
    ensures Outline(Items(More(NULL_TEXT, More(NULL_TEXT, None_))))
         != Outline(Items(More(NULL_TEXT, More(ONE_TEXT, None_))))
  {
    var none, one := Outlines(More(NULL_TEXT, None_)), Outlines(More(ONE_TEXT, None_));
    assert |seq(ONE.len, _ => 0 as Byte)| != |seq(NULL.len, _ => 0 as Byte)|;
    ConsSame(Outline(StrV(NULL)), Outline(StrV(ONE)), [], []);
    ConsSame(Outline(NULL_TEXT), Outline(ONE_TEXT), [], []);
    ConsSame(Outline(NULL_TEXT), Outline(NULL_TEXT), none, one);
  }

  /** struct Number { int32 n; }; struct Mistaken : Number { string s; }; */
  const NUMBER: Ty := Struct(None, Cons(Scalar, Nil), false)
  const MISTAKEN: Ty := Struct(Some(NUMBER), Cons(Str, Nil), false)

  lemma TwoSlots(v: Val, t: Ty, u: Ty, w: Ty)
    requires Typed(v, w) && Listed(w) && Slots(w) == Cons(t, Cons(u, Nil))
    ensures v.Items? && v.vs.More? && v.vs.tail.More? && v.vs.tail.tail.None_?
    ensures Typed(v.vs.head, t) && Typed(v.vs.tail.head, u)
  {
    assert TypedAll(v.vs.tail, Cons(u, Nil));
    assert TypedAll(v.vs.tail.tail, Nil);
  }

  /** A string copy is emitted for the slot of the base object. */
  lemma DerivedStructMistakes(h: Heap, dst: Val, src: Val, assign: bool, c: Choice)
    requires Typed(dst, MISTAKEN) && Typed(src, MISTAKEN)
    ensures !Fits(MISTAKEN, MISTAKEN, Copying) && !CopyValue(h, dst, src, MISTAKEN, assign, c).0.ok
  {
    CopyUnfolds(h, dst, src, MISTAKEN, Cons(Str, Nil), assign, c);
    TwoSlots(dst, NUMBER, Str, MISTAKEN);
    TwoSlots(src, NUMBER, Str, MISTAKEN);
    var g := CopyValue(h, dst.vs.head, src.vs.head, Str, assign, c).0;
    assert CopyItems(g, dst.vs.tail, src.vs.tail, Nil, assign, c).0 == g == Fail(h);
    assert CopyItems(h, dst.vs, src.vs, Cons(Str, Nil), assign, c).0 == g;
  }

  /** class Plain { int32 n; }; class Overrun : Plain { string s; }; with a layout that has put
      the base object into the field list. */
  const PLAIN: Ty := Class(None, Cons(Scalar, Nil), false)
  const OVERRUN: Ty := Class(Some(PLAIN), Cons(PLAIN, Cons(Str, Nil)), true)

  /** Every field is looked for one slot too far. */
  lemma MaterialisedClassOverruns(h: Heap, dst: Val, src: Val, assign: bool, c: Choice)
    requires Typed(dst, OVERRUN) && Typed(src, OVERRUN)
    ensures !Fits(OVERRUN, OVERRUN, Copying) && !Fits(OVERRUN, OVERRUN, Releasing)
    ensures !CopyValue(h, dst, src, OVERRUN, assign, c).0.ok && !Release(h, dst, OVERRUN).0.ok
  {
    assert !HasString(PLAIN);
    DerivedUnfolds(h, dst, src, OVERRUN, assign, c);
    DerivedUnfolds(h, dst, dst, OVERRUN, assign, c);
    TwoSlots(dst, PLAIN, Str, OVERRUN);
    TwoSlots(src, PLAIN, Str, OVERRUN);
    var (d, s) := (dst.vs.tail, src.vs.tail);
    var x := CopyValue(h, d.head, s.head, PLAIN, assign, c).0;
    assert !CopyItems(x, d.tail, s.tail, Cons(Str, Nil), assign, c).0.ok;
    var y := Release(h, d.head, PLAIN).0;
    assert !ReleaseItems(y, d.tail, Cons(Str, Nil)).0.ok;
  }
}
