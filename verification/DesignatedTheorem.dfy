/** The constant of a designated initialiser and the memory its stores leave are the same
    tree, in which every path holds the value last written to it. */
module DesignatedTheorem {
  import opened Options
  import opened BitInt
  import BitField
  import ConstantUnits
  import opened Designated

  // ---- flattening ----

  lemma {:induction false} FlattenLength(t: Type, v: Val)
    requires Shape(t, v)
    ensures |Flatten(v)| == Cells(t)
    decreases t, 0
  {
    match t
    case Scalar(_) =>
    case Array(e, n) => ElementsLength(e, v.kids);
    case Record(_, slots, _, _) => SlotsLength(slots, v.kids);
  }

  lemma {:induction false} ElementsLength(e: Type, kids: seq<Val>)
    requires forall k :: 0 <= k < |kids| ==> Shape(e, kids[k])
    ensures |FlattenAll(kids)| == |kids| * Cells(e)
    decreases e, 1 + |kids|
  {
    if kids != [] {
      FlattenLength(e, kids[0]);
      ElementsLength(e, kids[1..]);
      Times(|kids|, Cells(e));
    }
  }

  lemma Times(n: nat, c: nat)
    requires n > 0
    ensures n * c == c + (n - 1) * c
  {
  }

  lemma {:induction false} SlotsLength(slots: seq<Slot>, kids: seq<Val>)
    requires |slots| == |kids| && forall k :: 0 <= k < |slots| ==> Shape(slots[k].ty, kids[k])
    ensures |FlattenAll(kids)| == CellsAll(slots)
    decreases slots, 1
  {
    if kids != [] {
      FlattenLength(slots[0].ty, kids[0]);
      SlotsLength(slots[1..], kids[1..]);
    }
  }

  lemma {:induction false} FlattenSplit(kids: seq<Val>, k: nat)
    requires k < |kids|
    ensures FlattenAll(kids) == FlattenAll(kids[..k]) + Flatten(kids[k]) + FlattenAll(kids[k + 1..])
  {
    if k > 0 {
      FlattenSplit(kids[1..], k - 1);
      assert kids[1..][..k - 1] == kids[..k][1..];
    }
  }

  /** Changing one scalar below one child changes that scalar of the parent. */
  lemma UpdateChild(kids: seq<Val>, k: nat, v: Val, o: nat, b: Bits)
    requires k < |kids| && o < |Flatten(kids[k])| && Flatten(v) == Flatten(kids[k])[o := b]
    ensures var p := |FlattenAll(kids[..k])|;
      && p + o < |FlattenAll(kids)| && FlattenAll(kids)[p + o] == Flatten(kids[k])[o]
      && FlattenAll(kids[k := v]) == FlattenAll(kids)[p + o := b]
  {
    FlattenSplit(kids, k);
    FlattenSplit(kids[k := v], k);
    assert kids[k := v][..k] == kids[..k] && kids[k := v][k + 1..] == kids[k + 1..];
  }

  // ---- pointers ----

  function Shift(w: Spotted, d: int): Spotted {
    w.(at := w.at + d)
  }

  lemma {:induction false} PointerShift(t: Type, at: int, d: int, n: string)
    requires Sound(t) && t.Record?
    ensures var f, g := FieldPointer(t, at, n), FieldPointer(t, at + d, n);
      if f.Some? then g == Some(Shift(f.value, d)) else g == None
    decreases t
  {
    assert Fits(t, Own(t, n));
    if Own(t, n) == Absent && t.based { PointerShift(t.slots[0].ty, at, d, n); }
  }

  lemma {:induction false} WalkShift(w: Spotted, d: int, chain: seq<Designator>)
    requires Sound(w.ty)
    ensures Walk(Shift(w, d), chain) == Shift(Walk(w, chain), d)
    decreases |chain|
  {
    if chain != [] {
      if chain[0].Field? && w.ty.Record? { PointerShift(w.ty, w.at, d, chain[0].name); }
      assert Step(Shift(w, d), chain[0]) == Shift(Step(w, chain[0]), d);
      WalkShift(Step(w, chain[0]), d, chain[1..]);
    }
  }

  /** Two arrivals that only differ in the record a bit-field was named through. */
  predicate Same(v: Spotted, w: Spotted) {
    v.at == w.at && v.bits == w.bits && (v.bits == None ==> v.ty == w.ty)
  }

  lemma {:induction false} PointerFound(t: Type, chain: seq<Designator>)
    requires Sound(t) && Reaches(t, chain) && chain != [] && chain[0].Field?
    ensures FieldPointer(t, 0, chain[0].name).Some?
    ensures FieldPointer(t, 0, chain[0].name).value.bits.Some? ==> |chain| == 1
    decreases t
  {
    if Own(t, chain[0].name) == Absent { PointerFound(t.slots[0].ty, chain); }
  }

  lemma WalkOne(w: Spotted, chain: seq<Designator>)
    requires Sound(w.ty) && |chain| == 1
    ensures Walk(w, chain) == Step(w, chain[0])
  {
    var r := Step(w, chain[0]);
    assert Walk(r, chain[1..]) == r;
  }

  lemma ThroughIndex(t: Type, chain: seq<Designator>)
    requires Sound(t) && Reaches(t, chain) && t.Array?
    ensures Target(t, chain) == Shift(Target(t.elem, chain[1..]), chain[0].i * Cells(t.elem))
  {
    WalkShift(Spotted(0, t.elem, None), chain[0].i * Cells(t.elem), chain[1..]);
  }

  lemma ThroughSlot(t: Type, chain: seq<Designator>, k: nat, ty: Type)
    requires Sound(t) && Reaches(t, chain) && t.Record? && Own(t, chain[0].name) == InSlot(k, ty)
    ensures Fits(t, InSlot(k, ty)) && Target(t, chain) == Shift(Target(ty, chain[1..]), Before(t.slots, k))
  {
    assert Fits(t, Own(t, chain[0].name));
    WalkShift(Spotted(0, ty, None), Before(t.slots, k), chain[1..]);
  }

  lemma ThroughUnit(t: Type, chain: seq<Designator>, s: Spot, declared: nat)
    requires Sound(t) && Reaches(t, chain) && t.Record? && Own(t, chain[0].name) == InUnit(s, declared)
    ensures Fits(t, InUnit(s, declared)) && Target(t, chain) == Spotted(Before(t.slots, s.unit), t, Some((s, declared)))
  {
    assert Fits(t, Own(t, chain[0].name));
    WalkOne(Spotted(0, t, None), chain);
  }

  lemma ThroughBase(t: Type, chain: seq<Designator>)
    requires Sound(t) && Reaches(t, chain) && t.Record? && Own(t, chain[0].name) == Absent
    ensures Same(Target(t, chain), Target(t.slots[0].ty, chain))
  {
    PointerFound(t, chain);
    var base := t.slots[0].ty;
    assert FieldPointer(t, 0, chain[0].name) == FieldPointer(base, 0, chain[0].name);
    if FieldPointer(t, 0, chain[0].name).value.bits.Some? {
      WalkOne(Spotted(0, t, None), chain);
      WalkOne(Spotted(0, base, None), chain);
    } else {
      assert Step(Spotted(0, t, None), chain[0]) == Step(Spotted(0, base, None), chain[0]);
    }
  }

  // ---- one element ----

  /** What the run-time code stores at an arrival. */
  function Stored(old_: Bits, w: Spotted, it: Item): Bits {
    match w.bits
    case None => if w.ty.Scalar? then Cast(it, w.ty.width) else old_
    case Some((s, declared)) =>
      if s.offset + s.width <= |old_| then BitField.Store(old_, s.offset, s.width, Cast(it, declared)) else old_
  }

  /** Can the constant builder widen a value to what it finds there? */
  predicate Wide(w: Spotted) {
    w.bits.Some? ==> w.bits.value.1 <= w.bits.value.0.unitBits
  }

  /** What the constant holds there. */
  function Merged(old_: Bits, w: Spotted, it: Item): Bits {
    match w.bits
    case None => if w.ty.Scalar? then Cast(it, w.ty.width) else old_
    case Some((s, declared)) =>
      if s.offset + s.width <= |old_| && declared <= |old_|
      then ConstantUnits.Accumulate(old_, s.offset, s.width, Cast(it, declared)).value else old_
  }

  ghost predicate Arrived(w: Spotted, cells: seq<Bits>) {
    && 0 <= w.at < |cells|
    && match w.bits
       case None => w.ty.Scalar? && |cells[w.at]| == w.ty.width
       case Some((s, _)) => |cells[w.at]| == s.unitBits && s.offset + s.width <= s.unitBits
  }

  /** The constant is rebuilt exactly at the address the pointer walk arrives at. */
  ghost predicate Updates(v: Option<Val>, acc: Val, w: Spotted, it: Item) {
    var cells := Flatten(acc);
    && Arrived(w, cells) && (v.Some? <==> Wide(w))
    && (v.Some? ==> Flatten(v.value) == cells[w.at := Merged(cells[w.at], w, it)])
  }

  /** A child's update, seen from its parent. */
  lemma ChildUpdates(kids: seq<Val>, k: nat, v: Option<Val>, w: Spotted, it: Item)
    requires k < |kids| && Updates(v, kids[k], w, it)
    ensures Updates(Rebuilt(k, kids, v), Node(kids), Shift(w, |FlattenAll(kids[..k])|), it)
  {
    var o := Merged(Flatten(kids[k])[w.at], w, it);
    var u := if v.Some? then v.value else kids[k];
    if v.Some? { UpdateChild(kids, k, u, w.at, o); } else { UpdateChild(kids, k, u, w.at, Flatten(kids[k])[w.at]); }
  }

  lemma {:induction false} PlaceIsUpdate(t: Type, acc: Val, chain: seq<Designator>, it: Item)
    requires Sound(t) && Shape(t, acc) && Reaches(t, chain)
    ensures Updates(Place(t, acc, chain, it), acc, Target(t, chain), it)
    decreases |chain|, t
  {
    hide Updates;
    if chain == [] {
      ScalarUpdates(t, acc, it);
    } else {
      match t
      case Array(e, n) =>
        var i := chain[0].i;
        ThroughIndex(t, chain);
        ElementsLength(e, acc.kids[..i]);
        PlaceIsUpdate(e, acc.kids[i], chain[1..], it);
        ChildUpdates(acc.kids, i, Place(e, acc.kids[i], chain[1..], it), Target(e, chain[1..]), it);
      case Record(_, slots, _, _) =>
        match Own(t, chain[0].name)
        case InSlot(k, ty) =>
          ThroughSlot(t, chain, k, ty);
          SlotsLength(slots[..k], acc.kids[..k]);
          PlaceIsUpdate(ty, acc.kids[k], chain[1..], it);
          ChildUpdates(acc.kids, k, Place(ty, acc.kids[k], chain[1..], it), Target(ty, chain[1..]), it);
        case InUnit(s, declared) => PlaceInUnit(t, acc, chain, it, s, declared);
        case Absent =>
          ThroughBase(t, chain);
          var w := Target(slots[0].ty, chain);
          PlaceIsUpdate(slots[0].ty, acc.kids[0], chain, it);
          ChildUpdates(acc.kids, 0, Place(slots[0].ty, acc.kids[0], chain, it), w, it);
          SameUpdates(Place(t, acc, chain, it), acc, Shift(w, 0), Target(t, chain), it);
    }
  }

  lemma ScalarUpdates(t: Type, acc: Val, it: Item)
    requires Sound(t) && Shape(t, acc) && t.Scalar?
    ensures Updates(Place(t, acc, [], it), acc, Target(t, []), it)
  {
  }

  lemma SameUpdates(v: Option<Val>, acc: Val, w: Spotted, w': Spotted, it: Item)
    requires Updates(v, acc, w, it) && Same(w, w')
    ensures Updates(v, acc, w', it)
  {
  }

  lemma PlaceInUnit(t: Type, acc: Val, chain: seq<Designator>, it: Item, s: Spot, declared: nat)
    requires Sound(t) && Shape(t, acc) && Reaches(t, chain) && t.Record? && chain != []
    requires Own(t, chain[0].name) == InUnit(s, declared)
    ensures Updates(Place(t, acc, chain, it), acc, Target(t, chain), it)
  {
    ThroughUnit(t, chain, s, declared);
    SlotsLength(t.slots[..s.unit], acc.kids[..s.unit]);
    var unit := acc.kids[s.unit];
    assert Shape(t.slots[s.unit].ty, unit);
    var b := ConstantUnits.Accumulate(unit.bits, s.offset, s.width, Cast(it, declared));
    UpdateChild(acc.kids, s.unit, if b.Some? then Leaf(b.value) else unit, 0, if b.Some? then b.value else unit.bits);
  }
}
