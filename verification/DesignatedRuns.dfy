/** Whole initialiser lists: what each path holds afterwards, in the constant and in memory. */
module DesignatedRuns {
  import opened Arith
  import opened Options
  import opened BitInt
  import opened Designated
  import opened DesignatedTheorem

  ghost predicate Checked(t: Type, items: seq<Item>) {
    forall i :: 0 <= i < |items| ==> items[i].chain == [] || Reaches(t, items[i].chain)
  }

  ghost predicate Alike(a: seq<Bits>, b: seq<Bits>) {
    |a| == |b| && forall i :: 0 <= i < |a| ==> |a[i]| == |b[i]|
  }

  function Blank(t: Type): seq<Bits> {
    Flatten(Zero(t))
  }

  lemma {:induction false} ArrivedAlike(t: Type, cells: seq<Bits>, chain: seq<Designator>)
    requires Sound(t) && Reaches(t, chain) && Alike(cells, Blank(t))
    ensures Arrived(Target(t, chain), cells)
  {
    ZeroShape(t);
    PlaceIsUpdate(t, Zero(t), chain, Item(chain, [], false));
  }

  function StoreAt(cells: seq<Bits>, w: Spotted, it: Item): (r: seq<Bits>)
    requires Arrived(w, cells)
    ensures Alike(r, cells)
  {
    cells[w.at := Stored(cells[w.at], w, it)]
  }

  /** The stores of the whole list, one element after the other. */
  ghost function Run(t: Type, cells: seq<Bits>, items: seq<Item>): (r: seq<Bits>)
    requires Sound(t) && Checked(t, items) && Alike(cells, Blank(t))
    ensures Alike(r, cells)
  {
    if items == [] then cells
    else
      var before, last := Run(t, cells, items[..|items| - 1]), items[|items| - 1];
      if last.chain == [] then before
      else
        ArrivedAlike(t, before, last.chain);
        StoreAt(before, Target(t, last.chain), last)
  }

  // ---- different chains never meet ----

  ghost predicate Disjoint(v: Spotted, w: Spotted) {
    v.at == w.at ==>
      && v.bits.Some? && w.bits.Some?
      && var (r, s) := (v.bits.value.0, w.bits.value.0);
         r.offset + r.width <= s.offset || s.offset + s.width <= r.offset
  }

  lemma InRange(t: Type, chain: seq<Designator>)
    requires Sound(t) && Reaches(t, chain)
    ensures 0 <= Target(t, chain).at < Cells(t)
  {
    ZeroShape(t);
    FlattenLength(t, Zero(t));
    ArrivedAlike(t, Blank(t), chain);
  }

  function Home(f: Found): nat {
    match f
    case InSlot(k, _) => k
    case InUnit(s, _) => s.unit
    case _ => 0
  }

  lemma AtHome(t: Type, chain: seq<Designator>)
    requires Sound(t) && t.Record? && Reaches(t, chain)
    ensures var k := Home(Own(t, chain[0].name));
      k < |t.slots| && Before(t.slots, k) <= Target(t, chain).at < Before(t.slots, k) + Cells(t.slots[k].ty)
  {
    assert Fits(t, Own(t, chain[0].name));
    match Own(t, chain[0].name)
    case InSlot(k, ty) =>
      ThroughSlot(t, chain, k, ty);
      InRange(ty, chain[1..]);
    case InUnit(s, declared) => ThroughUnit(t, chain, s, declared);
    case Absent =>
      ThroughBase(t, chain);
      InRange(t.slots[0].ty, chain);
  }

  lemma {:induction false} SlotsInOrder(slots: seq<Slot>, j: nat, k: nat)
    requires j < k <= |slots|
    ensures Before(slots, j) + Cells(slots[j].ty) <= Before(slots, k)
  {
    if j > 0 {
      assert slots[..j][1..] == slots[1..][..j - 1] && slots[..k][1..] == slots[1..][..k - 1];
      SlotsInOrder(slots[1..], j - 1, k - 1);
    }
  }

  lemma ElementBefore(i: int, j: int, c: nat, a: int)
    requires i < j && 0 <= a < c
    ensures i * c + a < j * c
  {
    var more := j - i - 1;
    assert more * c >= 0;
    assert j * c == i * c + c + more * c;
  }

  /** Different chains lead to storage that does not overlap. */
  lemma {:induction false} ChainsApart(t: Type, p: seq<Designator>, q: seq<Designator>)
    requires Sound(t) && Reaches(t, p) && Reaches(t, q) && p != q
    ensures Disjoint(Target(t, p), Target(t, q))
    decreases |p|, t
  {
    match t
    case Scalar(_) =>
    case Array(e, _) =>
      ThroughIndex(t, p);
      ThroughIndex(t, q);
      if p[0] == q[0] {
        ChainsApart(e, p[1..], q[1..]);
      } else {
        InRange(e, p[1..]);
        InRange(e, q[1..]);
        if p[0].i < q[0].i {
          ElementBefore(p[0].i, q[0].i, Cells(e), Target(e, p[1..]).at);
        } else {
          ElementBefore(q[0].i, p[0].i, Cells(e), Target(e, q[1..]).at);
        }
      }
    case Record(_, slots, _, _) =>
      var f, g := Own(t, p[0].name), Own(t, q[0].name);
      if Home(f) != Home(g) {
        AtHome(t, p);
        AtHome(t, q);
        if Home(f) < Home(g) { SlotsInOrder(slots, Home(f), Home(g)); } else { SlotsInOrder(slots, Home(g), Home(f)); }
      } else {
        NeighboursApart(t, p, q);
      }
  }

  lemma {:induction false} NeighboursApart(t: Type, p: seq<Designator>, q: seq<Designator>)
    requires Sound(t) && t.Record? && Reaches(t, p) && Reaches(t, q) && p != q
    requires Home(Own(t, p[0].name)) == Home(Own(t, q[0].name))
    ensures Disjoint(Target(t, p), Target(t, q))
    decreases |p|, t, 0
  {
    var f, g := Own(t, p[0].name), Own(t, q[0].name);
    assert Fits(t, f) && Fits(t, g);
    assert p[0].name != q[0].name ==> Apart(f, g);
    match (f, g)
    case (InSlot(k, ty), InSlot(_, _)) =>
      ThroughSlot(t, p, k, ty);
      ThroughSlot(t, q, k, ty);
      ChainsApart(ty, p[1..], q[1..]);
    case (InUnit(r, d), InUnit(s, e)) =>
      ThroughUnit(t, p, r, d);
      ThroughUnit(t, q, s, e);
      assert p == [p[0]] && q == [q[0]];
    case (Absent, Absent) =>
      ThroughBase(t, p);
      ThroughBase(t, q);
      ChainsApart(t.slots[0].ty, p, q);
    case _ =>
  }

  // ---- reading a path ----

  function Read(cells: seq<Bits>, w: Spotted): Bits
    requires Arrived(w, cells)
  {
    match w.bits
    case None => cells[w.at]
    case Some((s, _)) => cells[w.at][s.offset..s.offset + s.width]
  }

  /** A value as a member shows it. */
  function Shown(w: Spotted, it: Item): Bits {
    match w.bits
    case None => if w.ty.Scalar? then Cast(it, w.ty.width) else []
    case Some((s, declared)) => Fit(Cast(it, declared), s.width)
  }

  function Width(w: Spotted): nat {
    match w.bits
    case None => if w.ty.Scalar? then w.ty.width else 0
    case Some((s, _)) => s.width
  }

  function Last(items: seq<Item>, p: seq<Designator>): Option<Item> {
    if items == [] then None
    else if items[|items| - 1].chain == p then Some(items[|items| - 1])
    else Last(items[..|items| - 1], p)
  }

  /** How many binary digits of a number the member can show. */
  function Digits(w: Spotted): nat {
    match w.bits
    case None => if w.ty.Scalar? then w.ty.width else 0
    case Some((s, declared)) => if s.width < declared then s.width else declared
  }

  /** A member shows the number modulo its width. */
  lemma ShownNumber(w: Spotted, it: Item)
    ensures ToNat(Shown(w, it)) == Number(it) % Pow2(Digits(w))
  {
    match w.bits
    case None =>
      if w.ty.Scalar? { CastKeeps(it, w.ty.width); } else { assert Number(it) % 1 == 0; }
    case Some((s, declared)) =>
      var a, x := Cast(it, declared), Number(it);
      CastKeeps(it, declared);
      if declared <= s.width {
        ZExtKeeps(a, s.width);
      } else {
        TruncIsMod(a, s.width);
        CongMod(x, Pow2(declared));
        CongPow2(x % Pow2(declared), x, s.width, declared);
      }
  }

  /** The number a path is left with: that of the last element for it, or zero. */
  function LastNumber(items: seq<Item>, p: seq<Designator>): int {
    match Last(items, p)
    case None => 0
    case Some(it) => Number(it)
  }

  lemma LastShown(items: seq<Item>, p: seq<Designator>, w: Spotted, r: Bits)
    requires r == match Last(items, p) { case None => Zeros(Width(w)) case Some(it) => Shown(w, it) }
    ensures ToNat(r) == LastNumber(items, p) % Pow2(Digits(w))
  {
    match Last(items, p)
    case None =>
      ToNatZeros(Width(w));
      Below(0, Pow2(Digits(w)));
    case Some(it) => ShownNumber(w, it);
  }

  lemma ReadStored(cells: seq<Bits>, v: Spotted, w: Spotted, it: Item)
    requires Arrived(v, cells) && Arrived(w, cells) && Alike(StoreAt(cells, w, it), cells)
    ensures v == w ==> Read(StoreAt(cells, w, it), v) == Shown(v, it)
    ensures Disjoint(v, w) ==> Read(StoreAt(cells, w, it), v) == Read(cells, v)
  {
    if v.at == w.at && w.bits.Some? {
      var (s, declared) := w.bits.value;
      BitField.StoreSplices(cells[w.at], s.offset, s.width, Cast(it, declared));
      if v.bits.Some? {
        var r := v.bits.value.0;
        SpliceReads(cells[w.at], s.offset, Fit(Cast(it, declared), s.width), r.offset, r.width);
      }
    }
  }

  /** In memory every path holds the value last written to it, or zero: as a number, that of
      the last element for the path, modulo the width of what the path leads to. */
  lemma MemoryHoldsLast(t: Type, items: seq<Item>, p: seq<Designator>)
    requires Sound(t) && Checked(t, items) && p != [] && Reaches(t, p)
    ensures var w, cells := Target(t, p), Run(t, Blank(t), items);
      && Arrived(w, cells)
      && Read(cells, w) == (match Last(items, p) { case None => Zeros(Width(w)) case Some(it) => Shown(w, it) })
      && ToNat(Read(cells, w)) == LastNumber(items, p) % Pow2(Digits(w))
  {
    MemoryHoldsShown(t, items, p);
    var w := Target(t, p);
    LastShown(items, p, w, Read(Run(t, Blank(t), items), w));
  }

  lemma {:induction false} MemoryHoldsShown(t: Type, items: seq<Item>, p: seq<Designator>)
    requires Sound(t) && Checked(t, items) && p != [] && Reaches(t, p)
    ensures var w, cells := Target(t, p), Run(t, Blank(t), items);
      && Arrived(w, cells)
      && Read(cells, w) == match Last(items, p) { case None => Zeros(Width(w)) case Some(it) => Shown(w, it) }
  {
    var w := Target(t, p);
    ArrivedAlike(t, Run(t, Blank(t), items), p);
    if items == [] {
      BlankIsZero(t);
    } else {
      var init, last := items[..|items| - 1], items[|items| - 1];
      var cells := Run(t, Blank(t), init);
      MemoryHoldsShown(t, init, p);
      if last.chain != [] {
        ArrivedAlike(t, cells, last.chain);
        if last.chain != p { ChainsApart(t, p, last.chain); }
        ReadStored(cells, w, Target(t, last.chain), last);
      }
    }
  }

  lemma {:induction false} BlankIsZero(t: Type)
    ensures AllZero(Blank(t))
  {
    match t
    case Scalar(_) =>
    case Array(e, n) =>
      forall k | 0 <= k < n ensures AllZero(Flatten(Zero(t).kids[k])) {
        assert Zero(t).kids[k] == Zero(e);
        BlankIsZero(e);
      }
      KidsZero(Zero(t).kids);
    case Record(_, slots, _, _) =>
      forall k | 0 <= k < |slots| ensures AllZero(Flatten(Zero(t).kids[k])) {
        assert Zero(t).kids[k] == Zero(slots[k].ty);
        BlankIsZero(slots[k].ty);
      }
      KidsZero(Zero(t).kids);
  }

  ghost predicate AllZero(cells: seq<Bits>) {
    forall i :: 0 <= i < |cells| ==> cells[i] == Zeros(|cells[i]|)
  }

  lemma {:induction false} KidsZero(kids: seq<Val>)
    requires forall k :: 0 <= k < |kids| ==> AllZero(Flatten(kids[k]))
    ensures AllZero(FlattenAll(kids))
  {
    if kids != [] { KidsZero(kids[1..]); }
  }
}
