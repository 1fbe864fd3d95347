/** Designated initialisers: the constant the compiler builds for a list of designator
    chains, and the stores it emits for the same list. */
module Designated {
  import opened Arith
  import opened Options
  import opened BitInt
  import ConstantUnits

  /** Slots are what the record holds in memory, the base object first if there is one. A
      record with bit-fields also lists its members by name, the bit-fields among them
      with their places inside storage units. */
  datatype Type =
    | Scalar(width: nat)
    | Array(elem: Type, size: nat)
    | Record(based: bool, slots: seq<Slot>, named: seq<Named>, spots: map<string, Spot>)

  datatype Slot = Slot(name: string, ty: Type)
  datatype Named = Ordinary(name: string, ty: Type) | BitMember(name: string, declared: nat)
  datatype Spot = Spot(unit: nat, offset: nat, width: nat, unitBits: nat)
  datatype Designator = Field(name: string) | Index(i: int)

  /** A constant of the given type. */
  datatype Val = Leaf(bits: Bits) | Node(kids: seq<Val>)

  /** An element of the list: where it goes and the value of its expression. */
  datatype Item = Item(chain: seq<Designator>, value: Bits, signed: bool)

  /** The value converted to an integer type of n bits; one bit is a bool, and true is 1. */
  function Cast(it: Item, n: nat): (r: Bits)
    ensures |r| == n
  {
    if n <= |it.value| then Trunc(it.value, n)
    else if it.signed && |it.value| > 1 then SExt(it.value, n)
    else ZExt(it.value, n)
  }

  /** The number an element stands for. */
  function Number(it: Item): int {
    if it.signed && |it.value| > 1 then ToInt(it.value) else ToNat(it.value)
  }

  /** A conversion keeps the number modulo the width, and all of it where it is not shorter. */
  lemma CastKeeps(it: Item, n: nat)
    ensures ToNat(Cast(it, n)) == Number(it) % Pow2(n)
    ensures |it.value| <= n && it.signed && |it.value| > 1 ==> ToInt(Cast(it, n)) == Number(it)
    ensures |it.value| <= n && !(it.signed && |it.value| > 1) ==> ToNat(Cast(it, n)) == Number(it)
  {
    var a, m := it.value, |it.value|;
    ToIntMod(a);
    ToIntMod(Cast(it, n));
    ToNatBound(a);
    ToNatBound(Cast(it, n));
    if n <= m {
      TruncIsMod(a, n);
      assert Cong(Number(it), ToNat(a), Pow2(m)) by { CongMod(Number(it), Pow2(m)); CongMod(ToNat(a), Pow2(m)); }
      CongPow2(Number(it), ToNat(a), n, m);
      assert n == m ==> Trunc(a, n) == a;
    } else if it.signed && m > 1 {
      SExtKeeps(a, n);
    } else {
      ZExtKeeps(a, n);
      Below(ToNat(a), Pow2(n));
    }
  }

  lemma Below(x: nat, m: nat)
    requires x < m
    ensures x % m == x
  {
  }

  // ---- names ----

  /** The first slot of that name, or the number of slots. */
  function Search(slots: seq<Slot>, name: string): (k: nat)
    ensures k <= |slots| && (k < |slots| ==> slots[k].name == name)
    ensures forall j :: 0 <= j < k ==> slots[j].name != name
  {
    if slots == [] || slots[0].name == name then 0 else 1 + Search(slots[1..], name)
  }

  function SearchNamed(named: seq<Named>, name: string): (k: nat)
    ensures k <= |named| && (k < |named| ==> named[k].name == name)
    ensures forall j :: 0 <= j < k ==> named[j].name != name
  {
    if named == [] || named[0].name == name then 0 else 1 + SearchNamed(named[1..], name)
  }

  datatype Found = Absent | Lost | InSlot(slot: nat, ty: Type) | InUnit(spot: Spot, declared: nat)

  /** The record's own member of that name. */
  function Own(t: Type, name: string): Found
    requires t.Record?
  {
    if t.named != [] then
      var k := SearchNamed(t.named, name);
      if k == |t.named| then Absent
      else match t.named[k]
        case BitMember(_, declared) => if name in t.spots then InUnit(t.spots[name], declared) else Lost
        case Ordinary(_, ty) =>
          var j := Search(t.slots, name);
          InSlot(if j < |t.slots| then j else 0, ty)
    else
      var base := if t.based then 1 else 0;
      if |t.slots| < base then Absent
      else
        var j := Search(t.slots[base..], name);
        if j == |t.slots[base..]| then Absent else InSlot(base + j, t.slots[base + j].ty)
  }

  /** Without a list of names a member is the first slot of its name behind the base object. */
  lemma OwnSlot(t: Type, name: string)
    requires t.Record? && t.named == []
    ensures var base := if t.based then 1 else 0;
      match Own(t, name)
      case InSlot(k, ty) =>
        && base <= k < |t.slots| && t.slots[k].name == name && ty == t.slots[k].ty
        && forall j :: base <= j < k ==> t.slots[j].name != name
      case Absent => forall j :: base <= j < |t.slots| ==> t.slots[j].name != name
      case _ => false
  {
    var base := if t.based then 1 else 0;
    if |t.slots| >= base {
      var rest := t.slots[base..];
      assert forall i :: base <= i < |t.slots| ==> t.slots[i] == rest[i - base];
    }
  }

  /** With a list of names the first entry of the name decides: a bit-field lies at its place, any
      other member in the first slot of its name. */
  lemma OwnListed(t: Type, name: string, k: nat, i: nat)
    requires t.Record? && k < |t.named| && t.named[k].name == name && forall j :: 0 <= j < k ==> t.named[j].name != name
    requires i < |t.slots| && t.slots[i].name == name ==> forall j :: 0 <= j < i ==> t.slots[j].name != name
    ensures t.named[k].BitMember? && name in t.spots ==> Own(t, name) == InUnit(t.spots[name], t.named[k].declared)
    ensures t.named[k].Ordinary? && i < |t.slots| && t.slots[i].name == name ==>
      Own(t, name) == InSlot(i, t.named[k].ty)
  {
    assert SearchNamed(t.named, name) == k;
  }

  predicate Fits(t: Type, f: Found)
    requires t.Record?
  {
    match f
    case InSlot(k, ty) => k < |t.slots| && t.slots[k].ty == ty && (t.based ==> k != 0)
    case InUnit(s, declared) =>
      && s.unit < |t.slots| && t.slots[s.unit].ty == Scalar(s.unitBits) && (t.based ==> s.unit != 0)
      && s.offset + s.width <= s.unitBits
    case Lost => false
    case Absent => true
  }

  predicate Apart(f: Found, g: Found) {
    match (f, g)
    case (InSlot(j, _), InSlot(k, _)) => j != k
    case (InSlot(j, _), InUnit(s, _)) => j != s.unit
    case (InUnit(s, _), InSlot(j, _)) => j != s.unit
    case (InUnit(r, _), InUnit(s, _)) =>
      r.unit != s.unit || r.offset + r.width <= s.offset || s.offset + s.width <= r.offset
    case _ => true
  }

  /** What the layout promises: named members sit in slots of their types, or as ranges of
      storage units, and two names never share a bit. */
  ghost predicate Sound(t: Type) {
    match t
    case Scalar(_) => true
    case Array(e, _) => Sound(e)
    case Record(based, slots, _, _) =>
      && (based ==> |slots| > 0 && slots[0].ty.Record?)
      && (forall k :: 0 <= k < |slots| ==> Sound(slots[k].ty))
      && (forall n :: Fits(t, Own(t, n)))
      && (forall m, n :: m != n ==> Apart(Own(t, m), Own(t, n)))
  }

  /** The analyser only passes on chains that lead to a scalar or a bit-field. */
  predicate Reaches(t: Type, chain: seq<Designator>)
    decreases |chain|, t
  {
    if chain == [] then t.Scalar?
    else match chain[0]
      case Index(i) => t.Array? && 0 <= i < t.size && Reaches(t.elem, chain[1..])
      case Field(n) =>
        t.Record? &&
        match Own(t, n)
        case InSlot(_, ty) => Reaches(ty, chain[1..])
        case InUnit(_, _) => |chain| == 1
        case Absent => t.based && t.slots != [] && Reaches(t.slots[0].ty, chain)
        case Lost => false
  }

  // ---- the constant ----

  function Zero(t: Type): Val {
    match t
    case Scalar(w) => Leaf(Zeros(w))
    case Array(e, n) => Node(seq(n, _ => Zero(e)))
    case Record(_, slots, _, _) => Node(seq(|slots|, k requires 0 <= k < |slots| => Zero(slots[k].ty)))
  }

  ghost predicate Shape(t: Type, v: Val) {
    match t
    case Scalar(w) => v.Leaf? && |v.bits| == w
    case Array(e, n) => v.Node? && |v.kids| == n && forall k :: 0 <= k < n ==> Shape(e, v.kids[k])
    case Record(_, slots, _, _) =>
      v.Node? && |v.kids| == |slots| && forall k :: 0 <= k < |slots| ==> Shape(slots[k].ty, v.kids[k])
  }

  function Rebuilt(k: nat, kids: seq<Val>, v: Option<Val>): Option<Val>
    requires k < |kids|
  {
    if v == None then None else Some(Node(kids[k := v.value]))
  }

  /** Follow the chain into the constant and rebuild it around the new value; a chain that
      leads nowhere changes nothing. Widening a value to a storage unit narrower than the
      value is an error, and there is no constant. */
  function Place(t: Type, acc: Val, chain: seq<Designator>, it: Item): Option<Val>
    requires Sound(t) && Shape(t, acc)
    decreases |chain|, t
  {
    if chain == [] then Some(if t.Scalar? then Leaf(Cast(it, t.width)) else acc)
    else match t
      case Array(e, n) =>
        if !chain[0].Index? || chain[0].i < 0 || chain[0].i >= n then Some(acc)
        else
          var i := chain[0].i;
          Rebuilt(i, acc.kids, Place(e, acc.kids[i], chain[1..], it))
      case Record(based, slots, _, _) =>
        if !chain[0].Field? then Some(acc)
        else
          var own := Own(t, chain[0].name);
          assert Fits(t, own);
          (match own
           case InUnit(s, declared) =>
             assert Shape(slots[s.unit].ty, acc.kids[s.unit]);
             var unit := ConstantUnits.Accumulate(acc.kids[s.unit].bits, s.offset, s.width, Cast(it, declared));
             Rebuilt(s.unit, acc.kids, if unit == None then None else Some(Leaf(unit.value)))
           case InSlot(k, ty) => Rebuilt(k, acc.kids, Place(ty, acc.kids[k], chain[1..], it))
           case Absent => if based then Rebuilt(0, acc.kids, Place(slots[0].ty, acc.kids[0], chain, it)) else Some(acc)
           case Lost => Some(acc))
      case Scalar(_) => Some(acc)
  }

  lemma {:induction false} PlaceShape(t: Type, acc: Val, chain: seq<Designator>, it: Item)
    requires Sound(t) && Shape(t, acc)
    ensures Place(t, acc, chain, it).Some? ==> Shape(t, Place(t, acc, chain, it).value)
    decreases |chain|, t
  {
    if chain != [] {
      match t
      case Array(e, n) =>
        if chain[0].Index? && 0 <= chain[0].i < n { PlaceShape(e, acc.kids[chain[0].i], chain[1..], it); }
      case Record(based, slots, _, _) =>
        if chain[0].Field? {
          assert Fits(t, Own(t, chain[0].name));
          match Own(t, chain[0].name)
          case InSlot(k, ty) => PlaceShape(ty, acc.kids[k], chain[1..], it);
          case Absent => if based { PlaceShape(slots[0].ty, acc.kids[0], chain, it); }
          case _ =>
        }
      case Scalar(_) =>
    }
  }

  lemma {:induction false} ZeroShape(t: Type)
    ensures Shape(t, Zero(t))
  {
    match t
    case Scalar(_) =>
    case Array(e, _) => ZeroShape(e);
    case Record(_, slots, _, _) =>
      forall k | 0 <= k < |slots| ensures Shape(slots[k].ty, Zero(slots[k].ty)) { ZeroShape(slots[k].ty); }
  }

  /** The whole list: later elements overwrite, members nobody names stay zero. */
  function Build(t: Type, items: seq<Item>): (v: Option<Val>)
    requires Sound(t)
    ensures v.Some? ==> Shape(t, v.value)
  {
    if items == [] then ZeroShape(t); Some(Zero(t))
    else
      var acc, last := Build(t, items[..|items| - 1]), items[|items| - 1];
      if acc == None || last.chain == [] then acc
      else
        PlaceShape(t, acc.value, last.chain, last);
        Place(t, acc.value, last.chain, last)
  }

  // ---- memory ----

  /** Scalars in memory order. */
  function Flatten(v: Val): seq<Bits> {
    match v
    case Leaf(b) => [b]
    case Node(kids) => FlattenAll(kids)
  }

  function FlattenAll(kids: seq<Val>): seq<Bits> {
    if kids == [] then [] else Flatten(kids[0]) + FlattenAll(kids[1..])
  }

  function Cells(t: Type): nat {
    match t
    case Scalar(_) => 1
    case Array(e, n) => n * Cells(e)
    case Record(_, slots, _, _) => CellsAll(slots)
  }

  function CellsAll(slots: seq<Slot>): nat {
    if slots == [] then 0 else Cells(slots[0].ty) + CellsAll(slots[1..])
  }

  /** Where the k-th slot begins. */
  function Before(slots: seq<Slot>, k: nat): nat
    requires k <= |slots|
  {
    CellsAll(slots[..k])
  }

  /** The address, type and, for a bit-field, place in its unit that a pointer walk arrives at. */
  datatype Spotted = Spotted(at: int, ty: Type, bits: Option<(Spot, nat)>)

  /** The pointer to a named member, looking through the base objects. */
  function FieldPointer(t: Type, at: int, name: string): Option<Spotted>
    requires Sound(t) && t.Record?
    decreases t
  {
    assert Fits(t, Own(t, name));
    match Own(t, name)
    case InUnit(s, declared) => Some(Spotted(at + Before(t.slots, s.unit), t, Some((s, declared))))
    case InSlot(k, ty) => Some(Spotted(at + Before(t.slots, k), ty, None))
    case Absent => if t.based then FieldPointer(t.slots[0].ty, at, name) else None
    case Lost => None
  }

  lemma {:induction false} FieldSound(t: Type, at: int, name: string)
    requires Sound(t) && t.Record? && FieldPointer(t, at, name).Some?
    ensures Sound(FieldPointer(t, at, name).value.ty)
    decreases t
  {
    assert Fits(t, Own(t, name));
    if Own(t, name) == Absent { FieldSound(t.slots[0].ty, at, name); }
  }

  /** One designator moves the pointer; a name that is not found leaves it where it was. */
  function Step(w: Spotted, d: Designator): (r: Spotted)
    requires Sound(w.ty)
    ensures Sound(r.ty)
  {
    match d
    case Field(n) =>
      if !w.ty.Record? || FieldPointer(w.ty, w.at, n) == None then w
      else
        FieldSound(w.ty, w.at, n);
        var f := FieldPointer(w.ty, w.at, n).value;
        if f.bits.Some? then Spotted(f.at, w.ty, f.bits) else Spotted(f.at, f.ty, w.bits)
    case Index(i) => if w.ty.Array? then Spotted(w.at + i * Cells(w.ty.elem), w.ty.elem, w.bits) else w
  }

  function Walk(w: Spotted, chain: seq<Designator>): Spotted
    requires Sound(w.ty)
    decreases |chain|
  {
    if chain == [] then w else Walk(Step(w, chain[0]), chain[1..])
  }

  /** Where a chain leads inside an object. */
  function Target(t: Type, chain: seq<Designator>): Spotted
    requires Sound(t)
  {
    Walk(Spotted(0, t, None), chain)
  }
}
