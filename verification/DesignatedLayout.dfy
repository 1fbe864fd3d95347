/** Aggregates laid out by the builder are records on which designated initialisers work:
    members sit in slots of their types or in ranges of storage units, and never meet. */
module DesignatedLayout {
  import L = Layout
  import B = LayoutBuild
  import Record
  import LayoutTheorem
  import PackedUnits
  import opened Designated
  import opened DesignatedTheorem

  /** A physical entry: the base object, a member, or bytes without a name. */
  function SlotOf(d: B.Decl, padded: seq<L.Field>, base: Type, types: map<string, Type>, i: nat): Slot
    requires i < |padded|
  {
    var f := padded[i];
    if d.base.Some? && i == 0 then Slot("", base)
    else if f.name in types && f.name != "" then Slot(f.name, types[f.name])
    else Slot("", Scalar(8 * f.shape.size))
  }

  function SlotsOf(d: B.Decl, padded: seq<L.Field>, base: Type, types: map<string, Type>): (slots: seq<Slot>)
    ensures |slots| == |padded|
  {
    seq(|padded|, i requires 0 <= i < |padded| => SlotOf(d, padded, base, types, i))
  }

  function Entry(f: L.Field, types: map<string, Type>): Named
    requires f.name in types
  {
    if B.IsBitField(f) then BitMember(f.name, if types[f.name].Scalar? then types[f.name].width else 0)
    else Ordinary(f.name, types[f.name])
  }

  /** The members by name, in order. */
  function NamedOf(fs: seq<L.Field>, types: map<string, Type>): seq<Named> {
    if fs == [] then []
    else if fs[0].name == "" || fs[0].name !in types then NamedOf(fs[1..], types)
    else [Entry(fs[0], types)] + NamedOf(fs[1..], types)
  }

  function SpotsOf(places: map<string, B.Place>): map<string, Spot> {
    map n | n in places :: Spot(places[n].unit, places[n].offset, places[n].width, places[n].unitBits)
  }

  function RecordType(d: B.Decl, fs: seq<L.Field>, base: Type, types: map<string, Type>): (t: Type)
    ensures t.Record?
  {
    var m := B.Materialise(d, fs);
    Type.Record(d.base.Some?, SlotsOf(d, m.padded, base, types), NamedOf(fs, types), SpotsOf(m.places))
  }

  ghost predicate Typed(d: B.Decl, fs: seq<L.Field>, base: Type, types: map<string, Type>) {
    && (forall i :: 0 <= i < |fs| && fs[i].name != "" ==> fs[i].name in types)
    && (forall n <- types :: Sound(types[n]))
    && (d.base.Some? ==> base.Record? && Sound(base))
  }

  // ---- finding members ----

  lemma {:induction false} NamedFinds(fs: seq<L.Field>, types: map<string, Type>, i: nat)
    requires PackedUnits.DistinctNames(fs) && i < |fs| && fs[i].name != "" && fs[i].name in types
    ensures var named := NamedOf(fs, types); var k := SearchNamed(named, fs[i].name);
      k < |named| && named[k] == Entry(fs[i], types)
  {
    if i > 0 {
      assert fs[0].name != "" ==> fs[0].name != fs[i].name;
      assert forall j :: 0 <= j < |fs| - 1 ==> fs[1..][j] == fs[j + 1];
      NamedFinds(fs[1..], types, i - 1);
      var rest := NamedOf(fs[1..], types);
      if fs[0].name != "" && fs[0].name in types { assert ([Entry(fs[0], types)] + rest)[1..] == rest; }
    }
  }

  lemma {:induction false} NamedMisses(fs: seq<L.Field>, types: map<string, Type>, n: string)
    requires forall i :: 0 <= i < |fs| && fs[i].name != "" ==> fs[i].name != n
    ensures SearchNamed(NamedOf(fs, types), n) == |NamedOf(fs, types)|
  {
    if fs != [] {
      NamedMisses(fs[1..], types, n);
      var rest := NamedOf(fs[1..], types);
      if fs[0].name != "" && fs[0].name in types { assert ([Entry(fs[0], types)] + rest)[1..] == rest; }
    }
  }

  lemma {:induction false} SearchFinds(slots: seq<Slot>, n: string, j: nat)
    requires j < |slots| && slots[j].name == n
    ensures Search(slots, n) < |slots|
  {
    if j > 0 && slots[0].name != n { SearchFinds(slots[1..], n, j - 1); }
  }

  // ---- the base object is no storage unit ----

  ghost predicate AfterBase(s: B.Build) {
    && s.padded != [] && (s.unitBytes > 0 ==> s.unitIndex > 0)
    && forall n <- s.places :: s.places[n].unit > 0
  }

  lemma {:induction false} RecordAfterBase(places: map<string, B.Place>, pending: seq<B.Pending>, unit: nat, bits: nat)
    requires unit > 0 && forall n <- places :: places[n].unit > 0
    ensures forall n <- B.Record(places, pending, unit, bits) :: B.Record(places, pending, unit, bits)[n].unit > 0
  {
    if pending != [] { RecordAfterBase(places, pending[..|pending| - 1], unit, bits); }
  }

  lemma StepAfterBase(d: B.Decl, s: B.Build, f: L.Field)
    requires AfterBase(s)
    ensures AfterBase(B.Step(d, s, f))
  {
    RecordAfterBase(s.places, s.pending, |s.padded|, 8 * B.RegionBytes(s.regionBits));
    hide L.AlignUp, B.Record, B.TargetAlign, B.RegionBytes;
  }

  lemma {:induction false} FoldAfterBase(d: B.Decl, fs: seq<L.Field>)
    requires d.base.Some?
    ensures AfterBase(B.Fold(d, fs))
  {
    if fs != [] {
      hide B.Step, AfterBase;
      FoldAfterBase(d, fs[..|fs| - 1]);
      StepAfterBase(d, B.Fold(d, fs[..|fs| - 1]), fs[|fs| - 1]);
    }
  }

  lemma UnitsAfterBase(d: B.Decl, fs: seq<L.Field>)
    requires d.base.Some?
    ensures AfterBase(B.Materialise(d, fs))
  {
    FoldAfterBase(d, fs);
    var s := B.Fold(d, fs);
    RecordAfterBase(s.places, s.pending, |s.padded|, 8 * B.RegionBytes(s.regionBits));
    hide L.AlignUp, B.Record, B.RegionBytes, B.Fold;
  }

  // ---- what a name stands for ----

  /** The entry found for a name carries that name, or is the unit of the name's place. */
  ghost predicate Carries(d: B.Decl, fs: seq<L.Field>, t: Type, n: string)
    requires t.Record?
  {
    Fits(t, Own(t, n)) &&
    match Own(t, n)
    case InSlot(k, _) => t.slots[k].name == n && (t.named != [] ==> n != "")
    case InUnit(s, _) => t.named != [] && t.slots[s.unit].name == "" && n in t.spots && s == t.spots[n]
    case _ => true
  }

  lemma OrdinaryCarries(d: B.Decl, fs: seq<L.Field>, base: Type, types: map<string, Type>, i: nat)
    requires B.WellFormed(d, fs) && PackedUnits.DistinctNames(fs) && Typed(d, fs, base, types)
    requires i < |fs| && fs[i].name != "" && !B.IsBitField(fs[i])
    ensures Carries(d, fs, RecordType(d, fs, base, types), fs[i].name)
  {
    var j := OrdinaryPlaced(d, fs, i);
    NamedFinds(fs, types, i);
    hide B.Materialise, Sound, NamedOf, SearchNamed, Search;
    var t, n := RecordType(d, fs, base, types), fs[i].name;
    assert t.named != [] && t.slots[j].name == n;
    SearchFinds(t.slots, n, j);
  }

  lemma OrdinaryPlaced(d: B.Decl, fs: seq<L.Field>, i: nat) returns (j: nat)
    requires B.WellFormed(d, fs) && i < |fs| && fs[i].name != "" && !B.IsBitField(fs[i])
    ensures var m := B.Materialise(d, fs);
      && j < |m.padded| && m.padded[j] == fs[i] && (d.base.Some? ==> j > 0 && m.padded[0].name == "")
  {
    var m := B.Materialise(d, fs);
    LayoutTheorem.LayoutSound(d, fs);
    Record.InOrdinaries(fs, fs[i]);
    Record.InOrdinaries(m.padded, fs[i]);
    if d.base.Some? { BaseUnnamed(d, fs); }
    hide B.Materialise;
    j :| 0 <= j < |m.padded| && m.padded[j] == fs[i];
  }

  lemma {:induction false} BaseUnnamed(d: B.Decl, fs: seq<L.Field>)
    requires d.base.Some?
    ensures B.Fold(d, fs).padded != [] && B.Fold(d, fs).padded[0].name == ""
    ensures B.Materialise(d, fs).padded != [] && B.Materialise(d, fs).padded[0].name == ""
  {
    hide L.AlignUp;
    if fs != [] { BaseUnnamed(d, fs[..|fs| - 1]); }
  }

  lemma BitsCarry(d: B.Decl, fs: seq<L.Field>, base: Type, types: map<string, Type>, i: nat)
    requires B.WellFormed(d, fs) && PackedUnits.DistinctNames(fs) && Typed(d, fs, base, types)
    requires i < |fs| && fs[i].name != "" && B.IsBitField(fs[i])
    ensures Carries(d, fs, RecordType(d, fs, base, types), fs[i].name)
  {
    BitsPlaced(d, fs, i);
    NamedFinds(fs, types, i);
    hide B.Materialise, Sound, NamedOf, SearchNamed, Search;
    var t, n := RecordType(d, fs, base, types), fs[i].name;
    assert t.named != [] && n in t.spots;
  }

  lemma BitsPlaced(d: B.Decl, fs: seq<L.Field>, i: nat)
    requires B.WellFormed(d, fs) && i < |fs| && fs[i].name != "" && B.IsBitField(fs[i])
    ensures var m := B.Materialise(d, fs);
      && fs[i].name in m.places && B.Fits(m.padded, m.places[fs[i].name])
      && (d.base.Some? ==> m.places[fs[i].name].unit > 0)
  {
    LayoutTheorem.LayoutSound(d, fs);
    Record.InWidths(fs, i);
    if d.base.Some? { UnitsAfterBase(d, fs); }
    assert fs[i].name in LayoutTheorem.WidthsOf(B.Materialise(d, fs).places);
  }

  lemma OthersCarry(d: B.Decl, fs: seq<L.Field>, base: Type, types: map<string, Type>, n: string)
    requires forall i :: 0 <= i < |fs| && fs[i].name != "" ==> fs[i].name != n
    ensures Carries(d, fs, RecordType(d, fs, base, types), n)
  {
    NamedMisses(fs, types, n);
    if d.base.Some? { BaseUnnamed(d, fs); }
    hide B.Materialise;
  }

  lemma NamesApart(d: B.Decl, fs: seq<L.Field>, base: Type, types: map<string, Type>, m: string, n: string)
    requires B.PlacesSound(B.Materialise(d, fs).padded, B.Materialise(d, fs).places) && m != n
    requires Carries(d, fs, RecordType(d, fs, base, types), m) && Carries(d, fs, RecordType(d, fs, base, types), n)
    ensures var t := RecordType(d, fs, base, types); Apart(Own(t, m), Own(t, n))
  {
    var places := B.Materialise(d, fs).places;
    hide B.Materialise, Own, B.Fits;
    if m in places && n in places { assert B.Apart(places[m], places[n]); }
  }

  lemma NameCarries(d: B.Decl, fs: seq<L.Field>, base: Type, types: map<string, Type>, n: string)
    requires B.WellFormed(d, fs) && PackedUnits.DistinctNames(fs) && Typed(d, fs, base, types)
    ensures Carries(d, fs, RecordType(d, fs, base, types), n)
  {
    hide Carries, RecordType, B.WellFormed, PackedUnits.DistinctNames, Typed;
    if i :| 0 <= i < |fs| && fs[i].name == n && n != "" {
      if B.IsBitField(fs[i]) { BitsCarry(d, fs, base, types, i); } else { OrdinaryCarries(d, fs, base, types, i); }
    } else {
      OthersCarry(d, fs, base, types, n);
    }
  }

  lemma SlotsSound(d: B.Decl, fs: seq<L.Field>, base: Type, types: map<string, Type>)
    requires Typed(d, fs, base, types)
    ensures var t := RecordType(d, fs, base, types);
      && (t.based ==> |t.slots| > 0 && t.slots[0].ty.Record?)
      && forall k :: 0 <= k < |t.slots| ==> Sound(t.slots[k].ty)
  {
    if d.base.Some? { BaseUnnamed(d, fs); }
    hide B.Materialise;
    var t := RecordType(d, fs, base, types);
    forall k | 0 <= k < |t.slots| ensures Sound(t.slots[k].ty) {
    }
  }

  /** The record of every declared aggregate is one on which designated initialisers are
      proved to work. */
  lemma LaidOutSound(d: B.Decl, fs: seq<L.Field>, base: Type, types: map<string, Type>)
    requires B.WellFormed(d, fs) && PackedUnits.DistinctNames(fs) && Typed(d, fs, base, types)
    ensures Sound(RecordType(d, fs, base, types))
  {
    LayoutTheorem.LayoutSound(d, fs);
    SlotsSound(d, fs, base, types);
    var t := RecordType(d, fs, base, types);
    hide RecordType, B.Materialise, Own, Typed, B.WellFormed, PackedUnits.DistinctNames;
    forall n ensures Fits(t, Own(t, n)) { NameCarries(d, fs, base, types, n); }
    forall m, n | m != n ensures Apart(Own(t, m), Own(t, n)) {
      NameCarries(d, fs, base, types, m);
      NameCarries(d, fs, base, types, n);
      NamesApart(d, fs, base, types, m, n);
    }
  }

  /** Whether a constant can hold a bit-field of such a record is decided by the declaration. */
  lemma WideByDeclaration(d: B.Decl, fs: seq<L.Field>, base: Type, types: map<string, Type>, i: nat)
    requires B.WellFormed(d, fs) && PackedUnits.DistinctNames(fs) && Typed(d, fs, base, types)
    requires i < |fs| && LayoutTheorem.NamedBits(fs[i]) && types[fs[i].name] == Scalar(8 * fs[i].shape.size)
    ensures var t, p := RecordType(d, fs, base, types), [Field(fs[i].name)];
      Sound(t) && Reaches(t, p) && (Wide(Target(t, p)) <==> PackedUnits.WideEnough(d, fs, i))
  {
    var t, n := RecordType(d, fs, base, types), fs[i].name;
    LaidOutSound(d, fs, base, types);
    BitsPlaced(d, fs, i);
    NamedFinds(fs, types, i);
    PackedUnits.UnitWideEnough(d, fs, i);
    hide B.Materialise, PackedUnits.WideEnough, NamedOf, SearchNamed, Search, Sound, B.Fits, SlotsOf;
    var declared := 8 * fs[i].shape.size;
    assert t.named != [] && Own(t, n) == InUnit(t.spots[n], declared);
    ThroughUnit(t, [Field(n)], t.spots[n], declared);
  }
}
