/** The layout builder over a mutable aggregate type: the first construction rewrites the
    type's field list, and later ones find it already materialised. */
module LayoutBuilder {
  import opened Options
  import opened Layout
  import L = LayoutBuild

  datatype Result = Result(offsets: seq<nat>, size: nat, align: nat, fieldOffsets: map<string, nat>)

  /** Offsets of the named entries from index `i` on, later entries winning. */
  function NamedOffsets(fs: seq<Field>, offsets: seq<nat>): map<string, nat>
    requires |fs| <= |offsets|
  {
    if fs == [] then map[]
    else
      var n := |fs| - 1;
      var m := NamedOffsets(fs[..n], offsets);
      if fs[n].name == "" then m else m[fs[n].name := offsets[n]]
  }

  /** The answer for a physical list. An empty list is not laid out. */
  function Describe(packed: bool, forcedAlign: nat, slots: seq<Field>, fs: seq<Field>): Result {
    var all := slots + fs;
    var offsets := seq(|all|, i requires 0 <= i < |all| => Offset(packed, all, i));
    if all == [] then Result([], 0, 0, map[])
    else Result(offsets, StructSize(packed, all), Max(StructAlign(packed, all), forcedAlign),
                NamedOffsets(fs, offsets[|slots|..]))
  }

  lemma {:induction false} NamesKnown(fs: seq<Field>, offsets: seq<nat>, k: string)
    requires |fs| <= |offsets|
    ensures k in NamedOffsets(fs, offsets) <==> k != "" && exists i :: 0 <= i < |fs| && fs[i].name == k
  {
    if fs != [] {
      var n := |fs| - 1;
      NamesKnown(fs[..n], offsets, k);
      assert forall i :: 0 <= i < n ==> fs[..n][i] == fs[i];
    }
  }

  lemma {:induction false} NamedOffsetIs(fs: seq<Field>, offsets: seq<nat>, i: nat)
    requires |fs| <= |offsets| && i < |fs| && fs[i].name != "" && LastNamed(fs, i)
    ensures fs[i].name in NamedOffsets(fs, offsets) && NamedOffsets(fs, offsets)[fs[i].name] == offsets[i]
  {
    var n := |fs| - 1;
    if i < n { NamedOffsetIs(fs[..n], offsets, i); }
  }

  predicate LastNamed(fs: seq<Field>, i: nat)
    requires i < |fs|
  {
    forall j :: i < j < |fs| ==> fs[j].name != fs[i].name
  }

  /** Exactly the names of the list are known, each at the offset the walk gives its entry,
      which lies behind the slots put in front of the list. */
  lemma DescribedOffsets(packed: bool, forcedAlign: nat, slots: seq<Field>, fs: seq<Field>)
    requires slots + fs != []
    ensures var r := Describe(packed, forcedAlign, slots, fs);
      && |r.offsets| == |slots + fs|
      && (forall i :: 0 <= i < |slots + fs| ==> r.offsets[i] == Offset(packed, slots + fs, i))
      && (forall n :: n in r.fieldOffsets <==> n != "" && exists i :: 0 <= i < |fs| && fs[i].name == n)
      && (forall i :: 0 <= i < |fs| && fs[i].name != "" && LastNamed(fs, i) ==>
            r.fieldOffsets[fs[i].name] == Offset(packed, slots + fs, |slots| + i))
  {
    var r := Describe(packed, forcedAlign, slots, fs);
    hide NamedOffsets, Offset, StructSize, StructAlign, LastNamed;
    forall n ensures n in r.fieldOffsets <==> n != "" && exists i :: 0 <= i < |fs| && fs[i].name == n {
      NamesKnown(fs, r.offsets[|slots|..], n);
    }
    forall i | 0 <= i < |fs| && fs[i].name != "" && LastNamed(fs, i)
      ensures r.fieldOffsets[fs[i].name] == Offset(packed, slots + fs, |slots| + i)
    {
      NamedOffsetIs(fs, r.offsets[|slots|..], i);
    }
  }

  predicate HasBitFields(fs: seq<Field>) {
    exists i :: 0 <= i < |fs| && L.IsBitField(fs[i])
  }

  lemma StepExtends(d: L.Decl, s: L.Build, f: Field)
    ensures s.padded <= L.Step(d, s, f).padded
  {
    hide Layout.AlignUp, L.RegionBytes, L.PadTo;
  }

  /** The base slot stays the first entry and keeps its empty name. */
  lemma {:induction false} BaseEntryStays(d: L.Decl, fs: seq<Field>)
    requires d.base.Some?
    ensures L.Fold(d, fs).padded != [] && L.Fold(d, fs).padded[0] == Field("", d.base.value, 0)
    ensures L.Materialise(d, fs).padded != [] && L.Materialise(d, fs).padded[0] == Field("", d.base.value, 0)
  {
    if fs != [] {
      BaseEntryStays(d, fs[..|fs| - 1]);
      StepExtends(d, L.Fold(d, fs[..|fs| - 1]), fs[|fs| - 1]);
    }
  }

  class AggregateType {
    const packed: bool
    const forcedAlign: nat
    const fieldAligns: map<string, nat>
    const base: Option<Shape>
    var fields: seq<Field>
    var semanticFields: seq<Field>
    var bitFields: map<string, L.Place>
    var materialized: bool

    constructor (packed: bool, forcedAlign: nat, fieldAligns: map<string, nat>, base: Option<Shape>, fields: seq<Field>)
      ensures this.packed == packed && this.forcedAlign == forcedAlign && this.fieldAligns == fieldAligns
      ensures this.base == base && this.fields == fields && !materialized && bitFields == map[]
    {
      this.packed := packed;
      this.forcedAlign := forcedAlign;
      this.fieldAligns := fieldAligns;
      this.base := base;
      this.fields := fields;
      semanticFields := [];
      bitFields := map[];
      materialized := false;
    }

    function Decl(): L.Decl {
      L.Decl(packed, forcedAlign, fieldAligns, base)
    }

    predicate Annotated() {
      packed || forcedAlign != 0 || fieldAligns != map[]
    }

    function Slots(): seq<Field> {
      if base.Some? then [Field("", base.value, 0)] else []
    }

    /** The answer the current state stands for; it changes nothing. */
    function Answer(): Result
      reads this
    {
      if Annotated() || HasBitFields(fields) then Describe(packed, forcedAlign, [], fields)
      else Describe(packed, forcedAlign, Slots(), fields)
    }

    method BuildAggregate() returns (r: Result)
      requires !materialized ==> bitFields == map[]
      modifies this
      ensures !old(materialized) && (Annotated() || HasBitFields(old(fields))) ==>
        var b := L.Materialise(Decl(), old(fields));
        && fields == b.padded && bitFields == b.places && semanticFields == old(fields) && materialized
        && r == Describe(packed, forcedAlign, [], b.padded)
      ensures old(materialized) || !(Annotated() || HasBitFields(old(fields))) ==> unchanged(this)
      // The answer depends on the resulting state alone, so building again changes nothing
      // and answers the same.
      ensures r == Answer()
    {
      var annotated := Annotated();
      var hasBF := HasBitFields(fields);
      if !materialized && (annotated || hasBF) {
        ghost var was := fields;
        Materialise();
        if base.Some? { BaseEntryStays(Decl(), was); }
        assert Slots() == [] || L.IsBitField(fields[0]);
        assert Slots() + fields == [] + fields || HasBitFields(fields);
        r := Describe(packed, forcedAlign, [], fields);
      } else if annotated || hasBF {
        r := Describe(packed, forcedAlign, [], fields);
      } else {
        r := Describe(packed, forcedAlign, Slots(), fields);
      }
    }

    method Materialise()
      requires !materialized && bitFields == map[]
      modifies this
      ensures var b := L.Materialise(Decl(), old(fields));
        && fields == b.padded && bitFields == b.places && semanticFields == old(fields) && materialized
    {
      var b := new Builder(Decl());
      semanticFields := fields;
      for i := 0 to |fields|
        invariant fresh(b) && b.d == Decl() && fields == old(fields) && semanticFields == fields
        invariant b.State() == L.Fold(Decl(), fields[..i])
      {
        assert fields[..i + 1][..i] == fields[..i];
        b.Add(fields[i]);
      }
      assert fields[..|fields|] == fields;
      b.Finish();
      fields, bitFields, materialized := b.padded, b.places, true;
    }
  }

  /** The variables the construction loop and its closures share. */
  class Builder {
    const d: L.Decl
    var padded: seq<Field>
    var cursor: nat
    var structAlign: nat
    var curUnitBytes: nat
    var curBitUsed: nat
    var curUnitIndex: nat
    var regionActive: bool
    var regionBitCursor: nat
    var pending: seq<L.Pending>
    var places: map<string, L.Place>
    var targetOffsets: seq<nat>

    constructor (d: L.Decl)
      ensures this.d == d && State() == L.Start(d)
    {
      this.d := d;
      padded, cursor, structAlign := [], 0, 1;
      curUnitBytes, curBitUsed, curUnitIndex := 0, 0, 0;
      regionActive, regionBitCursor, pending := false, 0, [];
      places, targetOffsets := map[], [];
      if d.base.Some? {
        padded, cursor := [Field("", d.base.value, 0)], d.base.value.size;
        if !d.packed { structAlign := Max(1, d.base.value.align); }
      }
    }

    function State(): L.Build
      reads this
    {
      L.Build(padded, cursor, structAlign, curUnitBytes, curBitUsed, curUnitIndex,
              regionActive, regionBitCursor, pending, places, targetOffsets)
    }

    method Pad(off: nat)
      modifies this`padded
      ensures padded == old(padded) + L.PadTo(cursor, off)
    {
      if off > cursor { padded := padded + [L.Bytes(off - cursor)]; }
    }

    method FlushUnit()
      modifies this
      ensures State() == L.FlushUnit(old(State()))
    {
      curUnitBytes, curBitUsed := 0, 0;
    }

    /** The places of a region's fields become known when the region is closed. */
    method CloseRegion()
      modifies this
      ensures State() == L.CloseRegion(old(State()))
    {
      hide L.RegionBytes;
      if !regionActive { return; }
      regionActive := false;
      var n := L.RegionBytes(regionBitCursor);
      padded := padded + [L.Bytes(n)];
      for k := 0 to |pending|
        invariant places == L.Record(old(places), pending[..k], |padded| - 1, 8 * n)
        modifies this`places
      {
        assert pending[..k + 1][..k] == pending[..k];
        places := places[pending[k].name := L.Place(|padded| - 1, pending[k].offset, pending[k].width, 8 * n)];
      }
      assert pending[..|pending|] == pending;
      pending := [];
      cursor := cursor + n;
    }

    method PackedField(f: Field)
      modifies this
      ensures State() == L.PackedBits(old(State()), f)
    {
      hide Layout.AlignUp;
      if !regionActive { regionActive, regionBitCursor := true, 0; }
      if f.bits == 0 {
        regionBitCursor := AlignUp(regionBitCursor, 8 * f.shape.size);
      } else {
        if f.name != "" { pending := pending + [L.Pending(f.name, regionBitCursor, f.bits)]; }
        regionBitCursor := regionBitCursor + f.bits;
      }
    }

    method OpenUnit(f: Field)
      modifies this
      ensures State() == L.OpenUnit(old(State()), f)
    {
      hide Layout.AlignUp;
      var off := AlignUp(cursor, f.shape.align);
      Pad(off);
      padded := padded + [Field("", f.shape, 0)];
      curUnitIndex := |padded| - 1;
      cursor := off + f.shape.size;
      curUnitBytes, curBitUsed := f.shape.size, 0;
      structAlign := Max(structAlign, f.shape.align);
    }

    method UnitField(f: Field)
      modifies this
      ensures State() == L.UnitBits(old(State()), f)
    {
      hide L.OpenUnit;
      if f.bits == 0 {
        FlushUnit();
        return;
      }
      var uBytes, uBits := f.shape.size, 8 * f.shape.size;
      if curUnitBytes == 0 || curUnitBytes != uBytes || curBitUsed + f.bits > uBits {
        OpenUnit(f);
      }
      if f.name != "" { places := places[f.name := L.Place(curUnitIndex, curBitUsed, f.bits, uBits)]; }
      curBitUsed := curBitUsed + f.bits;
    }

    method OrdinaryField(f: Field)
      modifies this
      ensures State() == L.Ordinary(d, L.FlushUnit(L.CloseRegion(old(State()))), f)
    {
      hide Layout.AlignUp;
      CloseRegion();
      FlushUnit();
      var ta := if d.packed then 1 else f.shape.align;
      var explicit := f.name in d.aligns;
      if explicit { ta := Max(ta, d.aligns[f.name]); }
      if !d.packed || explicit { structAlign := Max(structAlign, ta); }
      var off := AlignUp(cursor, ta);
      Pad(off);
      padded := padded + [f];
      targetOffsets := targetOffsets + [off];
      cursor := off + f.shape.size;
    }

    method Add(f: Field)
      modifies this
      ensures State() == L.Step(d, old(State()), f)
    {
      if !L.IsBitField(f) {
        OrdinaryField(f);
      } else if d.packed {
        PackedField(f);
      } else {
        UnitField(f);
      }
    }

    method Finish()
      modifies this
      ensures State() == L.Finish(d, old(State()))
    {
      hide Layout.AlignUp;
      CloseRegion();
      if d.forcedAlign != 0 { structAlign := Max(structAlign, d.forcedAlign); }
      var total := AlignUp(cursor, structAlign);
      Pad(total);
      cursor := total;
    }
  }
}
