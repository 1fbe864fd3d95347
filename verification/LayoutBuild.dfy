/** How an annotated aggregate, or one with bit-fields, is turned into a padded list of
    physical entries and a table of bit-field places, and why that list is sound. */
module LayoutBuild {
  import opened Options
  import opened Layout

  /** Where a bit-field lives: entry `unit` of the padded list, read as one integer. */
  datatype Place = Place(unit: nat, offset: nat, width: nat, unitBits: nat)

  /** A packed bit-field whose region has not been written to the list yet. */
  datatype Pending = Pending(name: string, offset: nat, width: nat)

  datatype Decl = Decl(packed: bool, forcedAlign: nat, aligns: map<string, nat>, base: Option<Shape>)

  datatype Build = Build(padded: seq<Field>, cursor: nat, structAlign: nat,
                         unitBytes: nat, bitUsed: nat, unitIndex: nat,
                         region: bool, regionBits: nat, pending: seq<Pending>,
                         places: map<string, Place>, targets: seq<nat>)

  /** An unnamed field is a bit-field too: it only reserves bits or, at width zero,
      ends the unit. */
  predicate IsBitField(f: Field) {
    f.bits != 0 || f.name == ""
  }

  function Bytes(n: nat): Field {
    Field("", Shape(n, 1), 0)
  }

  // ---- the builder, one field at a time ----

  function Start(d: Decl): Build {
    match d.base
    case None => Build([], 0, 1, 0, 0, 0, false, 0, [], map[], [])
    case Some(b) =>
      Build([Field("", b, 0)], b.size, if d.packed then 1 else Max(1, b.align),
            0, 0, 0, false, 0, [], map[], [])
  }

  function PadTo(cursor: nat, off: nat): seq<Field> {
    if off > cursor then [Bytes(off - cursor)] else []
  }

  /** Append an entry at `off`, with explicit padding in front where needed. */
  function Put(s: Build, off: nat, f: Field): Build {
    s.(padded := s.padded + PadTo(s.cursor, off) + [f], cursor := off + f.shape.size)
  }

  function FlushUnit(s: Build): Build {
    s.(unitBytes := 0, bitUsed := 0)
  }

  function Record(places: map<string, Place>, pending: seq<Pending>, unit: nat, unitBits: nat): map<string, Place> {
    if pending == [] then places
    else
      var p := pending[|pending| - 1];
      Record(places, pending[..|pending| - 1], unit, unitBits)[p.name := Place(unit, p.offset, p.width, unitBits)]
  }

  function RegionBytes(bits: nat): nat {
    Max(1, (bits + 7) / 8)
  }

  function CloseRegion(s: Build): Build {
    if !s.region then s
    else
      var n := RegionBytes(s.regionBits);
      s.(region := false, pending := [], padded := s.padded + [Bytes(n)], cursor := s.cursor + n,
         places := Record(s.places, s.pending, |s.padded|, 8 * n))
  }

  function PackedBits(s: Build, f: Field): Build {
    var s := if s.region then s else s.(region := true, regionBits := 0);
    if f.bits == 0 then s.(regionBits := AlignUp(s.regionBits, 8 * f.shape.size))
    else
      s.(pending := if f.name == "" then s.pending else s.pending + [Pending(f.name, s.regionBits, f.bits)],
         regionBits := s.regionBits + f.bits)
  }

  function OpenUnit(s: Build, f: Field): Build {
    var t := Put(s, AlignUp(s.cursor, f.shape.align), Field("", f.shape, 0));
    t.(unitBytes := f.shape.size, bitUsed := 0, unitIndex := |t.padded| - 1,
       structAlign := Max(s.structAlign, f.shape.align))
  }

  predicate NeedsUnit(s: Build, f: Field) {
    s.unitBytes == 0 || s.unitBytes != f.shape.size || s.bitUsed + f.bits > 8 * f.shape.size
  }

  function TakeBits(s: Build, f: Field): Build {
    s.(places := if f.name == "" then s.places
                 else s.places[f.name := Place(s.unitIndex, s.bitUsed, f.bits, 8 * f.shape.size)],
       bitUsed := s.bitUsed + f.bits)
  }

  function UnitBits(s: Build, f: Field): Build {
    if f.bits == 0 then FlushUnit(s)
    else TakeBits(if NeedsUnit(s, f) then OpenUnit(s, f) else s, f)
  }

  /** The alignment an ordinary field is placed at. */
  function TargetAlign(d: Decl, f: Field): nat {
    var nat_ := if d.packed then 1 else f.shape.align;
    if f.name in d.aligns then Max(nat_, d.aligns[f.name]) else nat_
  }

  function Ordinary(d: Decl, s: Build, f: Field): Build {
    var ta := TargetAlign(d, f);
    var off := AlignUp(s.cursor, ta);
    Put(s, off, f).(targets := s.targets + [off],
                    structAlign := if !d.packed || f.name in d.aligns then Max(s.structAlign, ta)
                                   else s.structAlign)
  }

  function Step(d: Decl, s: Build, f: Field): Build {
    if IsBitField(f) then (if d.packed then PackedBits(s, f) else UnitBits(s, f))
    else Ordinary(d, FlushUnit(CloseRegion(s)), f)
  }

  function Fold(d: Decl, fs: seq<Field>): Build {
    if fs == [] then Start(d) else Step(d, Fold(d, fs[..|fs| - 1]), fs[|fs| - 1])
  }

  function Finish(d: Decl, s: Build): Build {
    var s := CloseRegion(s);
    var align := Max(s.structAlign, d.forcedAlign);
    var total := AlignUp(s.cursor, align);
    s.(structAlign := align, cursor := total, padded := s.padded + PadTo(s.cursor, total))
  }

  function Materialise(d: Decl, fs: seq<Field>): Build {
    Finish(d, Fold(d, fs))
  }

  // ---- what the analyser guarantees and what soundness means ----

  ghost predicate WellFormed(d: Decl, fs: seq<Field>) {
    && WellShaped(fs)
    && (d.base.Some? ==> IsPow2(d.base.value.align))
    && (d.forcedAlign == 0 || IsPow2(d.forcedAlign))
    && (forall n <- d.aligns :: IsPow2(d.aligns[n]))
    && (forall i :: 0 <= i < |fs| && IsBitField(fs[i]) ==> fs[i].bits <= 8 * fs[i].shape.size && fs[i].shape.size > 0)
  }

  predicate Fits(padded: seq<Field>, p: Place) {
    && p.unit < |padded| && padded[p.unit].name == ""
    && p.offset + p.width <= p.unitBits == 8 * padded[p.unit].shape.size
  }

  predicate Apart(p: Place, q: Place) {
    p.unit != q.unit || p.offset + p.width <= q.offset || q.offset + q.width <= p.offset
  }

  ghost predicate PlacesSound(padded: seq<Field>, places: map<string, Place>) {
    && (forall n <- places :: Fits(padded, places[n]))
    && (forall m, n :: m in places && n in places && m != n ==> Apart(places[m], places[n]))
  }

  ghost predicate UnitSound(s: Build) {
    s.unitBytes > 0 ==>
      && |s.padded| == s.unitIndex + 1 && s.padded[s.unitIndex].name == ""
      && s.padded[s.unitIndex].shape.size == s.unitBytes && s.bitUsed <= 8 * s.unitBytes
      && forall n <- s.places :: s.places[n].unit == s.unitIndex ==> s.places[n].offset + s.places[n].width <= s.bitUsed
  }

  ghost predicate PendingSound(s: Build) {
    && (!s.region ==> s.pending == [])
    && (forall i :: 0 <= i < |s.pending| ==> s.pending[i].offset + s.pending[i].width <= s.regionBits)
    && (forall i, j :: 0 <= i < j < |s.pending| ==> s.pending[i].offset + s.pending[i].width <= s.pending[j].offset)
  }

  ghost predicate WalkSound(packed: bool, padded: seq<Field>, cursor: nat, align: nat) {
    && WellShaped(padded) && End(packed, padded) == cursor
    && IsPow2(align) && StructAlign(packed, padded) <= align
  }

  ghost predicate Sound(d: Decl, s: Build) {
    && WalkSound(d.packed, s.padded, s.cursor, s.structAlign) && PlacesSound(s.padded, s.places) && UnitSound(s)
      && PendingSound(s)
    && (if d.packed then s.unitBytes == 0 else !s.region)
  }

  // ---- every step keeps the layout sound ----

  lemma StartSound(d: Decl)
    requires WellFormed(d, [])
    ensures Sound(d, Start(d))
  {
    if d.base.Some? {
      var b := d.base.value;
      EndPush(d.packed, [], Field("", b, 0));
      assert [] + [Field("", b, 0)] == [Field("", b, 0)];
      AlignUpFixed(0, Alignment(d.packed, Field("", b, 0)));
    }
  }

  lemma ByteEntry(packed: bool, fs: seq<Field>, n: nat)
    requires WellShaped(fs)
    ensures WellShaped(fs + [Bytes(n)])
    ensures End(packed, fs + [Bytes(n)]) == End(packed, fs) + n
    ensures StructAlign(packed, fs + [Bytes(n)]) == StructAlign(packed, fs)
  {
    EndPush(packed, fs, Bytes(n));
    StructAlignSound(packed, fs);
    AlignUpFixed(End(packed, fs), 1);
  }

  lemma PadWalk(packed: bool, fs: seq<Field>, off: nat)
    requires WellShaped(fs) && End(packed, fs) <= off
    ensures var t := fs + PadTo(End(packed, fs), off);
      WellShaped(t) && End(packed, t) == off && StructAlign(packed, t) == StructAlign(packed, fs)
  {
    if End(packed, fs) < off { ByteEntry(packed, fs, off - End(packed, fs)); }
    else { assert fs + PadTo(End(packed, fs), off) == fs; }
  }

  /** The walk puts an entry exactly where the builder wants it. */
  lemma PutWalk(packed: bool, fs: seq<Field>, a: nat, f: Field)
    requires WellShaped(fs) && IsPow2(f.shape.align) && IsPow2(a) && Alignment(packed, f) <= a
    ensures var off := AlignUp(End(packed, fs), a); var t := fs + PadTo(End(packed, fs), off);
      && WellShaped(t + [f]) && End(packed, t + [f]) == off + f.shape.size
      && Offset(packed, t + [f], |t|) == off && Aligned(off, a)
      && StructAlign(packed, t + [f]) == if packed then 1 else Max(StructAlign(packed, fs), f.shape.align)
  {
    var off := AlignUp(End(packed, fs), a);
    AlignUpSound(End(packed, fs), a);
    Pow2Aligned(Alignment(packed, f), a);
    AlignedTrans(off, a, Alignment(packed, f));
    AlignUpFixed(off, Alignment(packed, f));
    hide AlignUp, IsPow2, StructAlign, End, Aligned, Offset;
    PadWalk(packed, fs, off);
    EndPush(packed, fs + PadTo(End(packed, fs), off), f);
  }

  lemma FitsPush(padded: seq<Field>, more: seq<Field>, places: map<string, Place>)
    requires PlacesSound(padded, places)
    ensures PlacesSound(padded + more, places)
    ensures forall n <- places :: places[n].unit < |padded|
  {
  }

  lemma {:induction false} RecordSound(s: Build, k: nat, n: nat)
    requires PlacesSound(s.padded, s.places) && PendingSound(s) && s.regionBits <= 8 * n
    requires k <= |s.pending|
    ensures var r := Record(s.places, s.pending[..k], |s.padded|, 8 * n);
      && PlacesSound(s.padded + [Bytes(n)], r)
      && forall m <- r :: r[m].unit == |s.padded| ==>
           k > 0 && r[m].offset + r[m].width <= s.pending[k - 1].offset + s.pending[k - 1].width
  {
    FitsPush(s.padded, [Bytes(n)], s.places);
    if k > 0 {
      RecordSound(s, k - 1, n);
      assert s.pending[..k][..k - 1] == s.pending[..k - 1];
    }
  }

  lemma CloseRegionSound(d: Decl, s: Build)
    requires Sound(d, s)
    ensures Sound(d, CloseRegion(s)) && !CloseRegion(s).region
  {
    if s.region {
      var n := RegionBytes(s.regionBits);
      ByteEntry(d.packed, s.padded, n);
      assert s.pending[..|s.pending|] == s.pending;
      RecordSound(s, |s.pending|, n);
    }
  }

  lemma PackedBitsSound(d: Decl, s: Build, f: Field)
    requires Sound(d, s) && d.packed && f.shape.size > 0
    ensures Sound(d, PackedBits(s, f))
  {
    hide WalkSound, PlacesSound;
    AlignUpSound(if s.region then s.regionBits else 0, 8 * f.shape.size);
  }

  lemma PutSound(d: Decl, s: Build, a: nat, f: Field, align: nat)
    requires WalkSound(d.packed, s.padded, s.cursor, s.structAlign) && PlacesSound(s.padded, s.places)
    requires IsPow2(f.shape.align) && IsPow2(a) && Alignment(d.packed, f) <= a
    requires IsPow2(align) && s.structAlign <= align && (!d.packed ==> f.shape.align <= align)
    ensures var t := Put(s, AlignUp(s.cursor, a), f);
      && WalkSound(d.packed, t.padded, t.cursor, align) && PlacesSound(t.padded, s.places)
      && s.padded <= t.padded
  {
    PutWalk(d.packed, s.padded, a, f);
    hide AlignUp, Aligned, End, Offset;
    var pad := PadTo(s.cursor, AlignUp(s.cursor, a));
    StructAlignSound(d.packed, s.padded);
    hide StructAlign, IsPow2;
    FitsPush(s.padded, pad + [f], s.places);
    assert s.padded + pad + [f] == s.padded + (pad + [f]);
  }

  lemma OpenUnitSound(d: Decl, s: Build, f: Field)
    requires Sound(d, s) && !d.packed && IsPow2(f.shape.align) && f.shape.size > 0
    ensures var t := OpenUnit(s, f); Sound(d, t) && t.unitBytes == f.shape.size && t.bitUsed == 0
    ensures s.padded <= OpenUnit(s, f).padded
  {
    PutSound(d, s, f.shape.align, Field("", f.shape, 0), Max(s.structAlign, f.shape.align));
    FitsPush(s.padded, [], s.places);
    hide WalkSound, AlignUp, IsPow2, PadTo;
  }

  lemma TakeBitsSound(d: Decl, s: Build, f: Field)
    requires Sound(d, s) && !d.packed && !NeedsUnit(s, f)
    ensures Sound(d, TakeBits(s, f))
  {
    hide WalkSound;
  }

  lemma UnitBitsSound(d: Decl, s: Build, f: Field)
    requires Sound(d, s) && !d.packed && IsPow2(f.shape.align) && 0 < f.shape.size && f.bits <= 8 * f.shape.size
    ensures Sound(d, UnitBits(s, f))
  {
    hide Sound, OpenUnit, TakeBits;
    if f.bits == 0 {
      FlushSound(d, s);
    } else {
      OpenUnitSound(d, s, f);
      TakeBitsSound(d, if NeedsUnit(s, f) then OpenUnit(s, f) else s, f);
    }
  }

  lemma OrdinarySound(d: Decl, s: Build, f: Field)
    requires Sound(d, s) && !s.region && s.unitBytes == 0 && IsPow2(f.shape.align)
    requires f.name in d.aligns ==> IsPow2(d.aligns[f.name])
    ensures Sound(d, Ordinary(d, s, f))
  {
    PutSound(d, s, TargetAlign(d, f), f, Ordinary(d, s, f).structAlign);
    hide WalkSound, PlacesSound, AlignUp, IsPow2, PadTo;
  }

  lemma StepSound(d: Decl, s: Build, f: Field)
    requires Sound(d, s) && WellFormed(d, [f])
    ensures Sound(d, Step(d, s, f))
  {
    hide Sound, PackedBits, UnitBits, Ordinary, CloseRegion;
    assert [f][0] == f;
    if IsBitField(f) {
      if d.packed { PackedBitsSound(d, s, f); } else { UnitBitsSound(d, s, f); }
    } else {
      CloseRegionSound(d, s);
      FlushSound(d, CloseRegion(s));
      OrdinarySound(d, FlushUnit(CloseRegion(s)), f);
    }
  }

  lemma FlushSound(d: Decl, s: Build)
    requires Sound(d, s)
    ensures Sound(d, FlushUnit(s))
  {
  }

  lemma WellFormedSplit(d: Decl, fs: seq<Field>)
    requires WellFormed(d, fs) && fs != []
    ensures WellFormed(d, fs[..|fs| - 1]) && WellFormed(d, [fs[|fs| - 1]])
  {
    hide IsPow2;
  }

  lemma {:induction false} FoldSound(d: Decl, fs: seq<Field>)
    requires WellFormed(d, fs)
    ensures Sound(d, Fold(d, fs))
  {
    if fs == [] {
      StartSound(d);
    } else {
      WellFormedSplit(d, fs);
      hide Sound, Step, WellFormed;
      FoldSound(d, fs[..|fs| - 1]);
      StepSound(d, Fold(d, fs[..|fs| - 1]), fs[|fs| - 1]);
    }
  }

  lemma FinishSound(d: Decl, s: Build)
    requires Sound(d, s) && (d.forcedAlign == 0 || IsPow2(d.forcedAlign))
    ensures var t := Finish(d, s);
      && WalkSound(d.packed, t.padded, t.cursor, t.structAlign) && PlacesSound(t.padded, t.places)
      && Aligned(t.cursor, t.structAlign) && d.forcedAlign <= t.structAlign
  {
    CloseRegionSound(d, s);
    var c := CloseRegion(s);
    var align := Max(c.structAlign, d.forcedAlign);
    AlignUpSound(c.cursor, align);
    hide AlignUp, IsPow2, StructAlign, CloseRegion;
    PadWalk(d.packed, c.padded, AlignUp(c.cursor, align));
    FitsPush(c.padded, PadTo(c.cursor, AlignUp(c.cursor, align)), c.places);
  }
}
