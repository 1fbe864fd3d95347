/** What every layout built for an aggregate satisfies, stated on the finished list. */
module LayoutTheorem {
  import opened Layout
  import opened LayoutBuild

  function Ordinaries(fs: seq<Field>): seq<Field> {
    if fs == [] then []
    else Ordinaries(fs[..|fs| - 1]) + if IsBitField(fs[|fs| - 1]) then [] else [fs[|fs| - 1]]
  }

  /** Where the struct walk puts the named entries, in order. */
  function OrdinaryOffsets(packed: bool, fs: seq<Field>): seq<nat> {
    if fs == [] then []
    else
      var n := |fs| - 1;
      OrdinaryOffsets(packed, fs[..n]) + if IsBitField(fs[n]) then [] else [Offset(packed, fs, n)]
  }

  /** The declared width of every named bit-field. */
  function Widths(fs: seq<Field>): map<string, nat> {
    if fs == [] then map[]
    else
      var f := fs[|fs| - 1];
      var m := Widths(fs[..|fs| - 1]);
      if IsBitField(f) && f.name != "" then m[f.name := f.bits] else m
  }

  function WidthsOf(places: map<string, Place>): map<string, nat> {
    map n | n in places :: places[n].width
  }

  function Pended(m: map<string, nat>, pending: seq<Pending>): map<string, nat> {
    if pending == [] then m
    else
      var p := pending[|pending| - 1];
      Pended(m, pending[..|pending| - 1])[p.name := p.width]
  }

  // ---- the recorded targets are the walk's offsets ----

  ghost predicate Listed(d: Decl, os: seq<Field>, padded: seq<Field>, targets: seq<nat>) {
    && Ordinaries(padded) == os
    && OrdinaryOffsets(d.packed, padded) == targets
    && |os| == |targets|
    && (forall k :: 0 <= k < |os| ==> Aligned(targets[k], TargetAlign(d, os[k])))
    && (forall i :: 0 <= i < |padded| && padded[i].name != "" ==> !IsBitField(padded[i]))
  }

  ghost predicate Raised(d: Decl, os: seq<Field>, structAlign: nat) {
    forall k :: 0 <= k < |os| && os[k].name in d.aligns ==> d.aligns[os[k].name] <= structAlign
  }

  ghost predicate OnTarget(d: Decl, os: seq<Field>, s: Build) {
    Listed(d, os, s.padded, s.targets) && Raised(d, os, s.structAlign)
  }

  lemma OrdinariesPush(packed: bool, fs: seq<Field>, f: Field)
    ensures Ordinaries(fs + [f]) == Ordinaries(fs) + if IsBitField(f) then [] else [f]
    ensures OrdinaryOffsets(packed, fs + [f])
         == OrdinaryOffsets(packed, fs) + if IsBitField(f) then [] else [Offset(packed, fs + [f], |fs|)]
  {
    assert (fs + [f])[..|fs|] == fs;
  }

  lemma PadOrdinaries(packed: bool, fs: seq<Field>, cursor: nat, off: nat)
    ensures Ordinaries(fs + PadTo(cursor, off)) == Ordinaries(fs)
    ensures OrdinaryOffsets(packed, fs + PadTo(cursor, off)) == OrdinaryOffsets(packed, fs)
  {
    if off > cursor { OrdinariesPush(packed, fs, Bytes(off - cursor)); }
    else { assert fs + PadTo(cursor, off) == fs; }
  }

  lemma CloseRegionOnTarget(d: Decl, os: seq<Field>, s: Build)
    requires OnTarget(d, os, s)
    ensures OnTarget(d, os, CloseRegion(s))
  {
    OrdinariesPush(d.packed, s.padded, Bytes(RegionBytes(s.regionBits)));
  }

  lemma PutListed(d: Decl, os: seq<Field>, s: Build, off: nat, f: Field)
    requires Listed(d, os, s.padded, s.targets) && f.name == ""
    ensures Listed(d, os, Put(s, off, f).padded, s.targets)
  {
    PadOrdinaries(d.packed, s.padded, s.cursor, off);
    OrdinariesPush(d.packed, s.padded + PadTo(s.cursor, off), f);
  }

  lemma BitsOnTarget(d: Decl, os: seq<Field>, s: Build, f: Field)
    requires OnTarget(d, os, s)
    ensures OnTarget(d, os, PackedBits(s, f)) && OnTarget(d, os, UnitBits(s, f))
  {
    PutListed(d, os, s, AlignUp(s.cursor, f.shape.align), Field("", f.shape, 0));
    hide Listed, AlignUp;
  }

  lemma OrdinaryListed(d: Decl, os: seq<Field>, s: Build, f: Field)
    requires Listed(d, os, s.padded, s.targets) && Sound(d, s) && !IsBitField(f) && WellFormed(d, [f])
    ensures Listed(d, os + [f], Ordinary(d, s, f).padded, Ordinary(d, s, f).targets)
  {
    hide AlignUp, Aligned, Ordinaries, OrdinaryOffsets, End, StructAlign, PlacesSound, UnitSound, PendingSound;
    assert [f][0] == f;
    var ta := TargetAlign(d, f);
    var off := AlignUp(s.cursor, ta);
    PutWalk(d.packed, s.padded, ta, f);
    hide Sound, WellFormed, IsPow2, Offset, TargetAlign;
    PadOrdinaries(d.packed, s.padded, s.cursor, off);
    OrdinariesPush(d.packed, s.padded + PadTo(s.cursor, off), f);
  }

  lemma OrdinaryRaised(d: Decl, os: seq<Field>, s: Build, f: Field)
    requires Raised(d, os, s.structAlign)
    ensures Raised(d, os + [f], Ordinary(d, s, f).structAlign)
  {
    hide AlignUp;
  }

  lemma FlushOnTarget(d: Decl, os: seq<Field>, s: Build)
    requires OnTarget(d, os, s)
    ensures OnTarget(d, os, FlushUnit(s))
  {
  }

  lemma StartOnTarget(d: Decl)
    ensures OnTarget(d, [], Start(d))
  {
    hide AlignUp, Aligned, End, Offset, TargetAlign;
    if d.base.Some? { OrdinariesPush(d.packed, [], Field("", d.base.value, 0)); }
  }

  lemma StepOnTarget(d: Decl, os: seq<Field>, s: Build, f: Field)
    requires OnTarget(d, os, s) && Sound(d, s) && WellFormed(d, [f])
    ensures OnTarget(d, os + if IsBitField(f) then [] else [f], Step(d, s, f))
  {
    hide Listed, Raised, Sound, WellFormed, PackedBits, UnitBits, Ordinary, CloseRegion, FlushUnit;
    assert os + [] == os;
    if IsBitField(f) {
      BitsOnTarget(d, os, s, f);
    } else {
      var c := CloseRegion(s);
      CloseRegionOnTarget(d, os, s);
      CloseRegionSound(d, s);
      FlushSound(d, c);
      FlushOnTarget(d, os, c);
      OrdinaryListed(d, os, FlushUnit(c), f);
      OrdinaryRaised(d, os, FlushUnit(c), f);
    }
  }

  lemma {:induction false} FoldOnTarget(d: Decl, fs: seq<Field>)
    requires WellFormed(d, fs)
    ensures OnTarget(d, Ordinaries(fs), Fold(d, fs))
  {
    if fs == [] {
      StartOnTarget(d);
    } else {
      var init, f := fs[..|fs| - 1], fs[|fs| - 1];
      WellFormedSplit(d, fs);
      hide OnTarget, Sound, Step, WellFormed;
      FoldOnTarget(d, init);
      FoldSound(d, init);
      StepOnTarget(d, Ordinaries(init), Fold(d, init), f);
    }
  }

  // ---- every named bit-field has its place ----

  lemma {:induction false} RecordWidths(places: map<string, Place>, pending: seq<Pending>, unit: nat, bits: nat)
    ensures WidthsOf(Record(places, pending, unit, bits)) == Pended(WidthsOf(places), pending)
  {
    if pending != [] { RecordWidths(places, pending[..|pending| - 1], unit, bits); }
  }

  lemma StepWidths(d: Decl, s: Build, f: Field, m: map<string, nat>)
    requires Pended(WidthsOf(s.places), s.pending) == m && (!s.region ==> s.pending == [])
    requires !d.packed ==> !s.region
    ensures var t := Step(d, s, f);
      && Pended(WidthsOf(t.places), t.pending)
         == (if IsBitField(f) && f.name != "" then m[f.name := f.bits] else m)
      && (!t.region ==> t.pending == [])
  {
    RecordWidths(s.places, s.pending, |s.padded|, 8 * RegionBytes(s.regionBits));
    assert (s.pending + [Pending(f.name, s.regionBits, f.bits)])[..|s.pending|] == s.pending;
    hide Put, RegionBytes;
  }

  lemma {:induction false} FoldWidths(d: Decl, fs: seq<Field>)
    requires WellFormed(d, fs)
    ensures var s := Fold(d, fs);
      Pended(WidthsOf(s.places), s.pending) == Widths(fs) && (!s.region ==> s.pending == [])
  {
    if fs != [] {
      FoldWidths(d, fs[..|fs| - 1]);
      FoldSound(d, fs[..|fs| - 1]);
      StepWidths(d, Fold(d, fs[..|fs| - 1]), fs[|fs| - 1], Widths(fs[..|fs| - 1]));
    }
  }

  // ---- the finished layout ----

  /** The alignment reported for the aggregate. */
  function ReportedAlign(d: Decl, padded: seq<Field>): nat {
    Max(StructAlign(d.packed, padded), d.forcedAlign)
  }

  lemma FinishListed(d: Decl, os: seq<Field>, s: Build)
    requires OnTarget(d, os, s)
    ensures OnTarget(d, os, Finish(d, s))
  {
    CloseRegionOnTarget(d, os, s);
    var c := CloseRegion(s);
    hide CloseRegion, AlignUp, Ordinaries, OrdinaryOffsets, Aligned, TargetAlign;
    PadOrdinaries(d.packed, c.padded, c.cursor, AlignUp(c.cursor, Max(c.structAlign, d.forcedAlign)));
  }

  /** The struct walk over the padded list reproduces the builder's own targets and total,
      every ordinary field meets its alignment, bit-field places are inside their unit and
      apart, and the size is a multiple of every alignment involved. */
  lemma LayoutSound(d: Decl, fs: seq<Field>)
    requires WellFormed(d, fs)
    ensures var s := Materialise(d, fs);
      && Ordinaries(s.padded) == Ordinaries(fs)
      && OrdinaryOffsets(d.packed, s.padded) == s.targets
      && |s.targets| == |Ordinaries(fs)|
      && (forall k :: 0 <= k < |s.targets| ==> Aligned(s.targets[k], TargetAlign(d, Ordinaries(fs)[k])))
      && (forall k :: 0 <= k < |s.targets| && Ordinaries(fs)[k].name in d.aligns ==>
            d.aligns[Ordinaries(fs)[k].name] <= s.structAlign)
    ensures var s := Materialise(d, fs);
      && WellShaped(s.padded) && PlacesSound(s.padded, s.places) && WidthsOf(s.places) == Widths(fs)
      && (forall i :: 0 <= i < |s.padded| && s.padded[i].name != "" ==> !IsBitField(s.padded[i]))
    ensures var s := Materialise(d, fs);
      && StructSize(d.packed, s.padded) == End(d.packed, s.padded) == s.cursor
      && IsPow2(s.structAlign) && Aligned(s.cursor, s.structAlign)
      && Aligned(s.structAlign, ReportedAlign(d, s.padded))
      && Aligned(StructSize(d.packed, s.padded), ReportedAlign(d, s.padded))
  {
    var s := Fold(d, fs);
    FoldSound(d, fs);
    FoldOnTarget(d, fs);
    FinishListed(d, Ordinaries(fs), s);
    FinishSound(d, s);
    FoldWidths(d, fs);
    RecordWidths(s.places, s.pending, |s.padded|, 8 * RegionBytes(s.regionBits));
    hide Fold, CloseRegion, Record, Sound;
    SizeAligned(d, Finish(d, s));
  }

  lemma SizeAligned(d: Decl, t: Build)
    requires WalkSound(d.packed, t.padded, t.cursor, t.structAlign)
    requires Aligned(t.cursor, t.structAlign) && d.forcedAlign <= t.structAlign
    requires d.forcedAlign == 0 || IsPow2(d.forcedAlign)
    ensures StructSize(d.packed, t.padded) == t.cursor
    ensures Aligned(t.structAlign, ReportedAlign(d, t.padded))
    ensures Aligned(t.cursor, ReportedAlign(d, t.padded))
  {
    var a := StructAlign(d.packed, t.padded);
    StructAlignSound(d.packed, t.padded);
    Pow2Aligned(a, t.structAlign);
    Pow2Aligned(Max(a, d.forcedAlign), t.structAlign);
    hide IsPow2, StructAlign, End, AlignUp;
    AlignedTrans(t.cursor, t.structAlign, a);
    AlignedTrans(t.cursor, t.structAlign, Max(a, d.forcedAlign));
    AlignUpFixed(t.cursor, a);
  }

  // ---- the implicit layout of a plain aggregate ----

  function Slot(d: Decl): seq<Field> {
    if d.base.Some? then [Field("", d.base.value, 0)] else []
  }

  ghost predicate Plain(d: Decl, fs: seq<Field>) {
    && !d.packed && d.forcedAlign == 0 && d.aligns == map[]
    && forall i :: 0 <= i < |fs| ==> !IsBitField(fs[i])
  }

  ghost predicate Mirrors(s: Build, walk: seq<Field>) {
    && s.cursor == End(false, walk) && s.structAlign == StructAlign(false, walk)
    && s.targets == OrdinaryOffsets(false, walk) && !s.region
  }

  lemma PlainStep(d: Decl, s: Build, walk: seq<Field>, f: Field)
    requires Plain(d, [f]) && Mirrors(s, walk)
    ensures Mirrors(Step(d, s, f), walk + [f])
  {
    assert !IsBitField([f][0]);
    hide AlignUp, PadTo, End, StructAlign, OrdinaryOffsets, Offset;
    EndPush(false, walk, f);
    OrdinariesPush(false, walk, f);
  }

  lemma {:induction false} PlainFold(d: Decl, fs: seq<Field>)
    requires Plain(d, fs) && WellFormed(d, fs)
    ensures Mirrors(Fold(d, fs), Slot(d) + fs)
  {
    if fs == [] {
      assert Slot(d) + fs == Slot(d);
      if d.base.Some? {
        EndPush(false, [], Slot(d)[0]);
        OrdinariesPush(false, [], Slot(d)[0]);
        AlignUpFixed(0, d.base.value.align);
        assert [] + Slot(d) == Slot(d);
      }
    } else {
      var init, f := fs[..|fs| - 1], fs[|fs| - 1];
      assert Slot(d) + fs == (Slot(d) + init) + [f];
      WellFormedSplit(d, fs);
      hide WellFormed, Mirrors, Step, Slot;
      PlainFold(d, init);
      PlainStep(d, Fold(d, init), Slot(d) + init, f);
    }
  }

  /** Without annotations the builder adds no entry; the offsets and the size the walk then
      gives are those explicit padding would have produced. */
  lemma PlainAgrees(d: Decl, fs: seq<Field>)
    requires Plain(d, fs) && WellFormed(d, fs)
    ensures OrdinaryOffsets(false, Slot(d) + fs) == Materialise(d, fs).targets
    ensures StructSize(false, Slot(d) + fs) == StructSize(false, Materialise(d, fs).padded)
    ensures Aligned(StructSize(false, Slot(d) + fs), StructAlign(false, Slot(d) + fs))
  {
    PlainFold(d, fs);
    LayoutSound(d, fs);
    hide Fold, Ordinaries, OrdinaryOffsets, WidthsOf, Widths, PlacesSound;
    var a := StructAlign(false, Slot(d) + fs);
    assert WellShaped(Slot(d) + fs);
    StructAlignSound(false, Slot(d) + fs);
    AlignUpSound(End(false, Slot(d) + fs), a);
  }

  // ---- which bits neighbouring bit-fields get ----

  predicate SameSpot(p: Place, q: Place) {
    p.unit == q.unit && p.offset == q.offset && p.width == q.width
  }

  function View(s: Build): map<string, Place> {
    CloseRegion(s).places
  }

  lemma {:induction false} RecordSpot(places: map<string, Place>, pending: seq<Pending>, unit: nat, b: nat, c: nat)
    ensures var r, t := Record(places, pending, unit, b), Record(places, pending, unit, c);
      r.Keys == t.Keys && forall n <- r :: SameSpot(r[n], t[n])
  {
    if pending != [] { RecordSpot(places, pending[..|pending| - 1], unit, b, c); }
  }

  lemma PackedKeeps(s: Build, f: Field, n: string)
    requires !s.region ==> s.pending == []
    requires n in View(s) && n != f.name
    ensures n in View(PackedBits(s, f)) && SameSpot(View(PackedBits(s, f))[n], View(s)[n])
  {
    var t := PackedBits(s, f);
    var b, c := 8 * RegionBytes(s.regionBits), 8 * RegionBytes(t.regionBits);
    RecordSpot(s.places, s.pending, |s.padded|, b, c);
    assert View(t) == Record(s.places, t.pending, |s.padded|, c);
    assert View(s) == Record(s.places, s.pending, |s.padded|, b) || !s.region;
    if t.pending != s.pending {
      assert t.pending[..|t.pending| - 1] == s.pending;
    }
  }

  lemma StepKeeps(d: Decl, s: Build, f: Field, n: string)
    requires Sound(d, s) && n in View(s) && n != f.name
    ensures n in View(Step(d, s, f)) && SameSpot(View(Step(d, s, f))[n], View(s)[n])
  {
    hide WalkSound, PlacesSound, UnitSound, Record, PadTo, AlignUp;
    if d.packed && IsBitField(f) {
      PackedKeeps(s, f, n);
      hide PackedBits;
    }
  }

  lemma {:induction false} FoldKeeps(d: Decl, fs: seq<Field>, k: nat, n: string)
    requires WellFormed(d, fs) && k <= |fs| && n in View(Fold(d, fs[..k]))
    requires forall j :: k <= j < |fs| ==> fs[j].name != n
    ensures n in View(Fold(d, fs)) && SameSpot(View(Fold(d, fs))[n], View(Fold(d, fs[..k]))[n])
    decreases |fs|
  {
    if k < |fs| {
      var init := fs[..|fs| - 1];
      assert init[..k] == fs[..k];
      WellFormedSplit(d, fs);
      FoldSound(d, init);
      hide WellFormed, View, Step, Sound;
      FoldKeeps(d, init, k, n);
      StepKeeps(d, Fold(d, init), fs[|fs| - 1], n);
    } else {
      assert fs[..k] == fs;
    }
  }

  /** Two bit-fields in a row share an entry exactly when the layout is packed, or their
      types have the same size and both fit; the second then starts where the first ends. */
  predicate Follows(d: Decl, f: Field, g: Field, p: Place, q: Place) {
    if d.packed || (f.shape.size == g.shape.size && p.offset + f.bits + g.bits <= 8 * f.shape.size)
    then q.unit == p.unit && q.offset == p.offset + f.bits
    else q.unit > p.unit && q.offset == 0
  }

  predicate NamedBits(f: Field) {
    f.bits != 0 && f.name != ""
  }

  lemma TwoBitFields(d: Decl, s: Build, f: Field, g: Field)
    requires Sound(d, s) && NamedBits(f) && NamedBits(g) && f.name != g.name
    requires WellFormed(d, [f]) && WellFormed(d, [g])
    ensures var t := Step(d, s, f); var u := Step(d, t, g);
      && f.name in View(t) && f.name in View(u) && g.name in View(u)
      && Follows(d, f, g, View(u)[f.name], View(u)[g.name])
  {
    assert [f][0] == f;
    StepSound(d, s, f);
    if d.packed {
      PackedTwice(s, f, g);
      hide PackedBits, View;
      StepKeeps(d, Step(d, s, f), g, f.name);
    } else {
      UnitTwice(s, f, g);
    }
  }

  lemma UnitTwice(s: Build, f: Field, g: Field)
    requires NamedBits(f) && NamedBits(g) && f.name != g.name && f.shape.size > 0
    requires !s.region && UnitSound(s) && UnitSound(UnitBits(s, f))
    ensures var t := UnitBits(s, f); var u := UnitBits(t, g);
      && f.name in u.places && g.name in u.places && !u.region
      && var p, q := u.places[f.name], u.places[g.name];
         if f.shape.size == g.shape.size && p.offset + f.bits + g.bits <= 8 * f.shape.size
         then q.unit == p.unit && q.offset == p.offset + f.bits
         else q.unit > p.unit && q.offset == 0
  {
    hide AlignUp, PadTo;
  }

  lemma PackedTwice(s: Build, f: Field, g: Field)
    requires NamedBits(f) && NamedBits(g) && f.name != g.name
    requires !s.region ==> s.pending == []
    ensures var t := PackedBits(s, f); var u := PackedBits(t, g);
      && f.name in View(t) && g.name in View(u)
      && View(u)[g.name].unit == View(t)[f.name].unit
      && View(u)[g.name].offset == View(t)[f.name].offset + f.bits
  {
    var at := if s.region then s.regionBits else 0;
    var t := PackedBits(s, f);
    assert t.pending == s.pending + [Pending(f.name, at, f.bits)];
    assert PackedBits(t, g).pending == t.pending + [Pending(g.name, at + f.bits, g.bits)];
  }

  lemma SharingRule(d: Decl, fs: seq<Field>, i: nat)
    requires WellFormed(d, fs) && i + 1 < |fs| && NamedBits(fs[i]) && NamedBits(fs[i + 1])
    requires forall j, k :: 0 <= j < k < |fs| && fs[j].name != "" ==> fs[j].name != fs[k].name
    ensures var places := Materialise(d, fs).places;
      && fs[i].name in places && fs[i + 1].name in places
      && Follows(d, fs[i], fs[i + 1], places[fs[i].name], places[fs[i + 1].name])
  {
    var f, g := fs[i], fs[i + 1];
    WellFormedPrefix(d, fs, i);
    WellFormedPrefix(d, fs, i + 1);
    hide WellFormed, View, Step, Sound;
    FoldPrefix(d, fs, i);
    FoldPrefix(d, fs, i + 1);
    hide Fold;
    FoldSound(d, fs[..i]);
    TwoBitFields(d, Fold(d, fs[..i]), f, g);
    FinalView(d, fs);
    FoldKeeps(d, fs, i + 2, f.name);
    FoldKeeps(d, fs, i + 2, g.name);
    hide Materialise;
  }

  /** A zero-width field between two bit-fields ends the unit or, in a packed layout, moves
      the second field up to the next multiple of its type's size. */
  predicate FollowsZero(d: Decl, f: Field, z: Field, p: Place, q: Place) {
    if d.packed then q.unit == p.unit && q.offset == AlignUp(p.offset + f.bits, 8 * z.shape.size)
    else q.unit > p.unit && q.offset == 0
  }

  lemma PackedAroundZero(s: Build, f: Field, z: Field, g: Field)
    requires NamedBits(f) && NamedBits(g) && f.name != g.name && z.bits == 0 && z.name == ""
    requires !s.region ==> s.pending == []
    ensures var t := PackedBits(s, f); var u := PackedBits(PackedBits(t, z), g);
      && f.name in View(t) && g.name in View(u)
      && View(u)[g.name].unit == View(t)[f.name].unit
      && View(u)[g.name].offset == AlignUp(View(t)[f.name].offset + f.bits, 8 * z.shape.size)
  {
    var at := if s.region then s.regionBits else 0;
    var t := PackedBits(s, f);
    hide AlignUp;
    assert t.pending == s.pending + [Pending(f.name, at, f.bits)];
    assert PackedBits(PackedBits(t, z), g).pending
        == t.pending + [Pending(g.name, AlignUp(at + f.bits, 8 * z.shape.size), g.bits)];
  }

  lemma UnitAroundZero(s: Build, f: Field, z: Field, g: Field)
    requires NamedBits(f) && NamedBits(g) && f.name != g.name && z.bits == 0 && f.shape.size > 0
    requires !s.region && UnitSound(s) && UnitSound(UnitBits(s, f))
    ensures var u := UnitBits(UnitBits(UnitBits(s, f), z), g);
      && f.name in u.places && g.name in u.places && !u.region
      && u.places[g.name].unit > u.places[f.name].unit && u.places[g.name].offset == 0
  {
    hide AlignUp, PadTo;
  }

  lemma AroundZero(d: Decl, s: Build, f: Field, z: Field, g: Field)
    requires Sound(d, s) && NamedBits(f) && NamedBits(g) && f.name != g.name && z.bits == 0 && z.name == ""
    requires WellFormed(d, [f]) && WellFormed(d, [z]) && WellFormed(d, [g])
    ensures var u := Step(d, Step(d, Step(d, s, f), z), g);
      && f.name in View(u) && g.name in View(u) && FollowsZero(d, f, z, View(u)[f.name], View(u)[g.name])
  {
    assert [f][0] == f;
    var t := Step(d, s, f);
    StepSound(d, s, f);
    StepSound(d, t, z);
    if d.packed {
      PackedAroundZero(s, f, z, g);
      hide PackedBits, View;
      StepKeeps(d, t, z, f.name);
      StepKeeps(d, Step(d, t, z), g, f.name);
    } else {
      UnitAroundZero(s, f, z, g);
    }
  }

  lemma ZeroWidthRule(d: Decl, fs: seq<Field>, i: nat)
    requires WellFormed(d, fs) && i + 2 < |fs| && NamedBits(fs[i]) && NamedBits(fs[i + 2])
    requires fs[i + 1].bits == 0 && fs[i + 1].name == ""
    requires forall j, k :: 0 <= j < k < |fs| && fs[j].name != "" ==> fs[j].name != fs[k].name
    ensures var places := Materialise(d, fs).places;
      && fs[i].name in places && fs[i + 2].name in places
      && FollowsZero(d, fs[i], fs[i + 1], places[fs[i].name], places[fs[i + 2].name])
  {
    var f, g := fs[i], fs[i + 2];
    WellFormedPrefix(d, fs, i);
    WellFormedPrefix(d, fs, i + 1);
    WellFormedPrefix(d, fs, i + 2);
    hide WellFormed, View, Step, Sound, Fold, Materialise, FollowsZero;
    FoldPrefixes(d, fs, i);
    FoldSound(d, fs[..i]);
    assert f.name != g.name;
    AroundZero(d, Fold(d, fs[..i]), f, fs[i + 1], g);
    FinalView(d, fs);
    FoldKeeps(d, fs, i + 3, f.name);
    FoldKeeps(d, fs, i + 3, g.name);
    SpotsFollow(d, f, fs[i + 1]);
  }

  lemma SpotsFollow(d: Decl, f: Field, z: Field)
    ensures forall p, q, r, t ::
      SameSpot(p, r) && SameSpot(q, t) && FollowsZero(d, f, z, r, t) ==> FollowsZero(d, f, z, p, q)
  {
  }

  lemma FoldPrefixes(d: Decl, fs: seq<Field>, i: nat)
    requires i + 2 < |fs|
    ensures Fold(d, fs[..i + 3]) == Step(d, Step(d, Step(d, Fold(d, fs[..i]), fs[i]), fs[i + 1]), fs[i + 2])
  {
    hide Step;
    FoldPrefix(d, fs, i);
    FoldPrefix(d, fs, i + 1);
    FoldPrefix(d, fs, i + 2);
  }

  lemma FinalView(d: Decl, fs: seq<Field>)
    ensures Materialise(d, fs).places == View(Fold(d, fs))
  {
  }

  lemma WellFormedPrefix(d: Decl, fs: seq<Field>, i: nat)
    requires WellFormed(d, fs) && i < |fs|
    ensures WellFormed(d, fs[..i]) && WellFormed(d, [fs[i]])
  {
    hide IsPow2;
  }

  lemma FoldPrefix(d: Decl, fs: seq<Field>, i: nat)
    requires i < |fs|
    ensures Fold(d, fs[..i + 1]) == Step(d, Fold(d, fs[..i]), fs[i])
  {
    assert fs[..i + 1][..i] == fs[..i];
  }
}
