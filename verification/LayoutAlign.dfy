/** What the builder reports as an aggregate's alignment, from the declaration alone, and
    when the explicit alignment of a field survives it. */
module LayoutAlign {
  import Arith
  import opened Options
  import opened Layout
  import opened LayoutBuild
  import opened LayoutTheorem

  /** Storage types are integers, whose alignment the data layout gives by size. */
  ghost predicate AlignedBySize(fs: seq<Field>) {
    forall i, j ::
      0 <= i < |fs| && 0 <= j < |fs| && IsUnit(fs[i]) && IsUnit(fs[j]) && fs[i].shape.size == fs[j].shape.size ==>
      fs[i].shape.align == fs[j].shape.align
  }

  predicate IsUnit(f: Field) {
    IsBitField(f) && f.bits != 0
  }

  /** The largest natural alignment of the base and the members; a zero-width bit-field has
      no storage and does not count. */
  function NaturalAlign(base: Option<Shape>, fs: seq<Field>): nat {
    if fs == [] then (if base.Some? then Max(1, base.value.align) else 1)
    else
      var before, f := NaturalAlign(base, fs[..|fs| - 1]), fs[|fs| - 1];
      if IsBitField(f) && f.bits == 0 then before else Max(before, f.shape.align)
  }

  function DeclaredAlign(d: Decl, fs: seq<Field>): nat {
    Max(if d.packed then 1 else NaturalAlign(d.base, fs), d.forcedAlign)
  }

  ghost predicate OpenUnitDeclared(s: Build, fs: seq<Field>) {
    s.unitBytes > 0 ==> exists i :: 0 <= i < |fs| && IsUnit(fs[i]) && fs[i].shape.size == s.unitBytes
  }

  lemma {:induction false} NaturalCovers(base: Option<Shape>, fs: seq<Field>, i: nat)
    requires i < |fs| && (IsUnit(fs[i]) || !IsBitField(fs[i]))
    ensures fs[i].shape.align <= NaturalAlign(base, fs)
  {
    if i < |fs| - 1 { NaturalCovers(base, fs[..|fs| - 1], i); }
  }

  lemma {:induction false} AlignPositive(fs: seq<Field>)
    ensures StructAlign(false, fs) >= 1
  {
    if fs != [] { AlignPositive(fs[..|fs| - 1]); }
  }

  /** Padding does not show in the alignment of the list. */
  lemma PadAlign(fs: seq<Field>, cursor: nat, off: nat)
    ensures StructAlign(false, fs + PadTo(cursor, off)) == StructAlign(false, fs)
  {
    AlignPositive(fs);
    if off > cursor { EndPush(false, fs, Bytes(off - cursor)); } else { assert fs + PadTo(cursor, off) == fs; }
  }

  lemma PutAlign(s: Build, off: nat, f: Field)
    ensures StructAlign(false, Put(s, off, f).padded) == Max(StructAlign(false, s.padded), f.shape.align)
  {
    PadAlign(s.padded, s.cursor, off);
    EndPush(false, s.padded + PadTo(s.cursor, off), f);
  }

  /** A list under construction has the alignment of the fields seen so far. */
  ghost predicate Tracks(d: Decl, s: Build, fs: seq<Field>) {
    !s.region && StructAlign(false, s.padded) == NaturalAlign(d.base, fs) && OpenUnitDeclared(s, fs)
  }

  /** A bit-field that joins a unit has the alignment of a field that is already counted. */
  lemma JoinedUnit(d: Decl, s: Build, fs: seq<Field>, f: Field)
    requires Tracks(d, s, fs) && IsUnit(f) && s.unitBytes == f.shape.size > 0 && AlignedBySize(fs + [f])
    ensures f.shape.align <= NaturalAlign(d.base, fs)
  {
    var i :| 0 <= i < |fs| && IsUnit(fs[i]) && fs[i].shape.size == s.unitBytes;
    assert (fs + [f])[i] == fs[i] && (fs + [f])[|fs|] == f;
    NaturalCovers(d.base, fs, i);
  }

  lemma StepTracks(d: Decl, s: Build, fs: seq<Field>, f: Field)
    requires !d.packed && Tracks(d, s, fs) && AlignedBySize(fs + [f])
    ensures Tracks(d, Step(d, s, f), fs + [f])
  {
    var t, more := Step(d, s, f), fs + [f];
    assert more[..|fs|] == fs && more[|fs|] == f;
    assert forall i :: 0 <= i < |fs| ==> more[i] == fs[i];
    hide AlignUp, StructAlign;
    if IsUnit(f) {
      if NeedsUnit(s, f) {
        PutAlign(s, AlignUp(s.cursor, f.shape.align), Field("", f.shape, 0));
      } else {
        JoinedUnit(d, s, fs, f);
      }
      assert t.unitBytes > 0 ==> IsUnit(more[|fs|]) && more[|fs|].shape.size == t.unitBytes;
    } else if !IsBitField(f) {
      PutAlign(FlushUnit(s), AlignUp(s.cursor, TargetAlign(d, f)), f);
    }
  }

  lemma {:induction false} FoldTracks(d: Decl, fs: seq<Field>)
    requires !d.packed && AlignedBySize(fs)
    ensures Tracks(d, Fold(d, fs), fs)
  {
    if fs == [] {
      if d.base.Some? { EndPush(false, [], Field("", d.base.value, 0)); }
      assert Start(d).padded == [] + Start(d).padded;
    } else {
      var init := fs[..|fs| - 1];
      assert fs == init + [fs[|fs| - 1]];
      hide Tracks, Step;
      FoldTracks(d, init);
      StepTracks(d, Fold(d, init), init, fs[|fs| - 1]);
    }
  }

  /** The alignment reported for the finished list is the declared one. */
  lemma ReportedIsDeclared(d: Decl, fs: seq<Field>)
    requires AlignedBySize(fs)
    ensures ReportedAlign(d, Materialise(d, fs).padded) == DeclaredAlign(d, fs)
  {
    if !d.packed {
      FoldTracks(d, fs);
      var s := Fold(d, fs);
      hide AlignUp, StructAlign, Fold, NaturalAlign;
      PadAlign(s.padded, s.cursor, AlignUp(s.cursor, Max(s.structAlign, d.forcedAlign)));
    }
  }

  /** Every placement at a multiple of the reported alignment honours a field's explicit
      alignment exactly when the forced alignment or, outside packed aggregates, some
      natural alignment is at least that large: the builder does not raise the reported
      alignment for an explicit field alignment. */
  lemma ExplicitAlignHonoured(d: Decl, fs: seq<Field>, k: nat)
    requires WellFormed(d, fs) && AlignedBySize(fs)
    requires k < |Ordinaries(fs)| && Ordinaries(fs)[k].name in d.aligns
    ensures var s := Materialise(d, fs); var a := d.aligns[Ordinaries(fs)[k].name];
      && k < |s.targets|
      && ((forall b: nat :: Aligned(b, ReportedAlign(d, s.padded)) ==> Aligned(b + s.targets[k], a))
          <==> a <= DeclaredAlign(d, fs))
  {
    hide AlignUp, Aligned, End, Materialise, Ordinaries, StructAlign, IsPow2, StructSize, DeclaredAlign;
    hide WellFormed, OrdinaryOffsets, PlacesSound, Widths, WidthsOf;
    LayoutSound(d, fs);
    ReportedIsDeclared(d, fs);
    var s := Materialise(d, fs);
    TargetExplicit(d, fs, k, s.targets);
    assert IsPow2(ReportedAlign(d, s.padded)) by { ReportedPow2(d, fs); }
    PlacementIff(s.targets[k], d.aligns[Ordinaries(fs)[k].name], ReportedAlign(d, s.padded));
  }

  /** struct { int8 a; [[align(16)]] int32 b; } has b at offset 16 of an aggregate that is
      reported with alignment 4, so an object placed at 4 has b at 20. */
  lemma ExplicitAlignLost()
    ensures var d := Decl(false, 0, map["b" := 16], None);
      var fs := [Field("a", Shape(1, 1), 0), Field("b", Shape(4, 4), 0)];
      var s := Materialise(d, fs);
      && WellFormed(d, fs) && s.targets == [0, 16] && ReportedAlign(d, s.padded) == 4
      && Aligned(4, ReportedAlign(d, s.padded)) && !Aligned(4 + s.targets[1], d.aligns["b"])
  {
    var d := Decl(false, 0, map["b" := 16], None);
    var a, b := Field("a", Shape(1, 1), 0), Field("b", Shape(4, 4), 0);
    assert [a, b][..1] == [a] && [a][..0] == [];
    assert Fold(d, [a]) == Step(d, Start(d), a);
    assert Fold(d, [a, b]) == Step(d, Step(d, Start(d), a), b);
    assert IsPow2(1) && IsPow2(2) && IsPow2(4) && IsPow2(8) && IsPow2(16);
    assert NaturalAlign(None, [a, b][..1]) == 1;
    ReportedIsDeclared(d, [a, b]);
  }

  lemma ReportedPow2(d: Decl, fs: seq<Field>)
    requires WellFormed(d, fs) && WellShaped(Materialise(d, fs).padded)
    ensures IsPow2(ReportedAlign(d, Materialise(d, fs).padded))
  {
    hide Materialise;
    StructAlignSound(d.packed, Materialise(d, fs).padded);
  }

  lemma TargetExplicit(d: Decl, fs: seq<Field>, k: nat, targets: seq<nat>)
    requires WellFormed(d, fs) && k < |Ordinaries(fs)| && Ordinaries(fs)[k].name in d.aligns
    requires k < |targets| && Aligned(targets[k], TargetAlign(d, Ordinaries(fs)[k]))
    ensures var a := d.aligns[Ordinaries(fs)[k].name]; IsPow2(a) && Aligned(targets[k], a)
  {
    var f := Ordinaries(fs)[k];
    OrdinaryWellFormed(d, fs, k);
    hide Ordinaries, Aligned;
    Pow2Aligned(d.aligns[f.name], TargetAlign(d, f));
    AlignedTrans(targets[k], TargetAlign(d, f), d.aligns[f.name]);
  }

  lemma {:induction false} OrdinaryWellFormed(d: Decl, fs: seq<Field>, k: nat)
    requires WellFormed(d, fs) && k < |Ordinaries(fs)|
    ensures IsPow2(Ordinaries(fs)[k].shape.align)
  {
    WellFormedSplit(d, fs);
    if k < |Ordinaries(fs[..|fs| - 1])| { OrdinaryWellFormed(d, fs[..|fs| - 1], k); }
  }

  lemma PlacementIff(v: nat, a: nat, r: nat)
    requires IsPow2(a) && IsPow2(r) && Aligned(v, a)
    ensures (forall b: nat :: Aligned(b, r) ==> Aligned(b + v, a)) <==> a <= r
  {
    if a <= r {
      Pow2Aligned(a, r);
      hide IsPow2;
      forall b: nat | Aligned(b, r) ensures Aligned(b + v, a) {
        AlignedTrans(b, r, a);
        AlignedSum(b, v, a);
      }
    } else {
      MultipleAligned(1, r);
      assert Aligned(r, r);
      NotAligned(v, a, r);
    }
  }

  lemma NotAligned(v: nat, a: nat, r: nat)
    requires Aligned(v, a) && 0 < r < a
    ensures !Aligned(r + v, a)
  {
    assert v + r == v / a * a + r;
    Arith.ModUnique(v + r, v / a, r, a);
  }

}
