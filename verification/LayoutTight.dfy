/** Nothing is further away than it has to be: fields, storage units and the end of the
    aggregate take the least offset that their alignment allows. */
module LayoutTight {
  import opened Layout
  import opened LayoutBuild
  import opened LayoutTheorem

  /** The first aligned offset from `start` on. */
  ghost predicate Least(x: nat, start: nat, a: nat) {
    start <= x && Aligned(x, a) && forall w :: start <= w && Aligned(w, a) ==> x <= w
  }

  lemma AlignUpIsLeast(v: nat, a: nat)
    requires a > 0
    ensures Least(AlignUp(v, a), v, a)
  {
    AlignUpSound(v, a);
    forall w: nat | v <= w && Aligned(w, a) ensures AlignUp(v, a) <= w { AlignUpLeast(v, a, w); }
  }

  /** The entries that the fields before i take up. */
  function Taken(d: Decl, fs: seq<Field>, i: nat): seq<Field>
    requires i <= |fs|
  {
    CloseRegion(Fold(d, fs[..i])).padded
  }

  function Ordinal(fs: seq<Field>, i: nat): nat
    requires i <= |fs|
  {
    if i == 0 then 0 else Ordinal(fs, i - 1) + if IsBitField(fs[i - 1]) then 0 else 1
  }

  // ---- what later steps keep ----

  lemma StepExtends(d: Decl, s: Build, f: Field)
    ensures s.padded <= Step(d, s, f).padded && s.targets <= Step(d, s, f).targets
  {
    hide AlignUp, RegionBytes, PadTo;
  }

  lemma {:induction false} FoldExtends(d: Decl, fs: seq<Field>, k: nat)
    requires k <= |fs|
    ensures Fold(d, fs[..k]).padded <= Materialise(d, fs).padded
      && Fold(d, fs[..k]).targets <= Materialise(d, fs).targets
    decreases |fs| - k
  {
    if k < |fs| {
      FoldPrefix(d, fs, k);
      StepExtends(d, Fold(d, fs[..k]), fs[k]);
      FoldExtends(d, fs, k + 1);
    } else {
      assert fs[..k] == fs;
    }
  }

  lemma {:induction false} TargetCount(d: Decl, fs: seq<Field>, i: nat)
    requires i <= |fs|
    ensures |Fold(d, fs[..i]).targets| == Ordinal(fs, i)
  {
    if i > 0 {
      TargetCount(d, fs, i - 1);
      FoldPrefix(d, fs, i - 1);
      hide AlignUp, RegionBytes, PadTo, Record;
    }
  }

  // ---- ordinary fields ----

  lemma PlacedLeast(packed: bool, fs: seq<Field>, a: nat, f: Field)
    requires WellShaped(fs) && IsPow2(f.shape.align) && IsPow2(a) && Alignment(packed, f) <= a
    ensures var off := AlignUp(End(packed, fs), a); var t := fs + PadTo(End(packed, fs), off);
      && Least(off, End(packed, fs), a) && |t| <= |fs| + 1
      && (t + [f])[|t|] == f && (t + [f])[..|fs|] == fs && Offset(packed, t + [f], |t|) == off
  {
    PutWalk(packed, fs, a, f);
    AlignUpIsLeast(End(packed, fs), a);
    hide AlignUp, End, Offset, IsPow2, Least;
  }

  lemma Prefix(packed: bool, some: seq<Field>, all: seq<Field>, q: nat, p: nat)
    requires some <= all && q < |some| && p <= |some|
    ensures Offset(packed, all, q) == Offset(packed, some, q) && all[q] == some[q] && all[..p] == some[..p]
  {
    assert all == some + all[|some|..];
    OffsetPrefix(packed, some, all[|some|..], q);
  }

  lemma OrdinaryStep(d: Decl, s: Build, f: Field)
    requires Sound(d, s) && WellFormed(d, [f]) && !IsBitField(f)
    ensures var c, t := CloseRegion(s), Step(d, s, f);
      && t.targets == s.targets + [t.targets[|s.targets|]]
      && Least(t.targets[|s.targets|], End(d.packed, c.padded), TargetAlign(d, f))
      && c.padded <= t.padded && |c.padded| < |t.padded| <= |c.padded| + 2 && t.padded[|t.padded| - 1] == f
      && Offset(d.packed, t.padded, |t.padded| - 1) == t.targets[|s.targets|]
  {
    assert [f][0] == f;
    CloseRegionSound(d, s);
    var c := CloseRegion(s);
    assert c.targets == s.targets;
    PlacedLeast(d.packed, c.padded, TargetAlign(d, f), f);
    hide AlignUp, End, Offset, IsPow2, Least, CloseRegion, PlacesSound, UnitSound, PendingSound, StructAlign;
  }

  /** An ordinary field is the first or, behind one padding entry, the second entry after those of
      the fields before it, at the least offset that its alignment allows. */
  lemma OrdinaryTight(d: Decl, fs: seq<Field>, i: nat)
    requires WellFormed(d, fs) && i < |fs| && !IsBitField(fs[i])
    ensures var m, taken := Materialise(d, fs), Taken(d, fs, i);
      && Ordinal(fs, i) < |m.targets| && taken <= m.padded
      && Least(m.targets[Ordinal(fs, i)], End(d.packed, taken), TargetAlign(d, fs[i]))
      && exists q :: |taken| <= q <= |taken| + 1 && q < |m.padded| && m.padded[q] == fs[i]
                     && Offset(d.packed, m.padded, q) == m.targets[Ordinal(fs, i)]
  {
    var s := Fold(d, fs[..i]);
    WellFormedPrefix(d, fs, i);
    hide *;
    FoldSound(d, fs[..i]);
    OrdinaryStep(d, s, fs[i]);
    FoldPrefix(d, fs, i);
    TargetCount(d, fs, i);
    FoldExtends(d, fs, i + 1);
    TakenIs(d, fs, i);
    var t, m := Step(d, s, fs[i]), Materialise(d, fs);
    Prefix(d.packed, t.padded, m.padded, |t.padded| - 1, |t.padded|);
  }

  lemma TakenIs(d: Decl, fs: seq<Field>, i: nat)
    requires i <= |fs|
    ensures Taken(d, fs, i) == CloseRegion(Fold(d, fs[..i])).padded
  {
  }

  // ---- storage units ----

  lemma UnitStep(d: Decl, s: Build, f: Field)
    requires Sound(d, s) && WellFormed(d, [f]) && !d.packed && NamedBits(f)
    ensures var t := Step(d, s, f);
      && f.name in t.places
      && (NeedsUnit(s, f) ==>
            && t.places[f.name].offset == 0 && |s.padded| <= t.places[f.name].unit <= |s.padded| + 1
            && t.places[f.name].unit < |t.padded| && s.padded <= t.padded
              && t.padded[t.places[f.name].unit].shape == f.shape
            && Least(Offset(false, t.padded, t.places[f.name].unit), End(false, s.padded), f.shape.align))
  {
    assert [f][0] == f;
    if NeedsUnit(s, f) {
      PlacedLeast(false, s.padded, f.shape.align, Field("", f.shape, 0));
      hide AlignUp, End, Offset, IsPow2, Least, PlacesSound, UnitSound, PendingSound, StructAlign;
    }
  }

  /** A bit-field that does not share the unit before it gets a unit of its type at the least
      offset that the type's alignment allows. */
  lemma UnitTight(d: Decl, fs: seq<Field>, i: nat)
    requires WellFormed(d, fs) && i < |fs| && NamedBits(fs[i]) && !d.packed
    requires NeedsUnit(Fold(d, fs[..i]), fs[i])
    requires forall j, k :: 0 <= j < k < |fs| && fs[j].name != "" ==> fs[j].name != fs[k].name
    ensures var m, before := Materialise(d, fs), Fold(d, fs[..i]).padded;
      && fs[i].name in m.places && before <= m.padded
      && var p := m.places[fs[i].name];
         && p.offset == 0 && |before| <= p.unit <= |before| + 1 && p.unit < |m.padded|
         && m.padded[p.unit].shape == fs[i].shape
         && Least(Offset(false, m.padded, p.unit), End(false, before), fs[i].shape.align)
  {
    var s := Fold(d, fs[..i]);
    WellFormedPrefix(d, fs, i);
    hide *;
    FoldSound(d, fs[..i]);
    UnitStep(d, s, fs[i]);
    FoldPrefix(d, fs, i);
    FoldExtends(d, fs, i);
    FoldExtends(d, fs, i + 1);
    KeptPlace(d, fs, i);
    var t, m := Step(d, s, fs[i]), Materialise(d, fs);
    Prefix(false, t.padded, m.padded, t.places[fs[i].name].unit, 0);
  }

  lemma KeptPlace(d: Decl, fs: seq<Field>, i: nat)
    requires WellFormed(d, fs) && i < |fs| && NamedBits(fs[i]) && !d.packed
    requires fs[i].name in Fold(d, fs[..i + 1]).places
    requires forall j, k :: 0 <= j < k < |fs| && fs[j].name != "" ==> fs[j].name != fs[k].name
    ensures fs[i].name in Materialise(d, fs).places
    ensures SameSpot(Materialise(d, fs).places[fs[i].name], Fold(d, fs[..i + 1]).places[fs[i].name])
  {
    WellFormedPrefix(d, fs, i);
    FoldSound(d, fs[..i]);
    FoldPrefix(d, fs, i);
    StepSound(d, Fold(d, fs[..i]), fs[i]);
    assert View(Fold(d, fs[..i + 1])) == Fold(d, fs[..i + 1]).places;
    hide WellFormed, View, Step, Sound, Fold, Materialise;
    FinalView(d, fs);
    FoldKeeps(d, fs, i + 1, fs[i].name);
  }

  // ---- the end ----

  /** The size is the least multiple of the final alignment that covers the entries. */
  lemma SizeTight(d: Decl, fs: seq<Field>)
    requires WellFormed(d, fs)
    ensures var m := Materialise(d, fs);
      && Taken(d, fs, |fs|) <= m.padded && |m.padded| <= |Taken(d, fs, |fs|)| + 1
      && Least(m.cursor, End(d.packed, Taken(d, fs, |fs|)), m.structAlign)
  {
    assert fs[..|fs|] == fs;
    FoldSound(d, fs);
    var s := Fold(d, fs);
    CloseRegionSound(d, s);
    hide Fold, WellFormed, PlacesSound, UnitSound, PendingSound;
    var c := CloseRegion(s);
    AlignPositive(c.structAlign);
    AlignUpIsLeast(c.cursor, Max(c.structAlign, d.forcedAlign));
    hide CloseRegion, AlignUp, Least, StructAlign, IsPow2, End;
  }

  lemma AlignPositive(a: nat)
    requires IsPow2(a)
    ensures a > 0
  {
  }
}
