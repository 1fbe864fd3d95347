/** How wide the storage unit of a bit-field is, from the declaration alone, and when the
    constant builder can widen the field's values to it. */
module PackedUnits {
  import opened Options
  import opened BitInt
  import opened Layout
  import opened LayoutBuild
  import opened LayoutTheorem
  import C = ConstantUnits

  ghost predicate DistinctNames(fs: seq<Field>) {
    forall j, k :: 0 <= j < k < |fs| && fs[j].name != "" ==> fs[j].name != fs[k].name
  }

  // ---- runs of adjacent bit-fields ----

  function RunStart(fs: seq<Field>): (k: nat)
    ensures k <= |fs|
  {
    if fs == [] || !IsBitField(fs[|fs| - 1]) then |fs| else RunStart(fs[..|fs| - 1])
  }

  function RunEnd(fs: seq<Field>, i: nat): (e: nat)
    requires i <= |fs|
    ensures i <= e <= |fs|
    ensures forall k :: i <= k < e ==> IsBitField(fs[k])
    ensures e < |fs| ==> !IsBitField(fs[e])
    decreases |fs| - i
  {
    if i == |fs| || !IsBitField(fs[i]) then i else RunEnd(fs, i + 1)
  }

  /** The run of adjacent bit-fields that field i belongs to. */
  function RunOf(fs: seq<Field>, i: nat): seq<Field>
    requires i < |fs|
  {
    var e := RunEnd(fs, i);
    fs[..e][RunStart(fs[..e])..]
  }

  /** The bits a run takes; a zero-width field rounds up to its type. */
  function Extent(run: seq<Field>): nat {
    if run == [] then 0
    else
      var before, f := Extent(run[..|run| - 1]), run[|run| - 1];
      if f.bits == 0 then AlignUp(before, 8 * f.shape.size) else before + f.bits
  }

  /** Outside a packed aggregate the unit is an object of the field's type; inside, it is the
      whole run, rounded up to bytes. */
  function UnitBytes(d: Decl, fs: seq<Field>, i: nat): nat
    requires i < |fs|
  {
    if d.packed then RegionBytes(Extent(RunOf(fs, i))) else fs[i].shape.size
  }

  predicate WideEnough(d: Decl, fs: seq<Field>, i: nat)
    requires i < |fs|
  {
    !d.packed || RegionBytes(Extent(RunOf(fs, i))) >= fs[i].shape.size
  }

  // ---- the builder keeps to it ----

  /** In a packed aggregate the open region is the run the list of fields ends with. */
  lemma {:induction false} RegionIsRun(d: Decl, fs: seq<Field>)
    requires d.packed
    ensures var s := Fold(d, fs);
      && (s.region <==> RunStart(fs) < |fs|) && (!s.region ==> s.pending == [])
      && (s.region ==> s.regionBits == Extent(fs[RunStart(fs)..]))
  {
    if fs != [] {
      var init, f := fs[..|fs| - 1], fs[|fs| - 1];
      RegionIsRun(d, init);
      if IsBitField(f) {
        assert fs[RunStart(fs)..][..|fs| - RunStart(fs) - 1] == init[RunStart(init)..];
      }
    }
  }

  predicate Waits(pending: seq<Pending>, n: string) {
    exists k :: 0 <= k < |pending| && pending[k].name == n
  }

  lemma {:induction false} RecordUnit(places: map<string, Place>, pending: seq<Pending>, unit: nat, bits: nat,
      n: string)
    ensures var r := Record(places, pending, unit, bits);
      && (Waits(pending, n) ==> n in r && r[n].unitBits == bits)
      && (!Waits(pending, n) && n in places ==> n in r && r[n] == places[n])
  {
    if pending != [] {
      var init := pending[..|pending| - 1];
      RecordUnit(places, init, unit, bits, n);
      assert Waits(pending, n) <==> Waits(init, n) || pending[|pending| - 1].name == n by {
        if Waits(init, n) {
          var k :| 0 <= k < |init| && init[k].name == n;
          assert pending[k].name == n;
        }
        if Waits(pending, n) && pending[|pending| - 1].name != n {
          var k :| 0 <= k < |pending| && pending[k].name == n;
          assert init[k].name == n;
        }
      }
    }
  }

  lemma WaitsMore(pending: seq<Pending>, p: Pending, n: string)
    ensures Waits(pending + [p], n) <==> Waits(pending, n) || p.name == n
  {
    if Waits(pending, n) {
      var k :| 0 <= k < |pending| && pending[k].name == n;
      assert (pending + [p])[k].name == n;
    }
    if p.name == n { assert (pending + [p])[|pending|].name == n; }
  }

  lemma PackedStep(s: Build, f: Field, n: string)
    requires n != "" && (!s.region ==> s.pending == [])
    ensures var t := PackedBits(s, f);
      && t.region && t.places == s.places
      && (Waits(t.pending, n) <==> Waits(s.pending, n) || (f.bits != 0 && f.name == n))
  {
    if f.bits != 0 && f.name != "" {
      WaitsMore(s.pending, Pending(f.name, if s.region then s.regionBits else 0, f.bits), n);
    }
  }

  lemma FoldNext(d: Decl, fs: seq<Field>, m: nat)
    requires 0 < m <= |fs|
    ensures Fold(d, fs[..m]) == Step(d, Fold(d, fs[..m - 1]), fs[m - 1])
  {
    assert fs[..m][..m - 1] == fs[..m - 1];
  }

  /** After m fields, field i waits in the open region, or the region has been closed and
      its place has the width of the run. */
  ghost predicate Housed(s: Build, fs: seq<Field>, i: nat, m: nat)
    requires i < |fs|
  {
    if m <= RunEnd(fs, i) then s.region && Waits(s.pending, fs[i].name)
    else
      && !Waits(s.pending, fs[i].name) && fs[i].name in s.places
      && s.places[fs[i].name].unitBits == 8 * RegionBytes(Extent(RunOf(fs, i)))
  }

  /** Closing the region gives every waiting name a place of the region's width. */
  lemma ClosedPlaces(d: Decl, s: Build, f: Field, n: string)
    requires !IsBitField(f) && (!s.region ==> s.pending == [])
    ensures var t := Step(d, s, f);
      && t.pending == []
      && (Waits(s.pending, n) ==> n in t.places && t.places[n].unitBits == 8 * RegionBytes(s.regionBits))
      && (!Waits(s.pending, n) && n in s.places ==> n in t.places && t.places[n] == s.places[n])
  {
    hide AlignUp, Record, RegionBytes, PadTo, TargetAlign;
    RecordUnit(s.places, s.pending, |s.padded|, 8 * RegionBytes(s.regionBits), n);
  }

  lemma HousedNext(d: Decl, s: Build, fs: seq<Field>, i: nat, m: nat)
    requires d.packed && DistinctNames(fs) && i < m < |fs| && NamedBits(fs[i]) && Housed(s, fs, i, m)
    requires !s.region ==> s.pending == []
    requires m == RunEnd(fs, i) ==> s.regionBits == Extent(RunOf(fs, i))
    ensures Housed(Step(d, s, fs[m]), fs, i, m + 1)
  {
    var f, n := fs[m], fs[i].name;
    if IsBitField(f) {
      PackedStep(s, f, n);
    } else {
      hide RunOf, Extent, RunEnd, Step;
      ClosedPlaces(d, s, f, n);
    }
  }

  lemma {:induction false} PackedHoused(d: Decl, fs: seq<Field>, i: nat, m: nat)
    requires d.packed && DistinctNames(fs) && i < m <= |fs| && NamedBits(fs[i])
    ensures Housed(Fold(d, fs[..m]), fs, i, m)
    decreases m
  {
    hide *;
    FoldNext(d, fs, m);
    RegionAt(d, fs, i, m - 1);
    if i < m - 1 {
      PackedHoused(d, fs, i, m - 1);
      HousedNext(d, Fold(d, fs[..m - 1]), fs, i, m - 1);
    } else {
      HousedFirst(d, Fold(d, fs[..i]), fs, i);
    }
  }

  lemma HousedFirst(d: Decl, s: Build, fs: seq<Field>, i: nat)
    requires d.packed && i < |fs| && NamedBits(fs[i]) && (!s.region ==> s.pending == [])
    ensures Housed(Step(d, s, fs[i]), fs, i, i + 1)
  {
    RunIsOpen(fs, i);
    hide RunOf, RunEnd, Extent, RunStart;
    PackedStep(s, fs[i], fs[i].name);
  }

  lemma RegionAt(d: Decl, fs: seq<Field>, i: nat, m: nat)
    requires d.packed && i <= m <= |fs| && i < |fs| && NamedBits(fs[i])
    ensures var s := Fold(d, fs[..m]);
      && (!s.region ==> s.pending == []) && (m == RunEnd(fs, i) ==> s.regionBits == Extent(RunOf(fs, i)))
  {
    RegionIsRun(d, fs[..m]);
    RunIsOpen(fs, i);
  }

  lemma RunIsOpen(fs: seq<Field>, i: nat)
    requires i < |fs| && IsBitField(fs[i])
    ensures var e := RunEnd(fs, i);
      i < e && RunOf(fs, i) == fs[..e][RunStart(fs[..e])..] && RunStart(fs[..e]) < e
  {
  }

  lemma {:induction false} UnitHoused(d: Decl, fs: seq<Field>, i: nat, m: nat)
    requires !d.packed && DistinctNames(fs) && i < m <= |fs| && NamedBits(fs[i])
    ensures var s := Fold(d, fs[..m]);
      fs[i].name in s.places && s.places[fs[i].name].unitBits == 8 * fs[i].shape.size
    decreases m
  {
    FoldNext(d, fs, m);
    NoRegion(d, fs[..m - 1]);
    hide Fold, AlignUp, PadTo;
    if i < m - 1 { UnitHoused(d, fs, i, m - 1); }
  }

  lemma {:induction false} NoRegion(d: Decl, fs: seq<Field>)
    requires !d.packed
    ensures !Fold(d, fs).region
  {
    if fs != [] { NoRegion(d, fs[..|fs| - 1]); }
  }

  /** The unit of every named bit-field is as wide as the declaration says. */
  lemma UnitIs(d: Decl, fs: seq<Field>, i: nat)
    requires DistinctNames(fs) && i < |fs| && NamedBits(fs[i])
    ensures var places := Materialise(d, fs).places;
      fs[i].name in places && places[fs[i].name].unitBits == 8 * UnitBytes(d, fs, i)
  {
    var s := Fold(d, fs);
    assert fs[..|fs|] == fs;
    if d.packed {
      PackedHoused(d, fs, i, |fs|);
      RegionIsRun(d, fs);
      RunIsOpen(fs, i);
      hide Fold, Extent, RunEnd, RunStart, Record, AlignUp;
      RecordUnit(s.places, s.pending, |s.padded|, 8 * RegionBytes(s.regionBits), fs[i].name);
    } else {
      UnitHoused(d, fs, i, |fs|);
      NoRegion(d, fs);
      hide Fold, AlignUp;
    }
  }

  /** The unit is at least as wide as the field's type exactly outside packed aggregates and
      in runs whose extent, rounded up to bytes, is at least the size of the type. */
  lemma UnitWideEnough(d: Decl, fs: seq<Field>, i: nat)
    requires DistinctNames(fs) && i < |fs| && NamedBits(fs[i])
    ensures var places := Materialise(d, fs).places;
      fs[i].name in places && (places[fs[i].name].unitBits >= 8 * fs[i].shape.size <==> WideEnough(d, fs, i))
  {
    UnitIs(d, fs, i);
  }

  // ---- constants of a unit ----

  /** The initialisers of some bit-fields of one unit, as the constant builder sees them. */
  function Inits(d: Decl, fs: seq<Field>, members: seq<nat>, values: seq<Bits>): (r: seq<C.Init>)
    requires |members| == |values|
    requires forall k :: 0 <= k < |members| ==> members[k] < |fs| && fs[members[k]].name in Materialise(d, fs).places
    ensures |r| == |members|
  {
    var places := Materialise(d, fs).places;
    seq(|members|, k requires 0 <= k < |members| =>
      C.Init(places[fs[members[k]].name].offset, places[fs[members[k]].name].width, values[k]))
  }

  /** A value of the field's type; a bool is stored in a byte but is one bit wide. */
  predicate OfType(value: Bits, f: Field) {
    |value| == 8 * f.shape.size || (|value| == 1 && f.shape.size == 1)
  }

  ghost predicate InOneUnit(d: Decl, fs: seq<Field>, members: seq<nat>, values: seq<Bits>, unit: nat) {
    && |members| == |values|
    && (forall k :: 0 <= k < |members| ==>
          && members[k] < |fs| && NamedBits(fs[members[k]]) && OfType(values[k], fs[members[k]])
          && fs[members[k]].name in Materialise(d, fs).places
          && Materialise(d, fs).places[fs[members[k]].name].unit == unit)
    && (forall j, k :: 0 <= j < k < |members| ==> members[j] != members[k])
  }

  /** Constants and run-time stores agree on every unit of every declared aggregate, if all
      members initialised there are wide enough; if one is not, the constant builder fails. */
  lemma ConstantOfUnit(d: Decl, fs: seq<Field>, members: seq<nat>, values: seq<Bits>, unit: nat)
    requires WellFormed(d, fs) && DistinctNames(fs) && InOneUnit(d, fs, members, values, unit)
    ensures unit < |Materialise(d, fs).padded| || members == []
    ensures members != [] ==>
      var bits := 8 * Materialise(d, fs).padded[unit].shape.size;
      var inits := Inits(d, fs, members, values);
      && C.Separate(bits, inits)
      && C.Constant(bits, inits) ==
           if forall k :: 0 <= k < |members| ==> WideEnough(d, fs, members[k])
           then Some(C.Stored(bits, inits)) else None
  {
    LayoutSound(d, fs);
    var m := Materialise(d, fs);
    if members != [] {
      assert fs[members[0]].name in m.places;
      hide Materialise, WideEnough, LayoutTheorem.Widths, WidthsOf, Ordinaries, OrdinaryOffsets, WellShaped, Aligned,
          IsPow2;
      var bits := 8 * m.padded[unit].shape.size;
      var inits := Inits(d, fs, members, values);
      MembersSeparate(d, fs, members, values, unit, bits);
      forall k | 0 <= k < |members| ensures |inits[k].value| <= bits <==> WideEnough(d, fs, members[k]) {
        UnitWideEnough(d, fs, members[k]);
        UnitIs(d, fs, members[k]);
        assert m.places[fs[members[k]].name].unitBits == bits;
      }
      C.ConstantIsStored(bits, inits);
      assert C.NoneWider(bits, inits) <==> forall k :: 0 <= k < |members| ==> WideEnough(d, fs, members[k]);
    }
  }

  lemma MembersSeparate(d: Decl, fs: seq<Field>, members: seq<nat>, values: seq<Bits>, unit: nat, bits: nat)
    requires DistinctNames(fs) && InOneUnit(d, fs, members, values, unit)
      && PlacesSound(Materialise(d, fs).padded, Materialise(d, fs).places)
    requires unit < |Materialise(d, fs).padded| && bits == 8 * Materialise(d, fs).padded[unit].shape.size
    ensures C.Separate(bits, Inits(d, fs, members, values))
  {
    hide Materialise;
    forall j, k | 0 <= j < k < |members| ensures fs[members[j]].name != fs[members[k]].name {
    }
  }

  /** [[packed]] struct { int32 a : 3; int32 b : 3; } has one unit of eight bits, and no
      constant can be built for a value of a, which is 32 bits wide. */
  lemma NarrowUnit(value: Bits)
    requires |value| == 32
    ensures var d := Decl(true, 0, map[], None);
      var fs := [Field("a", Shape(4, 4), 3), Field("b", Shape(4, 4), 3)];
      && WellFormed(d, fs) && !WideEnough(d, fs, 0)
      && "a" in Materialise(d, fs).places && Materialise(d, fs).places["a"].unitBits == 8
      && C.Constant(8, [C.Init(0, 3, value)]) == None
  {
    var d := Decl(true, 0, map[], None);
    var a, b := Field("a", Shape(4, 4), 3), Field("b", Shape(4, 4), 3);
    assert IsPow2(4) by { assert IsPow2(2); }
    NarrowRun(a, b);
    hide IsPow2, Extent, RunOf, Materialise, AlignUp;
    UnitIs(d, [a, b], 0);
    C.ConstantIsStored(8, [C.Init(0, 3, value)]);
    assert [C.Init(0, 3, value)][0].value == value;
  }

  lemma NarrowRun(a: Field, b: Field)
    requires a.bits == 3 && b.bits == 3
    ensures RegionBytes(Extent(RunOf([a, b], 0))) == 1
  {
    var fs := [a, b];
    assert RunEnd(fs, 2) == 2 && RunEnd(fs, 1) == 2 && RunEnd(fs, 0) == 2;
    assert fs[..2] == fs && fs[..1] == [a] && [a][..0] == [];
    assert RunStart([a]) == 0 && RunStart(fs) == 0;
    assert Extent([a]) == 3 && Extent(fs) == 6;
    assert RunOf(fs, 0) == fs;
  }
}
