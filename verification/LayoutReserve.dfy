/** Every bit-field of a run takes its declared width, whether it has a name or not. */
module LayoutReserve {
  import opened Layout
  import opened LayoutBuild
  import opened LayoutTheorem

  /** The declared widths of the fields from i up to k, together. */
  function BitSum(fs: seq<Field>, i: nat, k: nat): nat
    requires i <= k <= |fs|
  {
    if i == k then 0 else BitSum(fs, i, k - 1) + fs[k - 1].bits
  }

  predicate OneSize(fs: seq<Field>, i: nat, k: nat)
    requires i < k <= |fs|
  {
    forall m :: i <= m < k ==> fs[m].shape.size == fs[i].shape.size
  }

  /** A run of bit-fields, none of zero width. */
  predicate BitRun(fs: seq<Field>, i: nat, k: nat)
    requires i <= k <= |fs|
  {
    forall m :: i <= m < k ==> fs[m].bits != 0
  }

  /** Do the fields from i up to k fit behind `at` bits of one unit? */
  predicate Together(fs: seq<Field>, i: nat, k: nat, at: nat)
    requires i < k <= |fs|
  {
    OneSize(fs, i, k) && at + BitSum(fs, i, k) <= 8 * fs[i].shape.size
  }

  // ---- unpacked: units ----

  /** While the run fits, the unit of field i is open and used up to the end of the run so far;
      after that a later one is open. */
  ghost predicate UnitRun(s: Build, fs: seq<Field>, i: nat, k: nat, unit: nat, at: nat)
    requires i < k <= |fs|
  {
    && s.unitBytes == fs[k - 1].shape.size > 0 && s.bitUsed >= fs[k - 1].bits
    && if Together(fs, i, k, at) then s.unitIndex == unit && s.bitUsed == at + BitSum(fs, i, k)
       else s.unitIndex > unit
  }

  lemma UnitRunStarts(s: Build, fs: seq<Field>, i: nat)
    requires i < |fs| && fs[i].bits != 0 && 0 < fs[i].shape.size && fs[i].bits <= 8 * fs[i].shape.size
    ensures var t := UnitBits(s, fs[i]); var at := t.bitUsed - fs[i].bits;
      at >= 0 && Together(fs, i, i + 1, at) && UnitRun(t, fs, i, i + 1, t.unitIndex, at)
    ensures fs[i].name != "" ==>
      var t := UnitBits(s, fs[i]);
      && fs[i].name in t.places
      && t.places[fs[i].name].unit == t.unitIndex && t.places[fs[i].name].offset == t.bitUsed - fs[i].bits
  {
    hide AlignUp, PadTo;
    assert BitSum(fs, i, i + 1) == BitSum(fs, i, i) + fs[i].bits;
  }

  lemma UnitRunGrows(s: Build, fs: seq<Field>, i: nat, k: nat, unit: nat, at: nat)
    requires i < k < |fs| && UnitRun(s, fs, i, k, unit, at) && UnitSound(s)
    requires fs[k].bits != 0 && 0 < fs[k].shape.size && fs[k].bits <= 8 * fs[k].shape.size
    ensures UnitRun(UnitBits(s, fs[k]), fs, i, k + 1, unit, at)
  {
    hide AlignUp, PadTo;
    assert BitSum(fs, i, k + 1) == BitSum(fs, i, k) + fs[k].bits;
    assert OneSize(fs, i, k + 1) <==> OneSize(fs, i, k) && fs[k].shape.size == fs[i].shape.size;
    assert OneSize(fs, i, k) ==> fs[k - 1].shape.size == fs[i].shape.size;
  }

  // ---- packed: one region ----

  ghost predicate RegionRun(s: Build, fs: seq<Field>, i: nat, k: nat, unit: nat, at: nat)
    requires i < k <= |fs|
  {
    s.region && |s.padded| == unit && s.regionBits == at + BitSum(fs, i, k)
  }

  lemma RegionRunStarts(s: Build, fs: seq<Field>, i: nat)
    requires i < |fs| && fs[i].bits != 0
    ensures var t := PackedBits(s, fs[i]); var at := t.regionBits - fs[i].bits;
      at >= 0 && RegionRun(t, fs, i, i + 1, |t.padded|, at)
    ensures fs[i].name != "" ==>
      var t := PackedBits(s, fs[i]);
      && fs[i].name in View(t)
      && View(t)[fs[i].name].unit == |t.padded| && View(t)[fs[i].name].offset == t.regionBits - fs[i].bits
  {
    assert BitSum(fs, i, i + 1) == BitSum(fs, i, i) + fs[i].bits;
  }

  lemma RegionRunGrows(s: Build, fs: seq<Field>, i: nat, k: nat, unit: nat, at: nat)
    requires i < k < |fs| && RegionRun(s, fs, i, k, unit, at) && fs[k].bits != 0
    ensures RegionRun(PackedBits(s, fs[k]), fs, i, k + 1, unit, at)
  {
    assert BitSum(fs, i, k + 1) == BitSum(fs, i, k) + fs[k].bits;
  }

  // ---- both ----

  ghost predicate Running(d: Decl, s: Build, fs: seq<Field>, i: nat, k: nat, unit: nat, at: nat)
    requires i < k <= |fs|
  {
    if d.packed then RegionRun(s, fs, i, k, unit, at) else UnitRun(s, fs, i, k, unit, at) && !s.region
  }

  /** Where the field the run has just taken in lies. */
  lemma JustPlaced(d: Decl, s: Build, fs: seq<Field>, k: nat)
    requires Sound(d, s) && k < |fs| && NamedBits(fs[k]) && WellFormed(d, [fs[k]])
    ensures var t := Step(d, s, fs[k]); var p := View(t)[fs[k].name];
      && fs[k].name in View(t)
      && Running(d, t, fs, k, k + 1, p.unit, p.offset) && (!d.packed ==> Together(fs, k, k + 1, p.offset))
  {
    assert [fs[k]][0] == fs[k];
    if d.packed {
      RegionRunStarts(s, fs, k);
    } else {
      hide View;
      UnitRunStarts(s, fs, k);
      hide UnitBits;
      ViewIsPlaces(Step(d, s, fs[k]));
    }
  }

  lemma ViewIsPlaces(s: Build)
    requires !s.region
    ensures View(s) == s.places
  {
  }

  lemma RunGrows(d: Decl, s: Build, fs: seq<Field>, i: nat, k: nat, unit: nat, at: nat)
    requires i < k < |fs| && Running(d, s, fs, i, k, unit, at) && Sound(d, s)
    requires fs[k].bits != 0 && WellFormed(d, [fs[k]])
    ensures Running(d, Step(d, s, fs[k]), fs, i, k + 1, unit, at)
  {
    assert [fs[k]][0] == fs[k];
    if d.packed { RegionRunGrows(s, fs, i, k, unit, at); } else { UnitRunGrows(s, fs, i, k, unit, at); }
  }

  lemma RunShorter(fs: seq<Field>, i: nat, k: nat)
    requires i < k <= |fs| && BitRun(fs, i, k)
    ensures BitRun(fs, i, k - 1) && fs[k - 1].bits != 0
  {
  }

  lemma {:induction false} RunHolds(d: Decl, fs: seq<Field>, i: nat, k: nat, unit: nat, at: nat)
    requires WellFormed(d, fs) && i < k <= |fs| && BitRun(fs, i, k)
    requires Running(d, Fold(d, fs[..i + 1]), fs, i, i + 1, unit, at)
    ensures Running(d, Fold(d, fs[..k]), fs, i, k, unit, at)
  {
    hide *;
    if k > i + 1 {
      RunShorter(fs, i, k);
      WellFormedPrefix(d, fs, k - 1);
      RunHolds(d, fs, i, k - 1, unit, at);
      FoldPrefix(d, fs, k - 1);
      FoldSound(d, fs[..k - 1]);
      RunGrows(d, Fold(d, fs[..k - 1]), fs, i, k - 1, unit, at);
    }
  }

  /** Two runs that end in the same place. */
  lemma SameEnd(d: Decl, s: Build, fs: seq<Field>, i: nat, j: nat, p: Place, q: Place)
    requires i < j < |fs| && Running(d, s, fs, i, j + 1, p.unit, p.offset)
    requires Running(d, s, fs, j, j + 1, q.unit, q.offset) && (!d.packed ==> Together(fs, j, j + 1, q.offset))
    ensures BitSum(fs, i, j + 1) == BitSum(fs, i, j) + fs[j].bits
    ensures Reserved(d, fs, i, j, p, q)
  {
    assert BitSum(fs, j, j + 1) == BitSum(fs, j, j) + fs[j].bits;
  }

  /** Field j of a run lies behind field i and all that is between them, in the same unit,
      exactly when the layout is packed, or all are of one size and fit together. */
  predicate Reserved(d: Decl, fs: seq<Field>, i: nat, j: nat, p: Place, q: Place)
    requires i < j < |fs|
  {
    if d.packed || Together(fs, i, j + 1, p.offset)
    then q.unit == p.unit && q.offset == p.offset + BitSum(fs, i, j)
    else q.unit > p.unit
  }

  /** Bit-fields in a row, named or not, take up their declared widths. */
  lemma ReserveRule(d: Decl, fs: seq<Field>, i: nat, j: nat)
    requires WellFormed(d, fs) && i < j < |fs| && BitRun(fs, i, j + 1) && fs[i].name != "" && fs[j].name != ""
    requires forall m, k :: 0 <= m < k < |fs| && fs[m].name != "" ==> fs[m].name != fs[k].name
    ensures var places := Materialise(d, fs).places;
      && fs[i].name in places && fs[j].name in places
      && Reserved(d, fs, i, j, places[fs[i].name], places[fs[j].name])
  {
    hide *;
    var f, g := fs[i], fs[j];
    NonZero(fs, i, j + 1);
    PlacedInFold(d, fs, i);
    PlacedInFold(d, fs, j);
    var p, q := View(Fold(d, fs[..i + 1]))[f.name], View(Fold(d, fs[..j + 1]))[g.name];
    RunHolds(d, fs, i, j + 1, p.unit, p.offset);
    SameEnd(d, Fold(d, fs[..j + 1]), fs, i, j, p, q);
    FinalView(d, fs);
    FoldKeeps(d, fs, i + 1, f.name);
    FoldKeeps(d, fs, j + 1, g.name);
    SpotsReserved(d, fs, i, j, p, q, View(Fold(d, fs))[f.name], View(Fold(d, fs))[g.name]);
  }

  lemma NonZero(fs: seq<Field>, i: nat, k: nat)
    requires i < k <= |fs| && BitRun(fs, i, k)
    ensures fs[i].bits != 0 && fs[k - 1].bits != 0
  {
  }

  lemma SpotsReserved(d: Decl, fs: seq<Field>, i: nat, j: nat, p: Place, q: Place, p1: Place, q1: Place)
    requires i < j < |fs| && Reserved(d, fs, i, j, p, q) && SameSpot(p1, p) && SameSpot(q1, q)
    ensures Reserved(d, fs, i, j, p1, q1)
  {
  }

  lemma PlacedInFold(d: Decl, fs: seq<Field>, k: nat)
    requires WellFormed(d, fs) && k < |fs| && fs[k].bits != 0 && fs[k].name != ""
    ensures var t := Fold(d, fs[..k + 1]);
      && fs[k].name in View(t)
      && var p := View(t)[fs[k].name];
        Running(d, t, fs, k, k + 1, p.unit, p.offset) && (!d.packed ==> Together(fs, k, k + 1, p.offset))
  {
    WellFormedPrefix(d, fs, k);
    hide WellFormed, View, Step, Sound, Running, Together;
    FoldPrefix(d, fs, k);
    FoldSound(d, fs[..k]);
    JustPlaced(d, Fold(d, fs[..k]), fs, k);
  }

  // ---- behind a zero width ----

  lemma AfterZero(d: Decl, s: Build, z: Field, g: Field)
    requires Sound(d, s) && z.bits == 0 && z.name == "" && NamedBits(g) && z.shape.size > 0
    ensures var t := Step(d, Step(d, s, z), g);
      && g.name in View(t)
      && if d.packed then View(t)[g.name].offset % (8 * z.shape.size) == 0 else View(t)[g.name].offset == 0
  {
    if d.packed {
      var u := PackedBits(s, z);
      AlignUpSound(if s.region then s.regionBits else 0, 8 * z.shape.size);
      hide AlignUp;
      assert PackedBits(u, g).pending == u.pending + [Pending(g.name, u.regionBits, g.bits)];
    } else {
      hide AlignUp, PadTo;
    }
  }

  /** Whatever comes before it, a zero-width field lets the next bit-field start a unit, or in a
      packed layout at a multiple of the size of its type. */
  lemma ZeroStartsAfresh(d: Decl, fs: seq<Field>, i: nat)
    requires WellFormed(d, fs) && i + 1 < |fs| && fs[i].bits == 0 && fs[i].name == "" && NamedBits(fs[i + 1])
    requires forall j, k :: 0 <= j < k < |fs| && fs[j].name != "" ==> fs[j].name != fs[k].name
    ensures var places := Materialise(d, fs).places;
      && fs[i + 1].name in places
      && if d.packed then places[fs[i + 1].name].offset % (8 * fs[i].shape.size) == 0
         else places[fs[i + 1].name].offset == 0
  {
    WellFormedPrefix(d, fs, i);
    assert [fs[i]][0] == fs[i] && IsBitField(fs[i]);
    hide WellFormed, View, Step, Sound, Fold, Materialise;
    FoldPrefix(d, fs, i);
    FoldPrefix(d, fs, i + 1);
    FoldSound(d, fs[..i]);
    AfterZero(d, Fold(d, fs[..i]), fs[i], fs[i + 1]);
    FinalView(d, fs);
    FoldKeeps(d, fs, i + 2, fs[i + 1].name);
  }
}
