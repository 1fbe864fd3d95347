/** An aggregate in memory, accessed through its layout, behaves like a record of
    independent named cells. */
module Record {
  import opened BitInt
  import opened Layout
  import opened LayoutBuild
  import LayoutTheorem
  import BitField

  /** The physical list and the bit-field table of an aggregate. */
  datatype Rec = Rec(packed: bool, padded: seq<Field>, places: map<string, Place>)

  ghost predicate Sound(r: Rec) {
    WellShaped(r.padded) && PlacesSound(r.padded, r.places)
  }

  /** The index of the last entry with the given name; the list's length if there is none. */
  function Index(fs: seq<Field>, name: string): (i: nat)
    ensures i <= |fs| && (i < |fs| ==> fs[i].name == name)
    ensures i == |fs| ==> forall k :: 0 <= k < |fs| ==> fs[k].name != name
  {
    if fs == [] then 0
    else if fs[|fs| - 1].name == name then |fs| - 1
    else
      var i := Index(fs[..|fs| - 1], name);
      if i == |fs| - 1 then |fs| else i
  }

  predicate HasField(r: Rec, n: string) {
    n != "" && (n in r.places || Index(r.padded, n) < |r.padded|)
  }

  /** Where the named field's bits are within the object, and how many there are. */
  datatype Range = Range(at: nat, len: nat)

  function RangeOf(r: Rec, n: string): Range
    requires Sound(r) && HasField(r, n)
  {
    if n in r.places then
      var p := r.places[n];
      Range(8 * Offset(r.packed, r.padded, p.unit) + p.offset, p.width)
    else
      var i := Index(r.padded, n);
      Range(8 * Offset(r.packed, r.padded, i), 8 * r.padded[i].shape.size)
  }

  function Size(r: Rec): nat {
    8 * End(r.packed, r.padded)
  }

  lemma EntryInBounds(r: Rec, i: nat)
    requires Sound(r) && i < |r.padded|
    ensures 8 * Offset(r.packed, r.padded, i) + 8 * r.padded[i].shape.size <= Size(r)
  {
    WalkOrdered(r.packed, r.padded, i);
  }

  lemma EntriesApart(r: Rec, i: nat, j: nat)
    requires Sound(r) && i < j < |r.padded|
    ensures Offset(r.packed, r.padded, i) + r.padded[i].shape.size <= Offset(r.packed, r.padded, j)
  {
    WalkOrdered(r.packed, r.padded, i);
  }

  lemma RangeInBounds(r: Rec, n: string)
    requires Sound(r) && HasField(r, n)
    ensures RangeOf(r, n).at + RangeOf(r, n).len <= Size(r)
  {
    EntryInBounds(r, if n in r.places then r.places[n].unit else Index(r.padded, n));
  }

  /** Fields of different names share no bit of the object. */
  lemma RangesApart(r: Rec, m: string, n: string)
    requires Sound(r) && HasField(r, m) && HasField(r, n) && m != n
    ensures var a, b := RangeOf(r, m), RangeOf(r, n); a.at + a.len <= b.at || b.at + b.len <= a.at
  {
    var i := if m in r.places then r.places[m].unit else Index(r.padded, m);
    var j := if n in r.places then r.places[n].unit else Index(r.padded, n);
    hide Offset, End, IsPow2;
    if i < j { EntriesApart(r, i, j); }
    if j < i { EntriesApart(r, j, i); }
  }

  // ---- the accesses ----

  function StoreField(r: Rec, mem: Bits, n: string, value: Bits): (t: Bits)
    requires Sound(r) && HasField(r, n) && |mem| == Size(r)
    ensures |t| == |mem|
  {
    if n in r.places then
      var p := r.places[n];
      EntryInBounds(r, p.unit);
      BitField.StoreIn(mem, 8 * Offset(r.packed, r.padded, p.unit), p.unitBits, p.offset, p.width, value)
    else
      var i := Index(r.padded, n);
      EntryInBounds(r, i);
      Splice(mem, 8 * Offset(r.packed, r.padded, i), Fit(value, 8 * r.padded[i].shape.size))
  }

  function LoadBitField(r: Rec, mem: Bits, n: string, kind: BitField.Kind, baseBits: nat): Bits
    requires Sound(r) && n in r.places && |mem| == Size(r) && 0 < r.places[n].width <= baseBits
  {
    var p := r.places[n];
    EntryInBounds(r, p.unit);
    BitField.LoadIn(mem, 8 * Offset(r.packed, r.padded, p.unit), p.unitBits, p.offset, p.width, kind, baseBits)
  }

  function Contents(r: Rec, mem: Bits, n: string): (c: Bits)
    requires Sound(r) && HasField(r, n) && |mem| == Size(r)
    ensures |c| == RangeOf(r, n).len
  {
    RangeInBounds(r, n);
    mem[RangeOf(r, n).at..RangeOf(r, n).at + RangeOf(r, n).len]
  }

  lemma StoreSplices(r: Rec, mem: Bits, n: string, value: Bits)
    requires Sound(r) && HasField(r, n) && |mem| == Size(r)
    ensures var g := RangeOf(r, n);
      && g.at + g.len <= |mem|
      && StoreField(r, mem, n, value) == Splice(mem, g.at, Fit(value, g.len))
  {
    RangeInBounds(r, n);
    hide Offset, End, BitField.StoreIn, Fit, Index, Splice, PlacesSound, WellShaped;

    if n in r.places {
      var p := r.places[n];
      EntryInBounds(r, p.unit);
      BitField.StoreInSplices(mem, 8 * Offset(r.packed, r.padded, p.unit), p.unitBits, p.offset, p.width, value);
    }
  }

  lemma StoreUpdates(r: Rec, mem: Bits, n: string, value: Bits, m: string)
    requires Sound(r) && HasField(r, n) && HasField(r, m) && |mem| == Size(r)
    ensures Contents(r, StoreField(r, mem, n, value), m)
         == if m == n then Fit(value, RangeOf(r, n).len) else Contents(r, mem, m)
  {
    hide *;
    StoreSplices(r, mem, n, value);
    RangeInBounds(r, m);
    if m != n { RangesApart(r, m, n); }
    var g, h := RangeOf(r, n), RangeOf(r, m);
    SpliceReads(mem, g.at, Fit(value, g.len), h.at, h.len);
    ContentsAre(r, mem, m);
    ContentsAre(r, StoreField(r, mem, n, value), m);
  }

  lemma ContentsAre(r: Rec, mem: Bits, n: string)
    requires Sound(r) && HasField(r, n) && |mem| == Size(r)
    ensures RangeOf(r, n).at + RangeOf(r, n).len <= |mem|
    ensures Contents(r, mem, n) == mem[RangeOf(r, n).at..RangeOf(r, n).at + RangeOf(r, n).len]
  {
    RangeInBounds(r, n);
  }

  // ---- whole runs ----

  datatype Write = Write(name: string, value: Bits)

  ghost predicate AllNamed(r: Rec, ws: seq<Write>) {
    forall k :: 0 <= k < |ws| ==> HasField(r, ws[k].name)
  }

  function Run(r: Rec, mem: Bits, ws: seq<Write>): (t: Bits)
    requires Sound(r) && AllNamed(r, ws) && |mem| == Size(r)
    ensures |t| == |mem|
    decreases |ws|
  {
    if ws == [] then mem else Run(r, StoreField(r, mem, ws[0].name, ws[0].value), ws[1..])
  }

  /** What an independent cell of `len` bits holds after the writes to its name. */
  function Cell(was: Bits, n: string, ws: seq<Write>): Bits
    decreases |ws|
  {
    if ws == [] then was
    else Cell(if ws[0].name == n then Fit(ws[0].value, |was|) else was, n, ws[1..])
  }

  lemma {:induction false} RunIsCells(r: Rec, mem: Bits, ws: seq<Write>, n: string)
    requires Sound(r) && AllNamed(r, ws) && |mem| == Size(r) && HasField(r, n)
    ensures Contents(r, Run(r, mem, ws), n) == Cell(Contents(r, mem, n), n, ws)
    decreases |ws|
  {
    if ws != [] {
      hide Sound, HasField, StoreField, RangeOf, Size, Fit;
      StoreUpdates(r, mem, ws[0].name, ws[0].value, n);
      RunIsCells(r, StoreField(r, mem, ws[0].name, ws[0].value), ws[1..], n);
    }
  }

  /** A bit-field load shows the extension of the field's own bits. */
  lemma LoadShows(r: Rec, mem: Bits, n: string, kind: BitField.Kind, baseBits: nat)
    requires Sound(r) && HasField(r, n) && n in r.places && |mem| == Size(r) && 0 < r.places[n].width <= baseBits
    ensures LoadBitField(r, mem, n, kind, baseBits) == BitField.Extend(Contents(r, mem, n), kind, baseBits)
  {
    hide *;
    var p := r.places[n];
    var at := UnitAt(r, mem, n, kind, baseBits);
    ContentsAre(r, mem, n);
    BitField.LoadInExtends(mem, at, p.unitBits, p.offset, p.width, kind, baseBits);
  }

  lemma UnitAt(r: Rec, mem: Bits, n: string, kind: BitField.Kind, baseBits: nat) returns (at: nat)
    requires Sound(r) && HasField(r, n) && n in r.places && |mem| == Size(r) && 0 < r.places[n].width <= baseBits
    ensures var p := r.places[n];
      && at + p.unitBits <= |mem| && p.offset + p.width <= p.unitBits && RangeOf(r, n) == Range(at + p.offset, p.width)
      && LoadBitField(r, mem, n, kind, baseBits)
         == BitField.LoadIn(mem, at, p.unitBits, p.offset, p.width, kind, baseBits)
  {
    var p := r.places[n];
    EntryInBounds(r, p.unit);
    at := 8 * Offset(r.packed, r.padded, p.unit);
    hide Offset, End, BitField.LoadIn;
  }

  // ---- the record of a declared aggregate ----

  function RecordOf(d: Decl, fs: seq<Field>): Rec {
    Rec(d.packed, Materialise(d, fs).padded, Materialise(d, fs).places)
  }

  lemma {:induction false} InOrdinaries(fs: seq<Field>, f: Field)
    ensures f in LayoutTheorem.Ordinaries(fs) <==> f in fs && !IsBitField(f)
  {
    if fs != [] {
      InOrdinaries(fs[..|fs| - 1], f);
      assert fs == fs[..|fs| - 1] + [fs[|fs| - 1]];
    }
  }

  lemma {:induction false} InWidths(fs: seq<Field>, i: nat)
    requires i < |fs| && IsBitField(fs[i]) && fs[i].name != ""
    ensures fs[i].name in LayoutTheorem.Widths(fs)
    ensures (forall k :: i < k < |fs| ==> fs[k].name != fs[i].name)
      ==> LayoutTheorem.Widths(fs)[fs[i].name] == fs[i].bits
  {
    if i < |fs| - 1 { InWidths(fs[..|fs| - 1], i); }
  }

  lemma {:induction false} OnlyBitFields(fs: seq<Field>, n: string)
    ensures n in LayoutTheorem.Widths(fs) ==> exists k :: 0 <= k < |fs| && IsBitField(fs[k]) && fs[k].name == n
  {
    if fs != [] {
      OnlyBitFields(fs[..|fs| - 1], n);
      assert forall k :: 0 <= k < |fs| - 1 ==> fs[..|fs| - 1][k] == fs[k];
    }
  }

  /** The record refinement, for every declared aggregate: each named field is a cell, a
      bit-field as wide as declared, and any sequence of stores leaves in every cell what it
      would leave in independent variables; loads of bit-fields extend the cell's bits. */
  lemma RecordRefinesCells(d: Decl, fs: seq<Field>, mem: Bits, ws: seq<Write>, i: nat)
    requires WellFormed(d, fs) && i < |fs| && fs[i].name != ""
    requires forall j, k :: 0 <= j < k < |fs| && fs[j].name != "" ==> fs[j].name != fs[k].name
    requires forall k :: 0 <= k < |ws| ==> exists j :: 0 <= j < |fs| && fs[j].name == ws[k].name != ""
    requires |mem| == 8 * Materialise(d, fs).cursor
    ensures var r, n := RecordOf(d, fs), fs[i].name;
      && Sound(r) && AllNamed(r, ws) && HasField(r, n) && Size(r) == |mem|
      && RangeOf(r, n).len == (if IsBitField(fs[i]) then fs[i].bits else 8 * fs[i].shape.size)
      && Contents(r, Run(r, mem, ws), n) == Cell(Contents(r, mem, n), n, ws)
      && (IsBitField(fs[i]) ==> forall kind, b ::  fs[i].bits <= b ==>
            n in r.places && LoadBitField(r, Run(r, mem, ws), n, kind, b)
              == BitField.Extend(Cell(Contents(r, mem, n), n, ws), kind, b))
  {
    var r, n := RecordOf(d, fs), fs[i].name;
    LayoutTheorem.LayoutSound(d, fs);
    hide Materialise, WellShaped, PlacesSound, LayoutTheorem.Ordinaries, LayoutTheorem.OrdinaryOffsets, StructAlign,
        Aligned;
    DeclaredField(d, fs, i);
    forall k | 0 <= k < |ws| ensures HasField(r, ws[k].name) {
      var j :| 0 <= j < |fs| && fs[j].name == ws[k].name != "";
      DeclaredField(d, fs, j);
    }
    hide HasField, RangeOf, Run, Contents, Cell, WellFormed;
    RunIsCells(r, mem, ws, n);
    if IsBitField(fs[i]) {
      forall kind, b | fs[i].bits <= b
        ensures n in r.places && LoadBitField(r, Run(r, mem, ws), n, kind, b)
          == BitField.Extend(Cell(Contents(r, mem, n), n, ws), kind, b)
      {
        LoadShows(r, Run(r, mem, ws), n, kind, b);
      }
    }
  }

  lemma DeclaredField(d: Decl, fs: seq<Field>, i: nat)
    requires WellFormed(d, fs) && i < |fs| && fs[i].name != "" && Sound(RecordOf(d, fs))
    requires forall j, k :: 0 <= j < k < |fs| && fs[j].name != "" ==> fs[j].name != fs[k].name
    ensures var r, n := RecordOf(d, fs), fs[i].name;
      && HasField(r, n) && RangeOf(r, n).len == (if IsBitField(fs[i]) then fs[i].bits else 8 * fs[i].shape.size)
      && (IsBitField(fs[i]) ==> n in r.places && r.places[n].width == fs[i].bits)
  {
    var r, f := RecordOf(d, fs), fs[i];
    LayoutTheorem.LayoutSound(d, fs);
    if IsBitField(f) {
      InWidths(fs, i);
    } else {
      InOrdinaries(fs, f);
      InOrdinaries(r.padded, f);
      hide Materialise, WellShaped, PlacesSound, StructAlign, Offset;
      var g := r.padded[Index(r.padded, f.name)];
      InOrdinaries(r.padded, g);
      InOrdinaries(fs, g);
      var k :| 0 <= k < |fs| && fs[k] == g;
      assert k == i;
      OnlyBitFields(fs, f.name);
    }
  }
}
