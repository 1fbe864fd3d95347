/** Sizes, alignments and the sequential struct walk of the target's data layout. */
module Layout {
  import opened Arith

  datatype Shape = Shape(size: nat, align: nat)

  /** One entry of an aggregate's field list. Padding, storage units and the base slot
      are entries without a name once the layout has been materialised. */
  datatype Field = Field(name: string, shape: Shape, bits: nat)

  function Max(a: nat, b: nat): nat {
    if a < b then b else a
  }

  function AlignUp(v: nat, a: nat): nat {
    if a == 0 then v else (v + a - 1) / a * a
  }

  ghost predicate Aligned(v: nat, a: nat) {
    a > 0 && v % a == 0
  }

  predicate IsPow2(a: nat) {
    a == 1 || (a > 0 && a % 2 == 0 && IsPow2(a / 2))
  }

  // ---- arithmetic of alignment ----

  lemma MultipleAligned(q: nat, a: nat)
    requires a > 0
    ensures Aligned(q * a, a)
  {
    ModUnique(q * a, q, 0, a);
  }

  lemma AlignUpSound(v: nat, a: nat)
    requires a > 0
    ensures v <= AlignUp(v, a) < v + a
    ensures Aligned(AlignUp(v, a), a)
  {
    var q := (v + a - 1) / a;
    assert v + a - 1 == a * q + (v + a - 1) % a;
    MultipleAligned(q, a);
  }

  lemma Nearest(q: nat, p: nat, a: nat)
    requires q * a < p * a + a
    ensures q <= p && q * a <= p * a
  {
    assert q >= p + 1 ==> q * a >= (p + 1) * a;
    assert q <= p ==> q * a <= p * a;
  }

  /** Nothing aligned lies strictly between the value and the value rounded up. */
  lemma AlignUpLeast(v: nat, a: nat, w: nat)
    requires Aligned(w, a) && v <= w
    ensures AlignUp(v, a) <= w
  {
    AlignUpSound(v, a);
    Nearest((v + a - 1) / a, w / a, a);
  }

  lemma AlignUpFixed(v: nat, a: nat)
    requires Aligned(v, a)
    ensures AlignUp(v, a) == v
  {
    AlignUpSound(v, a);
    AlignUpLeast(v, a, v);
  }

  lemma AlignedTrans(v: nat, b: nat, a: nat)
    requires Aligned(v, b) && Aligned(b, a)
    ensures Aligned(v, a)
  {
    var q, p := v / b, b / a;
    assert v == q * (p * a) == (q * p) * a;
    MultipleAligned(q * p, a);
  }

  lemma AlignedSum(v: nat, w: nat, a: nat)
    requires Aligned(v, a) && Aligned(w, a)
    ensures Aligned(v + w, a)
  {
    assert v + w == v / a * a + w / a * a == (v / a + w / a) * a;
    MultipleAligned(v / a + w / a, a);
  }

  lemma {:induction false} Pow2Aligned(a: nat, b: nat)
    requires IsPow2(a) && IsPow2(b) && a <= b
    ensures Aligned(b, a)
  {
    if a > 1 {
      Pow2Aligned(a / 2, b / 2);
      var q := (b / 2) / (a / 2);
      assert b / 2 == q * (a / 2);
      MultipleAligned(q, a);
    }
  }

  // ---- the walk ----

  /** The alignment the walk gives an entry: 1 inside a packed struct. */
  function Alignment(packed: bool, f: Field): nat {
    if packed then 1 else f.shape.align
  }

  function End(packed: bool, fs: seq<Field>): nat {
    if fs == [] then 0
    else
      var n := |fs| - 1;
      AlignUp(End(packed, fs[..n]), Alignment(packed, fs[n])) + fs[n].shape.size
  }

  function Offset(packed: bool, fs: seq<Field>, i: nat): nat
    requires i < |fs|
  {
    AlignUp(End(packed, fs[..i]), Alignment(packed, fs[i]))
  }

  function StructAlign(packed: bool, fs: seq<Field>): nat {
    if packed || fs == [] then 1
    else Max(StructAlign(packed, fs[..|fs| - 1]), fs[|fs| - 1].shape.align)
  }

  function StructSize(packed: bool, fs: seq<Field>): nat {
    AlignUp(End(packed, fs), StructAlign(packed, fs))
  }

  ghost predicate WellShaped(fs: seq<Field>) {
    forall i :: 0 <= i < |fs| ==> IsPow2(fs[i].shape.align)
  }

  lemma EndPush(packed: bool, fs: seq<Field>, f: Field)
    ensures End(packed, fs + [f]) == AlignUp(End(packed, fs), Alignment(packed, f)) + f.shape.size
    ensures Offset(packed, fs + [f], |fs|) == AlignUp(End(packed, fs), Alignment(packed, f))
    ensures StructAlign(packed, fs + [f])
         == if packed then 1 else Max(StructAlign(packed, fs), f.shape.align)
  {
    assert (fs + [f])[..|fs|] == fs;
  }

  lemma OffsetPrefix(packed: bool, fs: seq<Field>, gs: seq<Field>, i: nat)
    requires i < |fs|
    ensures Offset(packed, fs + gs, i) == Offset(packed, fs, i)
  {
    assert (fs + gs)[..i] == fs[..i];
  }

  /** Entries follow each other without overlap and stay below the end. */
  lemma {:induction false} WalkOrdered(packed: bool, fs: seq<Field>, i: nat)
    requires WellShaped(fs) && i < |fs|
    ensures Offset(packed, fs, i) + fs[i].shape.size <= End(packed, fs)
    ensures forall j :: i < j < |fs| ==> Offset(packed, fs, i) + fs[i].shape.size <= Offset(packed, fs, j)
    ensures Aligned(Offset(packed, fs, i), Alignment(packed, fs[i]))
    decreases |fs|
  {
    var n := |fs| - 1;
    var init := fs[..n];
    assert fs == init + [fs[n]];
    AlignUpSound(End(packed, init), Alignment(packed, fs[n]));
    if i < n {
      WalkOrdered(packed, init, i);
      OffsetPrefix(packed, init, [fs[n]], i);
      forall j | i < j < |fs|
        ensures Offset(packed, fs, i) + fs[i].shape.size <= Offset(packed, fs, j)
      {
        if j < n { OffsetPrefix(packed, init, [fs[n]], j); }
      }
    }
  }

  lemma {:induction false} StructAlignSound(packed: bool, fs: seq<Field>)
    requires WellShaped(fs)
    ensures IsPow2(StructAlign(packed, fs))
    ensures !packed ==> forall i :: 0 <= i < |fs| ==> fs[i].shape.align <= StructAlign(packed, fs)
  {
    if !packed && fs != [] { StructAlignSound(packed, fs[..|fs| - 1]); }
  }
}
