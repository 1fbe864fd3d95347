/** Reading and rewriting a bit-field inside its storage unit, instruction by instruction
    as the code generator emits it. */
module BitField {
  import opened Arith
  import opened BitInt

  datatype Kind = Boolean | Unsigned | Signed

  function Load(unit: Bits, offset: nat, width: nat, kind: Kind, baseBits: nat): Bits
    requires 0 < width <= baseBits && offset + width <= |unit|
  {
    var raw := if offset != 0 then LShr(unit, offset) else unit;
    if kind == Boolean then Trunc(raw, 1)
    else
      var narrow := Trunc(raw, width);
      if kind == Unsigned then ZExt(narrow, baseBits) else SExt(narrow, baseBits)
  }

  function Store(old_: Bits, offset: nat, width: nat, value: Bits): (r: Bits)
    requires offset + width <= |old_|
    ensures |r| == |old_|
  {
    var n := |old_|;
    var val := if |value| < n then ZExt(value, n) else if |value| > n then Trunc(value, n) else value;
    var wMask := LowBitsSet(n, width);
    var fieldMask := Shl(wMask, offset);
    var cleared := And(old_, Not(fieldMask));
    var v := Shl(And(val, wMask), offset);
    Or(cleared, v)
  }

  /** The value a field of the given kind shows for its bits. */
  function Extend(bits: Bits, kind: Kind, baseBits: nat): Bits
    requires 0 < |bits| <= baseBits
  {
    match kind
    case Boolean => bits[..1]
    case Unsigned => ZExt(bits, baseBits)
    case Signed => SExt(bits, baseBits)
  }

  /** The read-modify-write sequence replaces the field's bits and nothing else. */
  lemma StoreSplices(unit: Bits, offset: nat, width: nat, value: Bits)
    requires offset + width <= |unit|
    ensures Store(unit, offset, width, value) == Splice(unit, offset, Fit(value, width))
  {
    var r := Splice(unit, offset, Fit(value, width));
    forall i | 0 <= i < |unit| ensures Store(unit, offset, width, value)[i] == r[i] {
      hide Pow2;
      if i < offset {
      } else if i < offset + width {
        assert r[i] == Fit(value, width)[i - offset];
      } else {
        assert r[i] == unit[i];
      }
    }
  }

  lemma LoadExtends(unit: Bits, offset: nat, width: nat, kind: Kind, baseBits: nat)
    requires 0 < width <= baseBits && offset + width <= |unit|
    ensures Load(unit, offset, width, kind, baseBits) == Extend(unit[offset..offset + width], kind, baseBits)
  {
    var raw := if offset != 0 then LShr(unit, offset) else unit;
    assert Trunc(raw, width) == unit[offset..offset + width];
    assert Trunc(raw, 1) == unit[offset..offset + width][..1];
  }

  /** What a field shows, as a number: an unsigned field the value modulo 2^width, a signed
      one its representative in the two's-complement range. */
  lemma ExtendMeans(value: Bits, width: nat, kind: Kind, baseBits: nat)
    requires 0 < width <= baseBits && width <= |value|
    ensures var shown := Extend(Fit(value, width), kind, baseBits);
      && (kind == Boolean ==> shown == [value[0]])
      && (kind == Unsigned ==> ToNat(shown) == ToNat(value) % Pow2(width))
      && (kind == Signed ==>
            && 0 - Pow2(width - 1) <= ToInt(shown) < Pow2(width - 1)
            && ToInt(shown) % Pow2(width) == ToNat(value) % Pow2(width))
  {
    var bits := Trunc(value, width);
    assert Fit(value, width) == bits;
    TruncIsMod(value, width);
    ZExtKeeps(bits, baseBits);
    SExtKeeps(bits, baseBits);
    ToIntMod(bits);
  }

  /** A load after a store shows the stored value reduced to the field's width; a range of
      the unit apart from the field keeps its bits. */
  lemma LoadAfterStore(unit: Bits, offset: nat, width: nat, value: Bits, kind: Kind, baseBits: nat, o: nat, w: nat)
    requires 0 < width <= baseBits && offset + width <= |unit|
    requires o + w <= |unit| && (o + w <= offset || offset + width <= o)
    ensures var after := Store(unit, offset, width, value);
      && Load(after, offset, width, kind, baseBits) == Extend(Fit(value, width), kind, baseBits)
      && after[o..o + w] == unit[o..o + w]
  {
    StoreSplices(unit, offset, width, value);
    LoadExtends(Store(unit, offset, width, value), offset, width, kind, baseBits);
    hide Store, Fit, Load, Extend, Splice;
    SpliceReads(unit, offset, Fit(value, width), o, w);
  }

  // ---- the same inside a larger memory ----

  /** Load the unit of `bits` bits at position `at`, rewrite the field, store the unit. */
  function StoreIn(mem: Bits, at: nat, bits: nat, offset: nat, width: nat, value: Bits): (r: Bits)
    requires at + bits <= |mem| && offset + width <= bits
    ensures |r| == |mem|
  {
    Splice(mem, at, Store(mem[at..at + bits], offset, width, value))
  }

  function LoadIn(mem: Bits, at: nat, bits: nat, offset: nat, width: nat, kind: Kind, baseBits: nat): Bits
    requires at + bits <= |mem| && offset + width <= bits && 0 < width <= baseBits
  {
    Load(mem[at..at + bits], offset, width, kind, baseBits)
  }

  lemma StoreInSplices(mem: Bits, at: nat, bits: nat, offset: nat, width: nat, value: Bits)
    requires at + bits <= |mem| && offset + width <= bits
    ensures StoreIn(mem, at, bits, offset, width, value) == Splice(mem, at + offset, Fit(value, width))
  {
    StoreSplices(mem[at..at + bits], offset, width, value);
    hide Store, Fit, Splice;
    SpliceInSlice(mem, at, bits, offset, Fit(value, width));
  }

  lemma LoadInExtends(mem: Bits, at: nat, bits: nat, offset: nat, width: nat, kind: Kind, baseBits: nat)
    requires at + bits <= |mem| && offset + width <= bits && 0 < width <= baseBits
    ensures LoadIn(mem, at, bits, offset, width, kind, baseBits)
         == Extend(mem[at + offset..at + offset + width], kind, baseBits)
  {
    hide Load, Extend, Pow2;
    LoadExtends(mem[at..at + bits], offset, width, kind, baseBits);
    SliceOfSlice(mem, at, at + bits, offset, offset + width);
  }
}
