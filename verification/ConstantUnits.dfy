/** Bit-field initialisers of a constant: masked values OR-ed into zero units, and packed
    units split into bytes. */
module ConstantUnits {
  import opened Options
  import opened BitInt
  import Arith
  import BitField

  datatype Init = Init(offset: nat, width: nat, value: Bits)

  /** One step of the constant builder. Widening a value to a unit narrower than the value
      is an error, and there is no constant. */
  function Accumulate(acc: Bits, offset: nat, width: nat, value: Bits): (r: Option<Bits>)
    requires offset + width <= |acc|
    ensures r.Some? <==> |value| <= |acc|
    ensures r.Some? ==> |r.value| == |acc|
  {
    if |value| > |acc| then None
    else Some(Or(acc, Shl(And(ZExt(value, |acc|), LowBitsSet(|acc|, width)), offset)))
  }

  lemma AccumulateBits(acc: Bits, offset: nat, width: nat, value: Bits)
    requires offset + width <= |acc| && |value| <= |acc|
    ensures forall k :: 0 <= k < |acc| ==>
      Accumulate(acc, offset, width, value).value[k] ==
        if offset <= k < offset + width then acc[k] || Fit(value, width)[k - offset] else acc[k]
  {
    hide Arith.Pow2;
  }

  /** OR-ing agrees with the read-modify-write store exactly when the value is no wider than
      the unit and no bit already set inside the field is clear in the new value. */
  lemma OrIsStore(acc: Bits, offset: nat, width: nat, value: Bits)
    requires offset + width <= |acc|
    ensures Accumulate(acc, offset, width, value) == Some(BitField.Store(acc, offset, width, value))
        <==> |value| <= |acc| && forall k :: offset <= k < offset + width && acc[k] ==> Fit(value, width)[k - offset]
  {
    BitField.StoreSplices(acc, offset, width, value);
    if |value| <= |acc| {
      var a, s := Accumulate(acc, offset, width, value).value, Splice(acc, offset, Fit(value, width));
      AccumulateBits(acc, offset, width, value);
      forall k | 0 <= k < |acc|
        ensures s[k] == if offset <= k < offset + width then Fit(value, width)[k - offset] else acc[k]
      {
      }
      hide BitField.Store, Fit, Accumulate, Splice;
      if forall k :: offset <= k < offset + width && acc[k] ==> Fit(value, width)[k - offset] {
        assert forall k :: 0 <= k < |acc| ==> a[k] == s[k];
        assert a == s;
      } else {
        var k :| offset <= k < offset + width && acc[k] && !Fit(value, width)[k - offset];
        assert a[k] != s[k];
      }
    }
  }

  ghost predicate Separate(unitBits: nat, inits: seq<Init>) {
    && (forall k :: 0 <= k < |inits| ==> inits[k].offset + inits[k].width <= unitBits)
    && (forall j, k :: 0 <= j < k < |inits| ==>
          inits[j].offset + inits[j].width <= inits[k].offset || inits[k].offset + inits[k].width <= inits[j].offset)
  }

  function Constant(unitBits: nat, inits: seq<Init>): (r: Option<Bits>)
    requires Separate(unitBits, inits)
    ensures r.Some? ==> |r.value| == unitBits
  {
    if inits == [] then Some(Zeros(unitBits))
    else
      var n := |inits| - 1;
      match Constant(unitBits, inits[..n])
      case None => None
      case Some(acc) => Accumulate(acc, inits[n].offset, inits[n].width, inits[n].value)
  }

  function Stored(unitBits: nat, inits: seq<Init>): (r: Bits)
    requires Separate(unitBits, inits)
    ensures |r| == unitBits
  {
    if inits == [] then Zeros(unitBits)
    else
      var n := |inits| - 1;
      BitField.Store(Stored(unitBits, inits[..n]), inits[n].offset, inits[n].width, inits[n].value)
  }

  ghost predicate Clear(inits: seq<Init>, i: nat) {
    forall k :: 0 <= k < |inits| ==> i < inits[k].offset || inits[k].offset + inits[k].width <= i
  }

  lemma ClearInit(inits: seq<Init>, i: nat)
    requires Clear(inits, i) && inits != []
    ensures var n := |inits| - 1;
      Clear(inits[..n], i) && (i < inits[n].offset || inits[n].offset + inits[n].width <= i)
  {
  }

  lemma SeparateInit(unitBits: nat, inits: seq<Init>)
    requires Separate(unitBits, inits) && inits != []
    ensures var n := |inits| - 1; Separate(unitBits, inits[..n]) && inits[n].offset + inits[n].width <= unitBits
  {
  }

  lemma SpliceKeeps(mem: Bits, at: nat, v: Bits, i: nat)
    requires at + |v| <= |mem| && i < |mem| && (i < at || at + |v| <= i)
    ensures Splice(mem, at, v)[i] == mem[i]
  {
  }

  lemma {:induction false} UntouchedZero(unitBits: nat, inits: seq<Init>, i: nat)
    requires Separate(unitBits, inits) && i < unitBits && Clear(inits, i)
    ensures !Stored(unitBits, inits)[i]
  {
    if inits != [] {
      var n := |inits| - 1;
      SeparateInit(unitBits, inits);
      StoredSplices(unitBits, inits);
      ClearInit(inits, i);
      hide *;
      UntouchedZero(unitBits, inits[..n], i);
      SpliceKeeps(Stored(unitBits, inits[..n]), inits[n].offset, Fit(inits[n].value, inits[n].width), i);
    }
  }

  lemma StoredSplices(unitBits: nat, inits: seq<Init>)
    requires Separate(unitBits, inits) && inits != []
    ensures var n := |inits| - 1;
      && Separate(unitBits, inits[..n]) && inits[n].offset + inits[n].width <= unitBits
      && Stored(unitBits, inits)
         == Splice(Stored(unitBits, inits[..n]), inits[n].offset, Fit(inits[n].value, inits[n].width))
  {
    var n := |inits| - 1;
    hide BitField.Store, Fit, Splice;
    BitField.StoreSplices(Stored(unitBits, inits[..n]), inits[n].offset, inits[n].width, inits[n].value);
  }

  /** The constant of a unit is the unit the run-time initialiser leaves in zeroed memory,
      provided that no value is wider than the unit; otherwise there is no constant. */
  lemma {:induction false} ConstantIsStored(unitBits: nat, inits: seq<Init>)
    requires Separate(unitBits, inits)
    ensures Constant(unitBits, inits) == if NoneWider(unitBits, inits) then Some(Stored(unitBits, inits)) else None
  {
    if inits != [] {
      var n := |inits| - 1;
      SeparateInit(unitBits, inits);
      NoneWiderInit(unitBits, inits);
      ConstantIsStored(unitBits, inits[..n]);
      var was := Stored(unitBits, inits[..n]);
      var off, w := inits[n].offset, inits[n].width;
      forall k | off <= k < off + w ensures !was[k] {
        ClearBefore(unitBits, inits, k);
        UntouchedZero(unitBits, inits[..n], k);
      }
      hide BitField.Store, Accumulate, Fit, Separate, NoneWider, Clear;
      OrIsStore(was, off, w, inits[n].value);
    }
  }

  ghost predicate NoneWider(unitBits: nat, inits: seq<Init>) {
    forall k :: 0 <= k < |inits| ==> |inits[k].value| <= unitBits
  }

  lemma NoneWiderInit(unitBits: nat, inits: seq<Init>)
    requires inits != []
    ensures var n := |inits| - 1;
      NoneWider(unitBits, inits) <==> NoneWider(unitBits, inits[..n]) && |inits[n].value| <= unitBits
  {
    var n := |inits| - 1;
    assert forall k :: 0 <= k < n ==> inits[..n][k] == inits[k];
  }

  lemma ClearBefore(unitBits: nat, inits: seq<Init>, i: nat)
    requires Separate(unitBits, inits) && inits != []
    requires var f := inits[|inits| - 1]; f.offset <= i < f.offset + f.width
    ensures Clear(inits[..|inits| - 1], i)
  {
  }

  // ---- bytes ----

  function Flat(bytes: seq<Bits>): Bits {
    if bytes == [] then [] else Flat(bytes[..|bytes| - 1]) + bytes[|bytes| - 1]
  }

  ghost predicate AllBytes(bytes: seq<Bits>) {
    forall i :: 0 <= i < |bytes| ==> |bytes[i]| == 8
  }

  lemma {:induction false} FlatLength(bytes: seq<Bits>)
    requires AllBytes(bytes)
    ensures |Flat(bytes)| == 8 * |bytes|
  {
    if bytes != [] { FlatLength(bytes[..|bytes| - 1]); }
  }

  /** Split a unit into little-endian bytes. */
  method SplitBytes(v: Bits) returns (bytes: seq<Bits>)
    requires |v| % 8 == 0
    ensures 8 * |bytes| == |v| && AllBytes(bytes) && Flat(bytes) == v
  {
    bytes := [];
    var nBytes := (|v| + 7) / 8;
    var i := 0;
    while i < nBytes
      invariant 0 <= i <= nBytes && |bytes| == i && AllBytes(bytes) && Flat(bytes) == v[..8 * i]
    {
      var b := Trunc(LShr(v, 8 * i), 8);
      assert b == v[8 * i..8 * i + 8];
      assert (bytes + [b])[..i] == bytes;
      bytes := bytes + [b];
      assert v[..8 * i] + v[8 * i..8 * i + 8] == v[..8 * (i + 1)];
      i := i + 1;
    }
    assert v[..|v|] == v;
  }

  /** Put the bytes of a unit together again. */
  method JoinBytes(bytes: seq<Bits>) returns (v: Bits)
    requires AllBytes(bytes)
    ensures v == Flat(bytes)
  {
    var n := 8 * |bytes|;
    v := Zeros(n);
    FlatLength(bytes);
    var i := 0;
    assert bytes[..0] == [];
    while i < |bytes|
      invariant 0 <= i <= |bytes| && v == Flat(bytes[..i]) + Zeros(n - 8 * i) && |v| == n
      invariant |Flat(bytes[..i])| == 8 * i
    {
      assert bytes[..i + 1][..i] == bytes[..i];
      FlatLength(bytes[..i + 1]);
      OrAbove(Flat(bytes[..i]), bytes[i], n);
      v := Or(v, Shl(ZExt(bytes[i], n), 8 * i));
      i := i + 1;
    }
    assert bytes[..i] == bytes;
  }

  lemma OrAbove(low: Bits, b: Bits, n: nat)
    requires |low| + |b| <= n
    ensures Or(low + Zeros(n - |low|), Shl(ZExt(b, n), |low|)) == low + b + Zeros(n - |low| - |b|)
  {
    var r := low + b + Zeros(n - |low| - |b|);
    var l := Or(low + Zeros(n - |low|), Shl(ZExt(b, n), |low|));
    forall i | 0 <= i < n ensures l[i] == r[i] {
    }
    assert l == r;
  }

  /** Splitting and joining undo each other: a unit determines its bytes. */
  lemma {:induction false} FlatInjective(a: seq<Bits>, b: seq<Bits>)
    requires AllBytes(a) && AllBytes(b) && Flat(a) == Flat(b)
    ensures a == b
  {
    FlatLength(a);
    FlatLength(b);
    if a != [] {
      var n := |a| - 1;
      FlatLength(a[..n]);
      FlatLength(b[..n]);
      assert Flat(a)[..8 * n] == Flat(a[..n]) && Flat(b)[..8 * n] == Flat(b[..n]);
      assert Flat(a)[8 * n..] == a[n] && Flat(b)[8 * n..] == b[n];
      FlatInjective(a[..n], b[..n]);
      assert a == a[..n] + [a[n]] && b == b[..n] + [b[n]];
    }
  }
}
