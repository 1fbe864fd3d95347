/** Integers of a fixed width as the code generator handles them: bit i of a value is
    element i, so the lowest bit comes first, as in little-endian memory. */
module BitInt {
  import opened Arith

  type Bits = seq<bool>

  function Zeros(n: nat): (r: Bits)
    ensures |r| == n && forall i :: 0 <= i < n ==> !r[i]
  {
    seq(n, _ => false)
  }

  function And(a: Bits, b: Bits): (r: Bits)
    requires |a| == |b|
    ensures |r| == |a| && forall i :: 0 <= i < |a| ==> r[i] == (a[i] && b[i])
  {
    seq(|a|, i requires 0 <= i < |a| => a[i] && b[i])
  }

  function Or(a: Bits, b: Bits): (r: Bits)
    requires |a| == |b|
    ensures |r| == |a| && forall i :: 0 <= i < |a| ==> r[i] == (a[i] || b[i])
  {
    seq(|a|, i requires 0 <= i < |a| => a[i] || b[i])
  }

  function Xor(a: Bits, b: Bits): (r: Bits)
    requires |a| == |b|
    ensures |r| == |a| && forall i :: 0 <= i < |a| ==> r[i] == (a[i] != b[i])
  {
    seq(|a|, i requires 0 <= i < |a| => a[i] != b[i])
  }

  function Not(a: Bits): (r: Bits)
    ensures |r| == |a| && forall i :: 0 <= i < |a| ==> r[i] == !a[i]
  {
    seq(|a|, i requires 0 <= i < |a| => !a[i])
  }

  function Shl(a: Bits, k: nat): (r: Bits)
    requires k <= |a|
    ensures |r| == |a|
  {
    Zeros(k) + a[..|a| - k]
  }

  function LShr(a: Bits, k: nat): (r: Bits)
    requires k <= |a|
    ensures |r| == |a|
  {
    a[k..] + Zeros(k)
  }

  function LowBitsSet(n: nat, k: nat): (r: Bits)
    requires k <= n
    ensures |r| == n
  {
    seq(n, i => i < k)
  }

  function Trunc(a: Bits, n: nat): Bits
    requires n <= |a|
  {
    a[..n]
  }

  function ZExt(a: Bits, n: nat): Bits
    requires |a| <= n
  {
    a + Zeros(n - |a|)
  }

  function SExt(a: Bits, n: nat): Bits
    requires 0 < |a| <= n
  {
    a + seq(n - |a|, _ => a[|a| - 1])
  }

  /** Truncate or fill up with zeros. */
  function Fit(a: Bits, n: nat): (r: Bits)
    ensures |r| == n
  {
    if |a| <= n then ZExt(a, n) else Trunc(a, n)
  }

  // ---- slices ----

  lemma SliceOfSlice(s: Bits, a: nat, b: nat, c: nat, d: nat)
    requires a <= b <= |s| && c <= d <= b - a
    ensures s[a..b][c..d] == s[a + c..a + d]
  {
    assert forall i :: 0 <= i < d - c ==> s[a..b][c..d][i] == s[a + c..a + d][i];
  }

  function Splice(mem: Bits, at: nat, v: Bits): (r: Bits)
    requires at + |v| <= |mem|
    ensures |r| == |mem|
  {
    mem[..at] + v + mem[at + |v|..]
  }

  /** Replacing a range is seen by a read of that range and by no read apart from it. */
  lemma SpliceReads(mem: Bits, a: nat, v: Bits, b: nat, len: nat)
    requires a + |v| <= |mem| && b + len <= |mem|
    ensures Splice(mem, a, v)[a..a + |v|] == v
    ensures a + |v| <= b || b + len <= a ==> Splice(mem, a, v)[b..b + len] == mem[b..b + len]
  {
  }

  /** Replacing a range of a slice and putting the slice back replaces the range. */
  lemma SpliceInSlice(mem: Bits, a: nat, len: nat, off: nat, v: Bits)
    requires a + len <= |mem| && off + |v| <= len
    ensures Splice(mem, a, Splice(mem[a..a + len], off, v)) == Splice(mem, a + off, v)
  {
    var u := mem[a..a + len];
    SliceOfSlice(mem, a, a + len, 0, off);
    SliceOfSlice(mem, a, a + len, off + |v|, len);
    assert mem[..a] + mem[a..a + off] == mem[..a + off];
    assert mem[a + off + |v|..a + len] + mem[a + len..] == mem[a + off + |v|..];
    assert mem[..a] + (u[..off] + v + u[off + |v|..]) + mem[a + len..]
        == (mem[..a] + u[..off]) + v + (u[off + |v|..] + mem[a + len..]);
  }

  // ---- what the bits mean ----

  function ToNat(a: Bits): nat
    decreases |a|
  {
    if a == [] then 0 else (if a[0] then 1 else 0) + 2 * ToNat(a[1..])
  }

  /** The two's-complement reading. */
  function ToInt(a: Bits): int {
    if a != [] && a[|a| - 1] then ToNat(a) - Pow2(|a|) else ToNat(a)
  }

  lemma {:induction false} ToNatConcat(a: Bits, b: Bits)
    ensures ToNat(a + b) == ToNat(a) + Pow2(|a|) * ToNat(b)
    decreases |a|
  {
    if a == [] {
      assert a + b == b;
    } else {
      assert (a + b)[1..] == a[1..] + b;
      ToNatConcat(a[1..], b);
      Pow2Times(|a| - 1, ToNat(b));
    }
  }

  lemma {:induction false} ToNatBound(a: Bits)
    ensures ToNat(a) < Pow2(|a|)
    decreases |a|
  {
    if a != [] { ToNatBound(a[1..]); }
  }

  lemma {:induction false} ToNatZeros(n: nat)
    ensures ToNat(Zeros(n)) == 0
  {
    if n > 0 {
      assert Zeros(n)[1..] == Zeros(n - 1);
      ToNatZeros(n - 1);
    }
  }

  lemma {:induction false} ToNatOnes(n: nat)
    ensures ToNat(seq(n, _ => true)) == Pow2(n) - 1
  {
    if n > 0 {
      var s: Bits := seq(n, _ => true);
      assert s[1..] == seq(n - 1, _ => true);
      ToNatOnes(n - 1);
    }
  }

  /** Zero extension keeps the unsigned value. */
  lemma ZExtKeeps(a: Bits, n: nat)
    requires |a| <= n
    ensures ToNat(ZExt(a, n)) == ToNat(a)
  {
    var k := n - |a|;
    ToNatConcat(a, Zeros(k));
    ToNatZeros(k);
    assert Pow2(|a|) * 0 == 0;
  }

  /** Sign extension keeps the signed value. */
  lemma SExtKeeps(a: Bits, n: nat)
    requires 0 < |a| <= n
    ensures ToInt(SExt(a, n)) == ToInt(a)
  {
    var k := n - |a|;
    if a[|a| - 1] {
      var top: Bits := seq(k, _ => true);
      assert SExt(a, n) == a + top;
      assert (a + top)[n - 1];
      ToNatConcat(a, top);
      ToNatOnes(k);
      SplitPow2(|a|, k);
    } else {
      assert SExt(a, n) == ZExt(a, n);
      ZExtKeeps(a, n);
    }
  }

  /** Truncation is reduction modulo a power of two. */
  lemma TruncIsMod(a: Bits, n: nat)
    requires n <= |a|
    ensures ToNat(Trunc(a, n)) == ToNat(a) % Pow2(n)
  {
    assert a == a[..n] + a[n..];
    ToNatConcat(a[..n], a[n..]);
    ToNatBound(a[..n]);
    ModUnique(ToNat(a), ToNat(a[n..]), ToNat(a[..n]), Pow2(n));
  }

  /** The signed reading differs from the unsigned one by a multiple of the modulus. */
  lemma ToIntMod(a: Bits)
    ensures ToInt(a) % Pow2(|a|) == ToNat(a)
    ensures a != [] ==> 0 - Pow2(|a| - 1) <= ToInt(a) < Pow2(|a| - 1)
  {
    ToNatBound(a);
    if a != [] {
      var n := |a| - 1;
      assert a == a[..n] + [a[n]];
      ToNatConcat(a[..n], [a[n]]);
      ToNatBound(a[..n]);
      assert ToNat([a[n]]) == if a[n] then 1 else 0;
      if a[n] { ModUnique(ToInt(a), -1, ToNat(a), Pow2(|a|)); }
      else { ModUnique(ToInt(a), 0, ToNat(a), Pow2(|a|)); }
    } else {
      assert ToNat(a) % 1 == 0;
    }
  }

  // ---- the bits of a number ----

  function FromNat(x: nat, n: nat): (r: Bits)
    ensures |r| == n
  {
    if n == 0 then [] else [x % 2 == 1] + FromNat(x / 2, n - 1)
  }

  lemma {:induction false} ToNatFromNat(x: nat, n: nat)
    ensures ToNat(FromNat(x, n)) == x % Pow2(n)
  {
    if n > 0 {
      ToNatFromNat(x / 2, n - 1);
      assert FromNat(x, n)[1..] == FromNat(x / 2, n - 1);
      ModHalf(x, Pow2(n - 1));
    } else {
      assert x % 1 == 0;
    }
  }

  lemma ModHalf(x: nat, p: nat)
    requires p > 0
    ensures x % (2 * p) == x % 2 + 2 * (x / 2 % p)
  {
    var q, r := x / 2 / p, x / 2 % p;
    assert x / 2 == p * q + r;
    assert x == x % 2 + 2 * r + (2 * p) * q;
    ModUnique(x, q, x % 2 + 2 * r, 2 * p);
  }

  lemma {:induction false} OnesBits(k: nat, n: nat)
    requires k <= n
    ensures FromNat(Pow2(k) - 1, n) == LowBitsSet(n, k)
  {
    if k == 0 {
      ZeroBits(n);
    } else {
      OnesBits(k - 1, n - 1);
      assert (Pow2(k) - 1) / 2 == Pow2(k - 1) - 1;
      assert LowBitsSet(n, k)[1..] == LowBitsSet(n - 1, k - 1);
    }
  }

  lemma {:induction false} ZeroBits(n: nat)
    ensures FromNat(0, n) == Zeros(n)
  {
    if n > 0 { ZeroBits(n - 1); }
  }

  /** A power of two is a single bit. */
  lemma {:induction false} PowerBits(k: nat, n: nat)
    requires k < n
    ensures FromNat(Pow2(k), n) == Zeros(k) + [true] + Zeros(n - k - 1)
  {
    if k == 0 {
      ZeroBits(n - 1);
    } else {
      PowerBits(k - 1, n - 1);
      assert Pow2(k) / 2 == Pow2(k - 1);
      assert (Zeros(k) + [true] + Zeros(n - k - 1))[1..] == Zeros(k - 1) + [true] + Zeros(n - k - 1);
    }
  }

  lemma ToNatBit(b: bool, rest: Bits)
    ensures ToNat([b] + rest) == (if b then 1 else 0) + 2 * ToNat(rest)
  {
    assert ([b] + rest)[1..] == rest;
  }

  lemma ToNatAround(low: Bits, b: bool, high: Bits)
    ensures ToNat(low + [b] + high) == ToNat(low) + (if b then Pow2(|low|) else 0) + Pow2(|low| + 1) * ToNat(high)
  {
    assert low + [b] + high == low + ([b] + high);
    ToNatConcat(low, [b] + high);
    ToNatBit(b, high);
    Pow2Times(|low|, ToNat(high));
    Distribute(Pow2(|low|), if b then 1 else 0, ToNat(high));
  }

  lemma Distribute(p: nat, b: nat, h: nat)
    ensures p * (b + 2 * h) == p * b + 2 * (p * h)
  {
  }

  /** Flipping bit k adds or subtracts 2^k; below 2^(k+1) that bit says which half. */
  lemma FlipBit(w: Bits, k: nat)
    requires k < |w| && ToNat(w) < Pow2(k + 1)
    ensures w[k] <==> ToNat(w) >= Pow2(k)
    ensures ToNat(w[..k] + [!w[k]] + w[k + 1..]) == ToNat(w) + if w[k] then 0 - Pow2(k) else Pow2(k)
  {
    assert w == w[..k] + [w[k]] + w[k + 1..];
    hide *;
    FlipParts(w[..k], w[k], w[k + 1..]);
  }

  lemma FlipParts(low: Bits, b: bool, high: Bits)
    requires ToNat(low + [b] + high) < Pow2(|low| + 1)
    ensures b <==> ToNat(low + [b] + high) >= Pow2(|low|)
    ensures ToNat(low + [!b] + high) == ToNat(low + [b] + high) + if b then 0 - Pow2(|low|) else Pow2(|low|)
  {
    hide *;
    ToNatAround(low, b, high);
    ToNatAround(low, !b, high);
    ToNatBound(low);
    AtLeast(Pow2(|low| + 1), ToNat(high));
  }

  lemma AtLeast(p: nat, h: nat)
    ensures h >= 1 ==> p * h >= p
    ensures h == 0 ==> p * h == 0
  {
  }
}
