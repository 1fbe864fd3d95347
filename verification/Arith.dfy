/** Powers of two and division, as the layout and integer proofs need them. */
module Arith {
  function Pow2(n: nat): (r: nat)
    ensures r > 0
  {
    if n == 0 then 1 else 2 * Pow2(n - 1)
  }

  lemma Pow2Times(n: nat, x: int)
    ensures Pow2(n + 1) * x == 2 * (Pow2(n) * x)
  {
  }

  lemma {:induction false} Pow2Add(m: nat, n: nat)
    ensures Pow2(m + n) == Pow2(m) * Pow2(n)
  {
    if m > 0 {
      Pow2Add(m - 1, n);
      assert Pow2(m) * Pow2(n) == 2 * (Pow2(m - 1) * Pow2(n));
    }
  }

  lemma SplitPow2(a: nat, k: nat)
    ensures Pow2(a) * (Pow2(k) - 1) == Pow2(a + k) - Pow2(a)
  {
    Pow2Add(a, k);
  }

  lemma ModUnique(x: int, q: int, r: int, m: int)
    requires m > 0 && 0 <= r < m && x == r + m * q
    ensures x % m == r && x / m == q
  {
    var d := x / m - q;
    assert d >= 1 ==> m * d >= m;
    assert d <= -1 ==> m * d <= -m;
    assert x == m * (x / m) + x % m;
    assert m * d == r - x % m;
  }

  // ---- congruence ----

  predicate Cong(x: int, y: int, m: nat)
    requires m > 0
  {
    x % m == y % m
  }

  lemma CongIntro(x: int, y: int, k: int, m: nat)
    requires m > 0 && x == y + m * k
    ensures Cong(x, y, m)
  {
    assert y == m * (y / m) + y % m;
    assert x == y % m + m * (y / m + k);
    ModUnique(x, y / m + k, y % m, m);
  }

  lemma CongElim(x: int, y: int, m: nat) returns (k: int)
    requires m > 0 && Cong(x, y, m)
    ensures x == y + m * k
  {
    k := x / m - y / m;
    assert x == m * (x / m) + x % m && y == m * (y / m) + y % m;
  }

  lemma CongMod(x: int, m: nat)
    requires m > 0
    ensures Cong(x % m, x, m)
  {
    assert x == m * (x / m) + x % m;
    CongIntro(x % m, x, -(x / m), m);
  }

  lemma CongAdd(x: int, y: int, z: int, w: int, m: nat)
    requires m > 0 && Cong(x, y, m) && Cong(z, w, m)
    ensures Cong(x + z, y + w, m) && Cong(x - z, y - w, m)
  {
    var k := CongElim(x, y, m);
    var l := CongElim(z, w, m);
    CongIntro(x + z, y + w, k + l, m);
    CongIntro(x - z, y - w, k - l, m);
  }

  lemma CongMul(x: int, y: int, z: int, w: int, m: nat)
    requires m > 0 && Cong(x, y, m) && Cong(z, w, m)
    ensures Cong(x * z, y * w, m)
  {
    var k := CongElim(x, y, m);
    var l := CongElim(z, w, m);
    calc {
      x * z;
      (y + m * k) * (w + m * l);
      y * w + y * (m * l) + (m * k) * w + (m * k) * (m * l);
      y * w + m * (y * l + k * w + k * (m * l));
    }
    CongIntro(x * z, y * w, y * l + k * w + k * (m * l), m);
  }

  /** Congruence for a modulus passes to its divisors. */
  lemma CongDown(x: int, y: int, m: nat, q: nat)
    requires m > 0 && q > 0 && m * q > 0 && Cong(x, y, m * q)
    ensures Cong(x, y, m)
  {
    var k := CongElim(x, y, m * q);
    assert (m * q) * k == m * (q * k);
    CongIntro(x, y, q * k, m);
  }

  lemma CongPow2(x: int, y: int, a: nat, b: nat)
    requires a <= b && Cong(x, y, Pow2(b))
    ensures Cong(x, y, Pow2(a))
  {
    Pow2Add(a, b - a);
    CongDown(x, y, Pow2(a), Pow2(b - a));
  }

  /** Two congruent numbers in one window of the modulus are equal. */
  lemma CongUnique(x: int, y: int, m: nat, lo: int)
    requires m > 0 && Cong(x, y, m) && lo <= x < lo + m && lo <= y < lo + m
    ensures x == y
  {
    var k := CongElim(x, y, m);
    assert k >= 1 ==> m * k >= m;
    assert k <= -1 ==> m * k <= 0 - m;
  }
}
