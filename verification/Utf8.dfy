/** The synthesised UTF-8 routines against section 4 of RFC 3629. */
module Utf8 {
  type Bytes = seq<bv8>

  // ---- the syntax of section 4 of RFC 3629 ----

  predicate Tail(b: bv8) {
    0x80 <= b <= 0xBF
  }

  predicate Lead3(a: bv8, b: bv8) {
    || (a == 0xE0 && 0xA0 <= b <= 0xBF)
    || (0xE1 <= a <= 0xEC && Tail(b))
    || (a == 0xED && 0x80 <= b <= 0x9F)
    || (0xEE <= a <= 0xEF && Tail(b))
  }

  predicate Lead4(a: bv8, b: bv8) {
    || (a == 0xF0 && 0x90 <= b <= 0xBF)
    || (0xF1 <= a <= 0xF3 && Tail(b))
    || (a == 0xF4 && 0x80 <= b <= 0x8F)
  }

  predicate IsChar(s: Bytes) {
    || (|s| == 1 && s[0] <= 0x7F)
    || (|s| == 2 && 0xC2 <= s[0] <= 0xDF && Tail(s[1]))
    || (|s| == 3 && Lead3(s[0], s[1]) && Tail(s[2]))
    || (|s| == 4 && Lead4(s[0], s[1]) && Tail(s[2]) && Tail(s[3]))
  }

  /** The length of the character at the front, 0 if there is none. */
  function First(p: Bytes): (n: nat)
    ensures n <= |p|
    ensures n > 0 ==> IsChar(p[..n])
  {
    if |p| >= 1 && IsChar(p[..1]) then 1
    else if |p| >= 2 && IsChar(p[..2]) then 2
    else if |p| >= 3 && IsChar(p[..3]) then 3
    else if |p| >= 4 && IsChar(p[..4]) then 4
    else 0
  }

  predicate Octets(p: Bytes)
    decreases |p|
  {
    p == [] || (First(p) > 0 && Octets(p[First(p)..]))
  }

  // ---- scalar values and their encodings ----

  predicate Scalar(c: bv32) {
    c <= 0x10FFFF && !(0xD800 <= c <= 0xDFFF)
  }

  /** The continuation byte holding six bits of the value from bit `at` on. */
  function Low6(c: bv32): bv8 { 0x80 | ((c & 0x3F) as bv8) }
  function Mid6(c: bv32): bv8 { Low6(c >> 6) }
  function High6(c: bv32): bv8 { Low6(c >> 12) }

  function Top1(c: bv32): bv8 { (c & 0x7F) as bv8 }
  function Top2(c: bv32): bv8 { 0xC0 | (((c >> 6) & 0x1F) as bv8) }
  function Top3(c: bv32): bv8 { 0xE0 | (((c >> 12) & 0x0F) as bv8) }
  function Top4(c: bv32): bv8 { 0xF0 | (((c >> 18) & 0x07) as bv8) }

  /** Section 3 of RFC 3629. */
  function Encode(c: bv32): Bytes
    requires Scalar(c)
  {
    if c <= 0x7F then [Top1(c)]
    else if c <= 0x7FF then [Top2(c), Low6(c)]
    else if c <= 0xFFFF then [Top3(c), Mid6(c), Low6(c)]
    else [Top4(c), High6(c), Mid6(c), Low6(c)]
  }

  function Join2(a: bv8, b: bv8): bv32 {
    ((a & 0x1F) as bv32 << 6) | ((b & 0x3F) as bv32)
  }

  function Join3(a: bv8, b: bv8, c: bv8): bv32 {
    ((a & 0x0F) as bv32 << 12) | ((b & 0x3F) as bv32 << 6) | ((c & 0x3F) as bv32)
  }

  function Join4(a: bv8, b: bv8, c: bv8, d: bv8): bv32 {
    ((a & 0x07) as bv32 << 18) | ((b & 0x3F) as bv32 << 12) | ((c & 0x3F) as bv32 << 6) | ((d & 0x3F) as bv32)
  }

  function Decode(s: Bytes): bv32
    requires IsChar(s)
  {
    if |s| == 1 then s[0] as bv32
    else if |s| == 2 then Join2(s[0], s[1])
    else if |s| == 3 then Join3(s[0], s[1], s[2])
    else Join4(s[0], s[1], s[2], s[3])
  }

  predicate AllScalar(cs: seq<bv32>) {
    forall c <- cs :: Scalar(c)
  }

  function EncodeAll(cs: seq<bv32>): Bytes
    requires AllScalar(cs)
  {
    if cs == [] then [] else Encode(cs[0]) + EncodeAll(cs[1..])
  }

  // ---- one character ----

  lemma Split1(b: bv8)
    requires b <= 0x7F
    ensures b as bv32 <= 0x7F && Top1(b as bv32) == b
  {
  }

  lemma Split2(a: bv8, b: bv8)
    requires 0xC2 <= a <= 0xDF && Tail(b)
    ensures var c := Join2(a, b); 0x80 <= c <= 0x7FF && Top2(c) == a && Low6(c) == b
  {
  }

  lemma Split3(a: bv8, b: bv8, c: bv8)
    requires Lead3(a, b) && Tail(c)
    ensures var x := Join3(a, b, c);
      && 0x800 <= x <= 0xFFFF && !(0xD800 <= x <= 0xDFFF)
      && Top3(x) == a && Mid6(x) == b && Low6(x) == c
  {
  }

  lemma Split4(a: bv8, b: bv8, c: bv8, d: bv8)
    requires Lead4(a, b) && Tail(c) && Tail(d)
    ensures var x := Join4(a, b, c, d);
      0x10000 <= x <= 0x10FFFF && Top4(x) == a && High6(x) == b && Mid6(x) == c && Low6(x) == d
  {
  }

  lemma Rejoin1(c: bv32)
    requires c <= 0x7F
    ensures Top1(c) <= 0x7F && Top1(c) as bv32 == c
  {
  }

  lemma Rejoin2(c: bv32)
    requires 0x80 <= c <= 0x7FF
    ensures 0xC2 <= Top2(c) <= 0xDF && Tail(Low6(c)) && Join2(Top2(c), Low6(c)) == c
  {
  }

  lemma Rejoin3(c: bv32)
    requires 0x800 <= c <= 0xFFFF && !(0xD800 <= c <= 0xDFFF)
    ensures Lead3(Top3(c), Mid6(c)) && Tail(Low6(c)) && Join3(Top3(c), Mid6(c), Low6(c)) == c
  {
  }

  lemma Rejoin4(c: bv32)
    requires 0x10000 <= c <= 0x10FFFF
    ensures Lead4(Top4(c), High6(c)) && Tail(Mid6(c)) && Tail(Low6(c))
    ensures Join4(Top4(c), High6(c), Mid6(c), Low6(c)) == c
  {
  }

  /** The encoding of a scalar value is a character and decodes to that value. */
  lemma DecodeEncode(c: bv32)
    requires Scalar(c)
    ensures IsChar(Encode(c)) && Decode(Encode(c)) == c
  {
    if c <= 0x7F { Rejoin1(c); }
    else if c <= 0x7FF { Rejoin2(c); }
    else if c <= 0xFFFF { Rejoin3(c); }
    else { Rejoin4(c); }
    hide Join2, Join3, Join4, Low6, Mid6, High6, Top1, Top2, Top3, Top4, Tail, Lead3, Lead4;
  }

  /** Every character is the encoding of the scalar value it decodes to. */
  lemma EncodeDecode(s: Bytes)
    requires IsChar(s)
    ensures Scalar(Decode(s)) && Encode(Decode(s)) == s
  {
    hide Join2, Join3, Join4, Low6, Mid6, High6, Top1, Top2, Top3, Top4, Tail, Lead3, Lead4;
    if |s| == 1 { Split1(s[0]); }
    else if |s| == 2 { Split2(s[0], s[1]); }
    else if |s| == 3 { Split3(s[0], s[1], s[2]); }
    else { Split4(s[0], s[1], s[2], s[3]); }
  }

  // ---- whole strings ----

  function DecodeAll(p: Bytes): (cs: seq<bv32>)
    requires Octets(p)
    decreases |p|
  {
    if p == [] then [] else [Decode(p[..First(p)])] + DecodeAll(p[First(p)..])
  }

  /** Lead bytes of different lengths differ, so only one prefix is a character. */
  lemma FirstUnique(s: Bytes, rest: Bytes)
    requires IsChar(s)
    ensures First(s + rest) == |s|
  {
    var p := s + rest;
    assert p[..|s|] == s;
    forall k | 1 <= k <= |p| && k <= 4 && IsChar(p[..k]) ensures k == |s| {
      assert p[..k][0] == s[0];
    }
  }

  lemma {:induction false} OctetsEncodeAll(cs: seq<bv32>)
    requires AllScalar(cs)
    ensures Octets(EncodeAll(cs)) && DecodeAll(EncodeAll(cs)) == cs
  {
    if cs != [] {
      OctetsEncodeAll(cs[1..]);
      DecodeEncode(cs[0]);
      hide IsChar, Encode, Decode, Scalar, First;
      var s, rest := Encode(cs[0]), EncodeAll(cs[1..]);
      FirstUnique(s, rest);
      assert (s + rest)[..|s|] == s && (s + rest)[|s|..] == rest;
    }
  }

  lemma EncodeCons(c: bv32, cs: seq<bv32>)
    requires Scalar(c) && AllScalar(cs)
    ensures AllScalar([c] + cs) && EncodeAll([c] + cs) == Encode(c) + EncodeAll(cs)
  {
    assert ([c] + cs)[1..] == cs;
  }

  lemma EncodeNone()
    ensures AllScalar([]) && EncodeAll([]) == []
  {
  }

  lemma {:induction false} DecodeAllScalar(p: Bytes)
    requires Octets(p)
    ensures AllScalar(DecodeAll(p)) && EncodeAll(DecodeAll(p)) == p
    decreases |p|
  {
    hide Encode, Decode, IsChar, First, Scalar, EncodeAll, AllScalar;
    if p == [] {
      EncodeNone();
    } else {
      var n := First(p);
      DecodeAllScalar(p[n..]);
      EncodeDecode(p[..n]);
      assert DecodeAll(p) == [Decode(p[..n])] + DecodeAll(p[n..]);
      hide *;
      EncodeCons(Decode(p[..n]), DecodeAll(p[n..]));
      assert p == p[..n] + p[n..];
    }
  }

  /** The syntax accepts exactly the encodings of sequences of scalar values. */
  lemma OctetsAreEncodings(p: Bytes)
    ensures Octets(p) <==> exists cs: seq<bv32> :: AllScalar(cs) && p == EncodeAll(cs)
  {
    if Octets(p) { DecodeAllScalar(p); }
    if cs: seq<bv32> :| AllScalar(cs) && p == EncodeAll(cs) { OctetsEncodeAll(cs); }
  }

  // ---- the emitted routines ----

  /** cmm.utf8.char_len_at: the length the lead byte's shape announces. */
  method CharLenAt(p: Bytes, i: nat) returns (width: nat)
    requires i < |p|
    ensures width == Announced(p[i])
    ensures First(p[i..]) > 0 ==> width == First(p[i..])
  {
    FirstAnnounced(p[i..]);
    var lead := p[i];
    if lead < 0x80 { return 1; }
    if lead & 0xE0 == 0xC0 { return 2; }
    if lead & 0xF0 == 0xE0 { return 3; }
    if lead & 0xF8 == 0xF0 { return 4; }
    return 0;
  }

  function Announced(lead: bv8): nat {
    if lead <= 0x7F then 1
    else if 0xC0 <= lead <= 0xDF then 2
    else if 0xE0 <= lead <= 0xEF then 3
    else if 0xF0 <= lead <= 0xF7 then 4
    else 0
  }

  lemma FirstAnnounced(p: Bytes)
    ensures First(p) > 0 ==> First(p) == Announced(p[0])
  {
  }

  /** cmm.utf8.char_count, for any bytes; on well-formed ones it counts the scalar values. */
  method CharCount(p: Bytes) returns (n: nat)
    ensures n <= |p|
    ensures Octets(p) ==> n == |DecodeAll(p)|
  {
    var i := 0;
    n := 0;
    while i < |p|
      invariant n <= i && n <= |p|
      invariant Octets(p) ==> i <= |p| && Octets(p[i..]) && n + |DecodeAll(p[i..])| == |DecodeAll(p)|
    {
      hide IsChar, Decode;
      var width := CharLenAt(p, i);
      FirstAnnounced(p[i..]);
      ghost var f := First(p[i..]);
      assert Octets(p) ==> f == width && p[i..][f..] == p[i + f..];
      i := i + if width == 0 then 1 else width;
      n := n + 1;
    }
  }

  /** The test of continuation byte `k` after the given lead byte. */
  predicate ByteOk(lead: bv8, k: nat, b: bv8) {
    && 0x80 <= b && b <= 0xBF
    && (k == 1 ==>
          && (lead != 0xE0 || b >= 0xA0)
          && (lead != 0xED || b < 0xA0)
          && (lead != 0xF0 || b >= 0x90)
          && (lead != 0xF4 || b <= 0x8F)
          && (!(lead & 0xE0 == 0xC0) || lead >= 0xC2)
          && (!(lead & 0xF8 == 0xF0) || lead <= 0xF4))
  }

  /** The first `n` bytes pass as one lead byte and its continuation bytes. */
  ghost predicate Passes(s: Bytes, n: nat) {
    1 <= n <= |s| && forall k :: 1 <= k < n ==> ByteOk(s[0], k, s[k])
  }

  /** A character is a lead byte, as many bytes as it announces, and each byte passes. */
  lemma CharByBytes(s: Bytes)
    ensures IsChar(s) <==> s != [] && |s| == Announced(s[0]) && Passes(s, |s|)
  {
    if s != [] && |s| == Announced(s[0]) && Passes(s, |s|) {
      assert |s| >= 2 ==> ByteOk(s[0], 1, s[1]);
      assert |s| >= 3 ==> ByteOk(s[0], 2, s[2]);
      assert |s| >= 4 ==> ByteOk(s[0], 3, s[3]);
    }
  }

  /** The same for the character at the front of a longer string. */
  lemma FirstPasses(q: Bytes)
    requires q != []
    ensures First(q) > 0 ==> First(q) == Announced(q[0]) && Passes(q, First(q))
    ensures Announced(q[0]) > 0 && Passes(q, Announced(q[0])) ==> IsChar(q[..Announced(q[0])])
  {
    CharByBytes(q[..First(q)]);
    if Announced(q[0]) <= |q| { CharByBytes(q[..Announced(q[0])]); }
  }

  lemma NextChar(q: Bytes, w: nat)
    requires w <= |q| && IsChar(q[..w])
    ensures Octets(q) <==> Octets(q[w..])
  {
    assert q == q[..w] + q[w..];
    FirstUnique(q[..w], q[w..]);
  }

  /** cmm.utf8.validate accepts exactly the well-formed strings. It loads a continuation byte
      before it looks at the bound, so one byte behind the string may be read; the answer
      does not depend on what it holds. */
  method Validate(p: Bytes, past: bv8) returns (ok: bool)
    ensures ok <==> Octets(p)
  {
    var i := 0;
    while i < |p|
      invariant i <= |p| && (Octets(p) <==> Octets(p[i..]))
    {
      hide IsChar, ByteOk, First, Announced;
      var lead := p[i];
      ghost var q := p[i..];
      FirstPasses(q);
      var width := CharLenAt(p, i);
      if width == 0 { return false; }
      var k := 1;
      while k < width
        invariant 1 <= k <= width && Passes(q, k)
      {
        var have := i + k < |p|;
        var b := if have then p[i + k] else past;
        if !(have && ByteOk(lead, k, b)) { return false; }
        k := k + 1;
      }
      NextChar(q, width);
      assert q[width..] == p[i + width..];
      i := i + width;
    }
    ok := true;
  }
}
