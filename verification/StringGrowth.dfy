/** What building a string piece by piece costs: the buffers asked for over its life are
    together no more than four times its final length. */
module StringGrowth {
  import opened Arith
  import opened StringHeap

  datatype Piece = Bytes(view: View) | Char(ch: Byte)

  function Length(p: Piece): nat {
    match p
    case Bytes(v) => ViewLen(v)
    case Char(_) => 1
  }

  function Extend(h: Heap, s: Header, p: Piece, c: Choice): (Heap, Header) {
    match p
    case Bytes(v) => Append(h, s, v, c)
    case Char(ch) => Push(h, s, ch, c)
  }

  /** The pieces one after the other, with the number of times the buffer was replaced and the
      bytes asked for in doing so. */
  function ExtendAll(h: Heap, s: Header, ps: seq<(Piece, Choice)>): (Heap, Header, nat, nat) {
    if ps == [] then (h, s, 0, 0)
    else
      var n := |ps| - 1;
      var (h1, s1, times, bytes) := ExtendAll(h, s, ps[..n]);
      var (h2, s2) := Extend(h1, s1, ps[n].0, ps[n].1);
      if s2.cap == s1.cap then (h2, s2, times, bytes) else (h2, s2, times + 1, bytes + s2.cap)
  }

  function Total(ps: seq<(Piece, Choice)>): nat {
    if ps == [] then 0 else Total(ps[..|ps| - 1]) + Length(ps[|ps| - 1].0)
  }

  /** The buffer stays as it is where text and terminator fit, and is at least doubled where they
      do not, but never beyond twice what is needed. */
  lemma ExtendGrows(h: Heap, s: Header, p: Piece, c: Choice)
    ensures var r := Extend(h, s, p, c).1;
      && r.len == s.len + Length(p)
      && (r.len + 1 <= s.cap ==> r.cap == s.cap)
      && (r.len + 1 > s.cap ==> r.len + 1 <= r.cap <= 2 * (r.len + 1) && 2 * s.cap <= r.cap)
  {
    hide Realloc, Move, Write;
  }

  /** From the empty string: the buffer is replaced a number of times that is logarithmic in the
      final length, and the bytes asked for are linear in it. */
  lemma {:induction false} BuildingIsLinear(h: Heap, ps: seq<(Piece, Choice)>)
    ensures var (_, r, times, bytes) := ExtendAll(h, NULL, ps);
      && r.len == Total(ps)
      && (ps != [] ==> r.len + 1 <= r.cap <= 2 * (r.len + 1))
      && bytes <= 2 * r.cap <= 4 * (r.len + 1)
      && (ps != [] ==> Pow2(times) <= 2 * r.cap <= 4 * (r.len + 1))
    decreases |ps|
  {
    if ps != [] {
      var n := |ps| - 1;
      BuildingIsLinear(h, ps[..n]);
      var (h1, s1, _, _) := ExtendAll(h, NULL, ps[..n]);
      ExtendGrows(h1, s1, ps[n].0, ps[n].1);
      hide Extend;
    }
  }
}
