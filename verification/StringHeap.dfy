/** Owning strings over a heap with malloc, free and realloc. Every routine is written as the
    emitted code runs it; misuse of the heap is recorded, never excluded. */
module StringHeap {
  import opened Options

  type Byte = bv8

  /** Live blocks by number, the log of frees, and whether every access so far was legal.
      Block numbers are never reused. */
  datatype Heap = Heap(live: map<nat, seq<Byte>>, freed: seq<nat>, next: nat, ok: bool)

  /** A string value {ptr, len, cap}; None is the null pointer. */
  datatype Header = Header(ptr: Option<nat>, len: nat, cap: nat)

  const NULL: Header := Header(None, 0, 0)

  /** What the allocator may choose: whether realloc moves the block, and fresh contents. */
  datatype Choice = Choice(moves: bool, junk: Byte)

  /** A str view: bytes outside the heap, or a range of a block. */
  datatype View = Outside(bytes: seq<Byte>) | Into(block: nat, off: nat, len: nat)

  function Fail(h: Heap): Heap {
    h.(ok := false)
  }

  function Free(h: Heap, p: Option<nat>): Heap {
    match p
    case None => h
    case Some(b) => if b in h.live then h.(live := h.live - {b}, freed := h.freed + [b]) else Fail(h)
  }

  function Malloc(h: Heap, n: nat, c: Choice): (Heap, nat) {
    (h.(live := h.live[h.next := seq(n, _ => c.junk)], next := h.next + 1), h.next)
  }

  /** The part of the old block that fits is kept, the rest is arbitrary. */
  function Resized(old_: seq<Byte>, n: nat, junk: Byte): (r: seq<Byte>)
    ensures |r| == n
  {
    if |old_| >= n then old_[..n] else old_ + seq(n - |old_|, _ => junk)
  }

  function Realloc(h: Heap, p: Option<nat>, n: nat, c: Choice): (Heap, nat) {
    match p
    case None => Malloc(h, n, c)
    case Some(b) =>
      if b !in h.live then (Fail(h), b)
      else if c.moves then
        (Heap((h.live - {b})[h.next := Resized(h.live[b], n, c.junk)], h.freed + [b], h.next + 1, h.ok), h.next)
      else (h.(live := h.live[b := Resized(h.live[b], n, c.junk)]), b)
  }

  function Read(h: Heap, v: View): Option<seq<Byte>> {
    match v
    case Outside(bytes) => Some(bytes)
    case Into(b, off, len) => if b in h.live && off + len <= |h.live[b]| then Some(h.live[b][off..off + len]) else None
  }

  function Write(h: Heap, b: nat, off: nat, bytes: seq<Byte>): Heap {
    if b in h.live && off + |bytes| <= |h.live[b]|
    then h.(live := h.live[b := h.live[b][..off] + bytes + h.live[b][off + |bytes|..]])
    else Fail(h)
  }

  /** memcpy and memmove: the source is read as it was before the write. */
  function Move(h: Heap, b: nat, off: nat, v: View): Heap {
    match Read(h, v)
    case None => Fail(h)
    case Some(bytes) => Write(h, b, off, bytes)
  }

  function ViewLen(v: View): nat {
    match v
    case Outside(bytes) => |bytes|
    case Into(_, _, len) => len
  }

  /** The view of a string's contents; of a null header, the empty view. */
  function ViewOf(s: Header): View {
    if s.ptr == None then Outside([]) else Into(s.ptr.value, 0, s.len)
  }

  // ---- the routines ----

  /** string.new and cmm.string.copy: cap = max(len + 1, 1), contents and a terminator. */
  function Copy(h: Heap, v: View, c: Choice): (Heap, Header) {
    var slen := ViewLen(v);
    var cap := if slen + 1 > 1 then slen + 1 else 1;
    var (h1, b) := Malloc(h, cap, c);
    (Write(Move(h1, b, 0, v), b, slen, [0]), Header(Some(b), slen, cap))
  }

  /** cmm.string.assign. */
  function Assign(h: Heap, dst: Header, src: Header, c: Choice): (Heap, Header) {
    if dst.ptr == src.ptr then (h, dst)
    else Copy(Free(h, dst.ptr), ViewOf(src), c)
  }

  /** Assignment of a fresh value: the old buffer is freed and the header taken over. */
  function AssignFresh(h: Heap, dst: Header, fresh_: Header): (Heap, Header) {
    (Free(h, dst.ptr), fresh_)
  }

  /** Grow the buffer when `need` bytes and a terminator do not fit. */
  function Reserve(h: Heap, s: Header, need: nat, c: Choice): (Heap, Option<nat>, nat) {
    if need + 1 > s.cap then
      var grown := if 2 * s.cap > need + 1 then 2 * s.cap else need + 1;
      var (h1, b) := Realloc(h, s.ptr, grown, c);
      (h1, Some(b), grown)
    else (h, s.ptr, s.cap)
  }

  /** Does the source start inside the receiver's own buffer? */
  predicate SelfAlias(s: Header, v: View) {
    v.Into? && Some(v.block) == s.ptr && v.off < s.cap
  }

  /** A source inside the receiver is projected onto the start of the buffer. */
  function Append(h: Heap, s: Header, v: View, c: Choice): (Heap, Header) {
    var need := s.len + ViewLen(v);
    var (h1, p, cap) := Reserve(h, s, need, c);
    match p
    case None => (Fail(h1), Header(p, need, cap))
    case Some(b) =>
      var src := if SelfAlias(s, v) then Into(b, 0, ViewLen(v)) else v;
      (Write(Move(h1, b, s.len, src), b, need, [0]), Header(p, need, cap))
  }

  function Push(h: Heap, s: Header, ch: Byte, c: Choice): (Heap, Header) {
    var need := s.len + 1;
    var (h1, p, cap) := Reserve(h, s, need, c);
    match p
    case None => (Fail(h1), Header(p, need, cap))
    case Some(b) => (Write(Write(h1, b, s.len, [ch]), b, need, [0]), Header(p, need, cap))
  }

  function Destroy(h: Heap, s: Header): (Heap, Header) {
    (Free(h, s.ptr), NULL)
  }

  // ---- a sound header ----

  predicate HeapSound(h: Heap) {
    && h.ok
    && (forall b <- h.live :: b < h.next && b !in h.freed)
    && (forall b :: 0 <= b < h.next ==> b in h.live || b in h.freed)
    && (forall i :: 0 <= i < |h.freed| ==> h.freed[i] < h.next)
    && (forall i, j :: 0 <= i < j < |h.freed| ==> h.freed[i] != h.freed[j])
  }

  /** A null header is empty; any other owns a live block of exactly cap bytes with room for
      the contents and the terminator. */
  predicate Owns(h: Heap, s: Header) {
    match s.ptr
    case None => s.len == 0 && s.cap == 0
    case Some(b) => b in h.live && |h.live[b]| == s.cap && s.len + 1 <= s.cap && h.live[b][s.len] == 0
  }

  function Text(h: Heap, s: Header): (r: seq<Byte>)
    requires Owns(h, s)
    ensures |r| == s.len
  {
    match s.ptr
    case None => []
    case Some(b) => h.live[b][..s.len]
  }

  /** Two headers share no block. */
  predicate Apart(s: Header, r: Header) {
    s.ptr.Some? ==> s.ptr != r.ptr
  }

  /** The blocks other than the given one are the same before and after. */
  ghost predicate OthersKept(h: Heap, t: Heap, mine: Option<nat>) {
    forall b :: Some(b) != mine && b < h.next ==>
      (b in h.live <==> b in t.live) && (b in h.live ==> h.live[b] == t.live[b])
  }

  /** What a routine does to the string it works on: the heap stays sound, the result owns
      its block and holds `text`, the receiver's old block is freed unless it is the result's
      and nothing else changes. */
  ghost predicate Becomes(h: Heap, s: Header, t: Heap, r: Header, text: seq<Byte>) {
    && HeapSound(t) && Owns(t, r) && Text(t, r) == text
    && OthersKept(h, t, s.ptr) && h.next <= t.next
    && (forall b <- t.live :: b in h.live || Some(b) == r.ptr)
    && (s.ptr.Some? && s.ptr.value in t.live ==> s.ptr == r.ptr)
    && (r.ptr.Some? ==> r.ptr == s.ptr || r.ptr.value >= h.next)
  }

  lemma FreeSound(h: Heap, s: Header)
    requires HeapSound(h) && Owns(h, s)
    ensures var t := Free(h, s.ptr);
      && HeapSound(t) && t.next == h.next && (forall b :: b in t.live <==> b in h.live && Some(b) != s.ptr)
      && (forall b <- t.live :: t.live[b] == h.live[b])
  {
  }

  lemma DestroyBecomes(h: Heap, s: Header)
    requires HeapSound(h) && Owns(h, s)
    ensures var (t, r) := Destroy(h, s); Becomes(h, s, t, r, []) && r == NULL
  {
    FreeSound(h, s);
  }

  /** Between malloc or realloc and the final store: the block is there, long enough and
      holds the old contents. */
  ghost predicate Opened(h: Heap, s: Header, t: Heap, b: nat, cap: nat, text: seq<Byte>) {
    && HeapSound(t) && b in t.live && |t.live[b]| == cap && |text| <= cap && t.live[b][..|text|] == text
    && OthersKept(h, t, s.ptr) && h.next <= t.next
    && (forall x <- t.live :: x in h.live || x == b)
    && (s.ptr.Some? && s.ptr.value in t.live ==> s.ptr.value == b)
    && (Some(b) == s.ptr || b >= h.next)
  }

  lemma WriteOpened(h: Heap, s: Header, t: Heap, b: nat, cap: nat, text: seq<Byte>, more: seq<Byte>)
    requires Opened(h, s, t, b, cap, text) && |text| + |more| <= cap
    ensures Opened(h, s, Write(t, b, |text|, more), b, cap, text + more)
  {
    var u := Write(t, b, |text|, more);
    assert u.live[b][..|text| + |more|] == text + more;
  }

  /** The terminator completes the string. */
  lemma Terminate(h: Heap, s: Header, t: Heap, b: nat, cap: nat, text: seq<Byte>)
    requires Opened(h, s, t, b, cap, text) && |text| + 1 <= cap
    ensures Becomes(h, s, Write(t, b, |text|, [0]), Header(Some(b), |text|, cap), text)
  {
    WriteOpened(h, s, t, b, cap, text, [0]);
    var u := Write(t, b, |text|, [0]);
    assert (text + [0])[|text|] == 0;
    assert u.live[b][..|text|] == u.live[b][..|text| + 1][..|text|] == text;
  }

  lemma MallocOpened(h: Heap, s: Header, n: nat, c: Choice)
    requires HeapSound(h) && (s.ptr.Some? ==> s.ptr.value !in h.live)
    ensures var (t, b) := Malloc(h, n, c); Opened(h, s, t, b, n, [])
  {
  }

  /** A fresh copy of the viewed bytes. */
  lemma CopyBecomes(h: Heap, s: Header, v: View, c: Choice)
    requires HeapSound(h) && Read(h, v).Some? && (s.ptr.Some? ==> s.ptr.value !in h.live)
    ensures var (t, r) := Copy(h, v, c); Becomes(h, s, t, r, Read(h, v).value)
  {
    var cap := ViewLen(v) + 1;
    var (h1, b) := Malloc(h, cap, c);
    var bytes := Read(h, v).value;
    MallocOpened(h, s, cap, c);
    CopyIs(h, v, c);
    hide *;
    var none: seq<Byte> := [];
    assert none + bytes == bytes;
    Complete(h, s, h1, b, cap, none, bytes);
  }

  lemma CopyIs(h: Heap, v: View, c: Choice)
    requires HeapSound(h) && Read(h, v).Some?
    ensures var cap := ViewLen(v) + 1; var (h1, b) := Malloc(h, cap, c); var bytes := Read(h, v).value;
      && |bytes| == ViewLen(v)
      && Copy(h, v, c) == (Write(Write(h1, b, 0, bytes), b, |bytes|, [0]), Header(Some(b), |bytes|, cap))
  {
    var (h1, b) := Malloc(h, ViewLen(v) + 1, c);
    assert Read(h1, v) == Read(h, v);
    hide Write;
  }

  /** Assignment of a live value: an independent copy, the replaced buffer freed once, and
      nothing at all when both share a buffer. */
  lemma AssignBecomes(h: Heap, dst: Header, src: Header, c: Choice)
    requires HeapSound(h) && Owns(h, dst) && Owns(h, src)
    requires dst == src || Apart(dst, src)
    ensures var (t, r) := Assign(h, dst, src, c); Becomes(h, dst, t, r, Text(h, src))
  {
    if dst.ptr != src.ptr {
      var h1 := Free(h, dst.ptr);
      FreeSound(h, dst);
      assert Read(h1, ViewOf(src)) == Some(Text(h, src));
      CopyBecomes(h1, dst, ViewOf(src), c);
      var (t, r) := Assign(h, dst, src, c);
      hide HeapSound;
      Rebase(h, dst, h1, t, r, Text(h, src));
    }
  }

  lemma Rebase(h: Heap, s: Header, h1: Heap, t: Heap, r: Header, text: seq<Byte>)
    requires Becomes(h1, s, t, r, text) && h1.next == h.next
      && (forall b <- h1.live :: b in h.live && h1.live[b] == h.live[b])
    requires forall b :: b in h1.live <==> b in h.live && Some(b) != s.ptr
    ensures Becomes(h, s, t, r, text)
  {
    hide HeapSound, Owns, Text;
  }

  lemma ReallocOpened(h: Heap, s: Header, n: nat, c: Choice)
    requires HeapSound(h) && Owns(h, s) && s.len <= n && s.cap <= n
    ensures var (t, b) := Realloc(h, s.ptr, n, c);
      Opened(h, s, t, b, n, Text(h, s)) && (Some(b) == s.ptr || (s.ptr.Some? ==> s.ptr.value !in t.live))
  {
    if s.ptr.Some? {
      var old_ := h.live[s.ptr.value];
      assert Resized(old_, n, c.junk)[..s.len] == old_[..s.len];
      hide Resized;
    }
  }

  lemma ReserveOpened(h: Heap, s: Header, need: nat, c: Choice)
    requires HeapSound(h) && Owns(h, s) && s.len <= need
    ensures var (t, p, cap) := Reserve(h, s, need, c);
      && p.Some? && need + 1 <= cap && Opened(h, s, t, p.value, cap, Text(h, s))
      && (p == s.ptr || (s.ptr.Some? ==> s.ptr.value !in t.live))
  {
    if need + 1 > s.cap {
      ReallocOpened(h, s, if 2 * s.cap > need + 1 then 2 * s.cap else need + 1, c);
      hide Opened, HeapSound, Owns, Text, Realloc;
    }
  }

  /** What append adds: the viewed bytes, or, for a view into the receiver, as many bytes
      from the start of the receiver. */
  function Appended(h: Heap, s: Header, v: View): seq<Byte>
    requires Owns(h, s) && Read(h, v).Some? && InContents(s, v)
  {
    if SelfAlias(s, v) then Text(h, s)[..ViewLen(v)] else Read(h, v).value
  }

  /** A view into the receiver lies within its contents. */
  predicate InContents(s: Header, v: View) {
    v.Into? && Some(v.block) == s.ptr ==> v.off + v.len <= s.len
  }

  lemma AppendBecomes(h: Heap, s: Header, v: View, c: Choice)
    requires HeapSound(h) && Owns(h, s) && Read(h, v).Some? && InContents(s, v)
    ensures var (t, r) := Append(h, s, v, c); Becomes(h, s, t, r, Text(h, s) + Appended(h, s, v))
  {
    hide *;
    var need := s.len + ViewLen(v);
    var (t, p, cap) := Reserve(h, s, need, c);
    ReserveOpened(h, s, need, c);
    SourceReads(h, s, v, t, p.value, cap);
    AppendIs(h, s, v, c, Appended(h, s, v));
    Complete(h, s, t, p.value, cap, Text(h, s), Appended(h, s, v));
  }

  lemma Complete(h: Heap, s: Header, t: Heap, b: nat, cap: nat, text: seq<Byte>, more: seq<Byte>)
    requires Opened(h, s, t, b, cap, text) && |text| + |more| + 1 <= cap
    ensures var need := |text| + |more|;
      Becomes(h, s, Write(Write(t, b, |text|, more), b, need, [0]), Header(Some(b), need, cap), text + more)
  {
    hide *;
    WriteOpened(h, s, t, b, cap, text, more);
    Terminate(h, s, Write(t, b, |text|, more), b, cap, text + more);
  }

  function Source(s: Header, v: View, b: nat): View {
    if SelfAlias(s, v) then Into(b, 0, ViewLen(v)) else v
  }

  /** After growing, the source still reads as it did before, or as the receiver's start. */
  lemma SourceReads(h: Heap, s: Header, v: View, t: Heap, b: nat, cap: nat)
    requires HeapSound(h) && Owns(h, s) && Read(h, v).Some? && InContents(s, v)
    requires Opened(h, s, t, b, cap, Text(h, s))
    ensures Read(t, Source(s, v, b)) == Some(Appended(h, s, v)) && |Appended(h, s, v)| == ViewLen(v)
  {
    if SelfAlias(s, v) {
      assert t.live[b][0..v.len] == t.live[b][..s.len][..v.len];
    } else if v.Into? {
      assert Some(v.block) != s.ptr;
    }
  }

  lemma AppendIs(h: Heap, s: Header, v: View, c: Choice, more: seq<Byte>)
    requires var (t, p, cap) := Reserve(h, s, s.len + ViewLen(v), c);
      p.Some? && Read(t, Source(s, v, p.value)) == Some(more) && |more| == ViewLen(v)
    ensures var (t, p, cap) := Reserve(h, s, s.len + ViewLen(v), c); var need := s.len + ViewLen(v);
      Append(h, s, v, c) == (Write(Write(t, p.value, s.len, more), p.value, need, [0]), Header(p, need, cap))
  {
    hide Reserve, Write, Read;
  }

  /** The result of appending a view is the contents followed by the viewed bytes exactly
      when the view is outside the receiver or repeats its beginning; a view into the middle
      of the receiver is replaced by the receiver's first bytes. */
  lemma AppendCorrectIff(h: Heap, s: Header, v: View, c: Choice)
    requires HeapSound(h) && Owns(h, s) && Read(h, v).Some? && InContents(s, v)
    ensures var (t, r) := Append(h, s, v, c);
      && Owns(t, r)
      && (Text(t, r) == Text(h, s) + Read(h, v).value
          <==> !SelfAlias(s, v) || Text(h, s)[..v.len] == Text(h, s)[v.off..v.off + v.len])
  {
    AppendBecomes(h, s, v, c);
    hide HeapSound, Append;
    var x, y := Appended(h, s, v), Read(h, v).value;
    assert (Text(h, s) + x)[s.len..] == x && (Text(h, s) + y)[s.len..] == y;
    if SelfAlias(s, v) {
      var block := h.live[v.block];
      assert block[..s.len][v.off..v.off + v.len] == block[v.off..v.off + v.len];
    }
  }

  /** A string "ab" to which its second byte is appended becomes "aba". */
  lemma AppendsBeginning(a: Byte, b: Byte, c: Choice)
    requires a != b
    ensures var h := Heap(map[0 := [a, b, 0]], [], 1, true); var s, v := Header(Some(0), 2, 3), Into(0, 1, 1);
      var (t, r) := Append(h, s, v, c);
      && HeapSound(h) && Owns(h, s) && Read(h, v) == Some([b])
      && Owns(t, r) && Text(t, r) == [a, b, a]
  {
    var h := Heap(map[0 := [a, b, 0]], [], 1, true);
    var s, v := Header(Some(0), 2, 3), Into(0, 1, 1);
    assert h.live[0][1..2] == [b] && Text(h, s) == [a, b] && Text(h, s)[..1] == [a];
    AppendBecomes(h, s, v, c);
    hide Append;
    assert [a, b] + [a] == [a, b, a];
  }

  lemma PushBecomes(h: Heap, s: Header, ch: Byte, c: Choice)
    requires HeapSound(h) && Owns(h, s)
    ensures var (t, r) := Push(h, s, ch, c); Becomes(h, s, t, r, Text(h, s) + [ch])
  {
    hide *;
    var (t, p, cap) := Reserve(h, s, s.len + 1, c);
    ReserveOpened(h, s, s.len + 1, c);
    PushIs(h, s, ch, c);
    Complete(h, s, t, p.value, cap, Text(h, s), [ch]);
  }

  lemma PushIs(h: Heap, s: Header, ch: Byte, c: Choice)
    requires Reserve(h, s, s.len + 1, c).1.Some?
    ensures var (t, p, cap) := Reserve(h, s, s.len + 1, c);
      Push(h, s, ch, c) == (Write(Write(t, p.value, s.len, [ch]), p.value, s.len + 1, [0]), Header(p, s.len + 1, cap))
  {
    hide Reserve, Write;
  }

  /** A fresh value is built before the old buffer of its destination is freed. */
  lemma AssignFreshBecomes(h: Heap, dst: Header, v: View, c: Choice)
    requires HeapSound(h) && Owns(h, dst) && Read(h, v).Some?
    ensures var (h1, r) := Copy(h, v, c); var (t, r1) := AssignFresh(h1, dst, r);
      Becomes(h, dst, t, r1, Read(h, v).value)
  {
    CopyBecomes(h, NULL, v, c);
    var (h1, r) := Copy(h, v, c);
    hide Copy;
    FreeSound(h1, dst);
  }
}
