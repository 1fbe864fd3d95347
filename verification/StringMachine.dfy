/** The string routines as they run: blocks are allocated, moved, written and freed one
    instruction after another. */
module StringMachine {
  import opened Options
  import H = StringHeap

  class Machine {
    var live: map<nat, seq<H.Byte>>
    var freed: seq<nat>
    var next: nat
    var ok: bool

    constructor ()
      ensures Now() == H.Heap(map[], [], 0, true)
    {
      live, freed, next, ok := map[], [], 0, true;
    }

    function Now(): H.Heap
      reads this
    {
      H.Heap(live, freed, next, ok)
    }

    method Malloc(n: nat, c: H.Choice) returns (b: nat)
      modifies this
      ensures (Now(), b) == H.Malloc(old(Now()), n, c)
    {
      b := next;
      live := live[b := seq(n, _ => c.junk)];
      next := next + 1;
    }

    method Free(p: Option<nat>)
      modifies this
      ensures Now() == H.Free(old(Now()), p)
    {
      if p == None { return; }
      if p.value in live {
        live, freed := live - {p.value}, freed + [p.value];
      } else {
        ok := false;
      }
    }

    method Realloc(p: Option<nat>, n: nat, c: H.Choice) returns (b: nat)
      modifies this
      ensures (Now(), b) == H.Realloc(old(Now()), p, n, c)
    {
      if p == None {
        b := Malloc(n, c);
        return;
      }
      b := p.value;
      if b !in live {
        ok := false;
      } else if c.moves {
        var bytes := H.Resized(live[b], n, c.junk);
        live, freed := live - {b}, freed + [b];
        b := next;
        live, next := live[b := bytes], next + 1;
      } else {
        live := live[b := H.Resized(live[b], n, c.junk)];
      }
    }

    method Write(b: nat, off: nat, bytes: seq<H.Byte>)
      modifies this
      ensures Now() == H.Write(old(Now()), b, off, bytes)
    {
      if b in live && off + |bytes| <= |live[b]| {
        live := live[b := live[b][..off] + bytes + live[b][off + |bytes|..]];
      } else {
        ok := false;
      }
    }

    method Move(b: nat, off: nat, v: H.View)
      modifies this
      ensures Now() == H.Move(old(Now()), b, off, v)
    {
      var bytes := H.Read(Now(), v);
      if bytes == None {
        ok := false;
      } else {
        Write(b, off, bytes.value);
      }
    }

    /** string.new and cmm.string.copy. */
    method StringCopy(v: H.View, c: H.Choice) returns (r: H.Header)
      modifies this
      ensures (Now(), r) == H.Copy(old(Now()), v, c)
    {
      hide H.Move, H.Write;
      var slen := H.ViewLen(v);
      var cap := if slen + 1 > 1 then slen + 1 else 1;
      var nptr := Malloc(cap, c);
      Move(nptr, 0, v);
      Write(nptr, slen, [0]);
      r := H.Header(Some(nptr), slen, cap);
    }

    /** cmm.string.assign: nothing when both share a buffer, otherwise free and copy. */
    method StringAssign(dst: H.Header, src: H.Header, c: H.Choice) returns (r: H.Header)
      modifies this
      ensures (Now(), r) == H.Assign(old(Now()), dst, src, c)
    {
      hide H.Copy, H.Free;
      if dst.ptr == src.ptr { return dst; }
      FreeIfAny(dst.ptr);
      r := StringCopy(H.ViewOf(src), c);
    }

    method FreeIfAny(p: Option<nat>)
      modifies this
      ensures Now() == H.Free(old(Now()), p)
    {
      if p != None { Free(p); }
    }

    method AssignFresh(dst: H.Header, fresh_: H.Header) returns (r: H.Header)
      modifies this
      ensures (Now(), r) == H.AssignFresh(old(Now()), dst, fresh_)
    {
      FreeIfAny(dst.ptr);
      r := fresh_;
    }

    method Reserve(s: H.Header, need: nat, c: H.Choice) returns (p: Option<nat>, cap: nat)
      modifies this
      ensures (Now(), p, cap) == H.Reserve(old(Now()), s, need, c)
    {
      hide H.Realloc;
      p, cap := s.ptr, s.cap;
      if need + 1 > cap {
        var doubled := cap * 2;
        var grown := if doubled > need + 1 then doubled else need + 1;
        var rptr := Realloc(s.ptr, grown, c);
        p, cap := Some(rptr), grown;
      }
    }

    method StringAppend(s: H.Header, v: H.View, c: H.Choice) returns (r: H.Header)
      modifies this
      ensures (Now(), r) == H.Append(old(Now()), s, v, c)
    {
      hide H.Reserve, H.Move, H.Write;
      var need := s.len + H.ViewLen(v);
      var p, cap := Reserve(s, need, c);
      r := H.Header(p, need, cap);
      if p == None {
        ok := false;
        return;
      }
      Move(p.value, s.len, if H.SelfAlias(s, v) then H.Into(p.value, 0, H.ViewLen(v)) else v);
      Write(p.value, need, [0]);
    }

    method StringPush(s: H.Header, ch: H.Byte, c: H.Choice) returns (r: H.Header)
      modifies this
      ensures (Now(), r) == H.Push(old(Now()), s, ch, c)
    {
      hide H.Reserve, H.Write;
      var need := s.len + 1;
      var p, cap := Reserve(s, need, c);
      r := H.Header(p, need, cap);
      if p == None {
        ok := false;
        return;
      }
      Write(p.value, s.len, [ch]);
      Write(p.value, need, [0]);
    }

    /** destroy and the release at the end of a scope: free, then zero the header. */
    method StringDestroy(s: H.Header) returns (r: H.Header)
      modifies this
      ensures (Now(), r) == H.Destroy(old(Now()), s)
    {
      Free(s.ptr);
      r := H.NULL;
    }
  }
}
