/** The format routines as loops over an index. */
module FormatRoutines {
  import opened Decimals
  import opened Options
  import opened FormatSpec
  import opened FormatScan

  method SkipDigits(s: string, from: nat) returns (i: nat)
    requires from <= |s|
    ensures i == from + DigitCount(s[from..]) && from <= i <= |s|
  {
    i := from;
    while i < |s| && IsDigit(s[i])
      invariant from <= i <= |s| && DigitCount(s[from..]) == i - from + DigitCount(s[i..])
    {
      assert s[i..][1..] == s[i + 1..];
      i := i + 1;
    }
  }

  method FillAt(spec: string) returns (fill: char, align: char, i: nat)
    ensures i <= |spec| && FillAlign(spec) == (fill, align, spec[i..])
  {
    fill, align, i := ' ', NONE, 0;
    if |spec| > 0 && IsAlign(spec[0]) {
      align, i := spec[0], 1;
    } else if |spec| > 1 && spec[0] != '{' && spec[0] != '}' && spec[0] != ':' && !IsDigit(spec[0])
      && IsAlign(spec[1]) {
      fill, align, i := spec[0], spec[1], 2;
    }
  }

  method WidthAt(spec: string, from: nat) returns (width: nat, i: nat)
    requires from <= |spec|
    ensures from <= i <= |spec| && Width(spec[from..]) == (width, spec[i..])
  {
    hide DigitCount;
    i := SkipDigits(spec, from);
    assert spec[from..][..i - from] == spec[from..i] && spec[from..][i - from..] == spec[i..];
    width := 0;
    if i > from { width := Value(spec[from..i]); }
  }

  method PrecisionAt(spec: string, from: nat) returns (ok: bool, precision: Option<nat>, i: nat)
    requires from <= |spec|
    ensures i <= |spec| && Precision(spec[from..]) == if ok then Some((precision, spec[i..])) else None
  {
    hide DigitCount;
    ok, precision, i := true, None, from;
    if i < |spec| && spec[i] == '.' {
      i := i + 1;
      var pStart := i;
      i := SkipDigits(spec, i);
      assert spec[from..][1..] == spec[pStart..];
      if i == pStart { return false, None, i; }
      assert spec[pStart..][..i - pStart] == spec[pStart..i] && spec[pStart..][i - pStart..] == spec[i..];
      precision := Some(Value(spec[pStart..i]));
    }
  }

  method ParsePrintSpec(spec: string) returns (r: Option<Spec>)
    ensures r == ParseSpec(spec)
  {
    hide FillAlign, Width, Precision, Value, DigitCount;
    var n := |spec|;
    var fill, align, i := FillAt(spec);
    var sign, zero := NONE, false;
    ghost var s1 := spec[i..];
    if i < n && IsSign(spec[i]) { sign, i := spec[i], i + 1; }
    ghost var s2 := spec[i..];
    assert Sign(s1) == (sign, s2);
    if i < n && spec[i] == '0' { zero, i := true, i + 1; }
    ghost var s3 := spec[i..];
    assert Zero(s2) == (zero, s3);
    var width;
    width, i := WidthAt(spec, i);
    var ok, precision;
    ghost var s4 := spec[i..];
    ok, precision, i := PrecisionAt(spec, i);
    if !ok { return None; }
    hide Sign, Zero, IsDigit;
    if zero && i < n && (spec[i] == '<' || spec[i] == '^') { return None; }
    var kind := NONE;
    ghost var s5 := spec[i..];
    if i < n {
      if !IsType(spec[i]) { return None; }
      kind, i := spec[i], i + 1;
    }
    if i != n { return None; }
    assert TypeOf(s5) == Some(kind);
    var out := Spec(fill, align, sign, zero, width, precision, kind);
    if Conflicts(out) { return None; }
    r := Some(out);
  }

  /** The compile-time check: the printf format and the parsed specifications, or the first
      fault met. */
  method BuildPrintFormat(literal: string, kinds: seq<Kind>, newline: bool) returns (r: Built)
    ensures r == match Build(literal, kinds)
                 case Fine(f, specs) => Fine(if newline then f + "\n" else f, specs)
                 case Faulty(why) => Faulty(why)
  {
    hide Find, ParseSpec, ToPrintf, DefaultConversion;
    var outFormat, outSpecs := "", [];
    var slot, i := 0, 0;
    assert literal[0..] == literal && kinds[0..] == kinds;
    StartAll(Build(literal, kinds));
    while i < |literal|
      invariant 0 <= i <= |literal| && 0 <= slot <= |kinds|
      invariant Build(literal, kinds) == All(outFormat, outSpecs, Build(literal[i..], kinds[slot..]))
    {
      var c := literal[i];
      if c == '{' {
        if i + 1 < |literal| && literal[i + 1] == '{' {
          assert literal[i..][2..] == literal[i + 2..];
          AllText(outFormat, outSpecs, "{", Build(literal[i + 2..], kinds[slot..]));
          outFormat := outFormat + "{";
          i := i + 2;
          continue;
        }
        ghost var at := i;
        i := i + 1;
        var spec := "";
        if i < |literal| && literal[i] == ':' {
          i := i + 1;
          spec, i := SpecText(literal, i);
        }
        if i >= |literal| || literal[i] != '}' { return Faulty(ArgCount); }
        i := i + 1;
        if slot >= |kinds| { return Faulty(ArgCount); }
        SlotAt(literal, at, i, kinds[slot..], spec);
        assert kinds[slot..][1..] == kinds[slot + 1..];
        var conversion;
        var parsed := DEFAULT;
        if spec == "" {
          conversion := DefaultConversion(kinds[slot]);
        } else {
          var p := ParsePrintSpec(spec);
          if p == None { return Faulty(SpecSyntax); }
          parsed := p.value;
          var converted := ToPrintf(kinds[slot], parsed);
          if converted == None { return Faulty(SpecType); }
          conversion := converted.value.0;
        }
        AllSlot(outFormat, outSpecs, conversion, parsed, Build(literal[i..], kinds[slot + 1..]));
        outFormat, outSpecs := outFormat + conversion, outSpecs + [parsed];
        slot := slot + 1;
      } else if c == '}' {
        if i + 1 < |literal| && literal[i + 1] == '}' {
          assert literal[i..][2..] == literal[i + 2..];
          AllText(outFormat, outSpecs, "}", Build(literal[i + 2..], kinds[slot..]));
          outFormat := outFormat + "}";
          i := i + 2;
          continue;
        }
        return Faulty(ArgCount);
      } else {
        var text := if c == '%' then "%%" else [c];
        assert literal[i..][1..] == literal[i + 1..];
        AllText(outFormat, outSpecs, text, Build(literal[i + 1..], kinds[slot..]));
        outFormat := outFormat + text;
        i := i + 1;
      }
    }
    if slot != |kinds| { return Faulty(ArgCount); }
    assert outFormat + "" == outFormat && outSpecs + [] == outSpecs;
    if newline { outFormat := outFormat + "\n"; }
    r := Fine(outFormat, outSpecs);
  }

  /** What was built so far in front of what the rest builds. */
  ghost function All(f: string, specs: seq<Spec>, rest: Built): Built {
    if rest.Fine? then Fine(f + rest.format, specs + rest.specs) else rest
  }

  lemma StartAll(rest: Built)
    ensures All("", [], rest) == rest
  {
    if rest.Fine? { assert "" + rest.format == rest.format && [] + rest.specs == rest.specs; }
  }

  lemma AllText(f: string, specs: seq<Spec>, text: string, rest: Built)
    ensures All(f, specs, Before(text, rest)) == All(f + text, specs, rest)
  {
    if rest.Fine? { Regroup(f, text, rest.format); }
  }

  lemma AllSlot(f: string, specs: seq<Spec>, conv: string, spec: Spec, rest: Built)
    ensures All(f, specs, WithSlot(conv, spec, rest)) == All(f + conv, specs + [spec], rest)
  {
    if rest.Fine? {
      Regroup(f, conv, rest.format);
      Regroup(specs, [spec], rest.specs);
    }
  }

  /** The text up to the next '}'. */
  method SpecText(s: string, from: nat) returns (spec: string, i: nat)
    requires from <= |s|
    ensures i == from + Find(s[from..]) && i <= |s| && spec == s[from..i]
  {
    spec, i := "", from;
    while i < |s| && s[i] != '}'
      invariant from <= i <= |s| && Find(s[from..]) == i - from + Find(s[i..]) && spec == s[from..i]
    {
      assert s[i..][1..] == s[i + 1..];
      spec := spec + [s[i]];
      i := i + 1;
    }
  }

  lemma SlotAt(s: string, at: nat, end: nat, kinds: seq<Kind>, spec: string)
    requires at + 1 < end <= |s| && s[at] == '{' && s[at + 1] != '{' && s[end - 1] == '}' && kinds != []
    requires if s[at + 1] == ':' then end == at + 3 + Find(s[at + 2..]) && spec == s[at + 2..end - 1]
             else end == at + 2 && spec == ""
    ensures Build(s[at..], kinds)
         == match Convert(kinds[0], spec)
            case Bad(why) => Faulty(why)
            case Good(conv, p) => WithSlot(conv, p, Build(s[end..], kinds[1..]))
  {
    hide Convert, Find;
    var t := s[at..];
    assert t[2..] == s[at + 2..];
    var n := if t[1] == ':' then 1 + Find(t[2..]) else 0;
    assert t[2 + n..] == s[end..] && t[1 + n] == '}';
    assert n > 0 ==> t[2..1 + n] == spec;
  }

  // ---- writing the result ----

  /** memcpy into a buffer at an offset. */
  method CopyInto(buf: array<char>, off: nat, bytes: string)
    requires off + |bytes| <= buf.Length
    modifies buf
    ensures buf[..off] == old(buf[..off]) && buf[off..off + |bytes|] == bytes
    ensures buf[..off + |bytes|] == old(buf[..off]) + bytes
  {
    for k := 0 to |bytes|
      invariant buf[..off] == old(buf[..off]) && buf[off..off + k] == bytes[..k]
    {
      buf[off + k] := bytes[k];
      assert buf[off..off + k + 1] == buf[off..off + k] + [buf[off + k]];
    }
    assert bytes[..|bytes|] == bytes;
    assert buf[..off + |bytes|] == buf[..off] + buf[off..off + |bytes|];
  }

  /** Part of the scan is done: `out` is written, the rest of the format and of the chunks
      is still to come and will fit. */
  ghost predicate Scanning(fmt: string, chunks: seq<string>, out: string, fi: nat, ci: nat) {
    && fi <= |fmt| && ci <= |chunks|
    && |out| + (|fmt| - fi) + Total(chunks[ci..]) <= |fmt| + Total(chunks)
    && Dynamic(fmt, chunks) == out + Dynamic(fmt[fi..], chunks[ci..])
  }

  lemma ScanStart(fmt: string, chunks: seq<string>)
    ensures Scanning(fmt, chunks, "", 0, 0)
  {
    assert fmt[0..] == fmt && chunks[0..] == chunks && "" + Dynamic(fmt, chunks) == Dynamic(fmt, chunks);
  }

  predicate Escaped(fmt: string, fi: nat)
    requires fi < |fmt|
  {
    fi + 1 < |fmt| && fmt[fi + 1] == fmt[fi]
  }

  lemma ScanByte(fmt: string, chunks: seq<string>, out: string, fi: nat, ci: nat, next: nat)
    requires Scanning(fmt, chunks, out, fi, ci) && fi < |fmt|
    requires fmt[fi] == '{' ==> Escaped(fmt, fi)
    requires next == fi + if (fmt[fi] == '{' || fmt[fi] == '}') && Escaped(fmt, fi) then 2 else 1
    ensures Scanning(fmt, chunks, out + [fmt[fi]], next, ci)
  {
    assert fmt[fi..][next - fi..] == fmt[next..];
    hide Total;
    Regroup(out, [fmt[fi]], Dynamic(fmt[next..], chunks[ci..]));
  }

  lemma ScanSlot(fmt: string, chunks: seq<string>, out: string, fi: nat, ci: nat, j: nat)
    requires Scanning(fmt, chunks, out, fi, ci) && fi < |fmt| && fmt[fi] == '{' && !Escaped(fmt, fi)
    requires j == fi + 1 + Find(fmt[fi + 1..])
    ensures j < |fmt| && ci < |chunks| ==> Scanning(fmt, chunks, out + chunks[ci], j + 1, ci + 1)
    ensures j < |fmt| && ci == |chunks| ==> Scanning(fmt, chunks, out, j + 1, ci)
    ensures j >= |fmt| ==> Dynamic(fmt, chunks) == out
  {
    hide Find;
    var s, rest := fmt[fi..], chunks[ci..];
    assert s[1..] == fmt[fi + 1..];
    if j >= |fmt| {
      assert Dynamic(s, rest) == "";
    } else {
      assert s[2 + Find(s[1..])..] == fmt[j + 1..];
      if ci < |chunks| {
        TotalFirst(rest);
        assert rest[1..] == chunks[ci + 1..];
        Regroup(out, chunks[ci], Dynamic(fmt[j + 1..], chunks[ci + 1..]));
      }
    }
  }

  lemma ScanEnd(fmt: string, chunks: seq<string>, out: string, ci: nat)
    requires Scanning(fmt, chunks, out, |fmt|, ci)
    ensures Dynamic(fmt, chunks) == out
  {
    assert fmt[|fmt|..] == "" && out + "" == out;
  }

  /** cmm.format.dyn: the buffer is as long as the format and the chunks together, and one
      byte for the terminator; no store is outside it, whatever the format. */
  method FormatDyn(fmt: string, chunks: seq<string>) returns (buf: array<char>, wri: nat)
    ensures fresh(buf) && buf.Length == |fmt| + Total(chunks) + 1
    ensures wri <= |fmt| + Total(chunks) && buf[..wri] == Dynamic(fmt, chunks) && buf[wri] == '\0'
  {
    hide Find, Dynamic;
    var sum := |fmt|;
    for si := 0 to |chunks|
      invariant sum == |fmt| + Total(chunks[..si])
    {
      assert chunks[..si + 1][..si] == chunks[..si];
      sum := sum + |chunks[si]|;
    }
    assert chunks[..|chunks|] == chunks;
    hide Total;
    buf := new char[sum + 1];
    wri := 0;
    var fi, ci := 0, 0;
    ghost var stopped := false;
    ScanStart(fmt, chunks);
    while fi < |fmt|
      invariant wri < buf.Length && !stopped && Scanning(fmt, chunks, buf[..wri], fi, ci)
      modifies buf
    {
      var ch := fmt[fi];
      if ch == '{' && !(fi + 1 < |fmt| && fmt[fi + 1] == '{') {
        var j := FindClose(fmt, fi + 1);
        ScanSlot(fmt, chunks, buf[..wri], fi, ci, j);
        if j >= |fmt| {
          stopped := true;
          break;
        }
        if ci < |chunks| {
          RoomFor(fmt, chunks, buf[..wri], fi, ci, j);
          CopyInto(buf, wri, chunks[ci]);
          wri, ci := wri + |chunks[ci]|, ci + 1;
        }
        fi := j + 1;
      } else {
        var step := if (ch == '{' || ch == '}') && fi + 1 < |fmt| && fmt[fi + 1] == ch then 2 else 1;
        ScanByte(fmt, chunks, buf[..wri], fi, ci, fi + step);
        RoomForOne(fmt, chunks, buf[..wri], fi, ci);
        PutByte(buf, wri, ch);
        wri, fi := wri + 1, fi + step;
      }
    }
    if !stopped { ScanEnd(fmt, chunks, buf[..wri], ci); }
    buf[wri] := '\0';
  }

  lemma RoomFor(fmt: string, chunks: seq<string>, out: string, fi: nat, ci: nat, j: nat)
    requires ci < |chunks| && Scanning(fmt, chunks, out + chunks[ci], j + 1, ci + 1)
    ensures |out| + |chunks[ci]| <= |fmt| + Total(chunks)
  {
  }

  lemma RoomForOne(fmt: string, chunks: seq<string>, out: string, fi: nat, ci: nat)
    requires fi < |fmt| && Scanning(fmt, chunks, out, fi, ci)
    ensures |out| + 1 <= |fmt| + Total(chunks)
  {
  }

  method PutByte(buf: array<char>, at: nat, c: char)
    requires at < buf.Length
    modifies buf
    ensures buf[..at + 1] == old(buf[..at]) + [c]
  {
    buf[at] := c;
    assert buf[..at + 1] == buf[..at] + [c];
  }

  // ---- the literal assembler ----

  /** All chunks after each other. */
  function Concat(parts: seq<string>): string {
    if parts == [] then "" else Concat(parts[..|parts| - 1]) + parts[|parts| - 1]
  }

  lemma ConcatPush(parts: seq<string>, p: string)
    ensures Concat(parts + [p]) == Concat(parts) + p && Total(parts + [p]) == Total(parts) + |p|
  {
    assert (parts + [p])[..|parts|] == parts;
  }

  lemma {:induction false} ConcatTotal(parts: seq<string>)
    ensures |Concat(parts)| == Total(parts)
  {
    if parts != [] { ConcatTotal(parts[..|parts| - 1]); }
  }

  ghost predicate Assembling(s: string, chunks: seq<string>, out: string, i: nat, k: nat) {
    && i <= |s| && k <= |chunks| && Assembled(s, chunks) == out + Assembled(s[i..], chunks[k..])
  }

  lemma AssembleByte(s: string, chunks: seq<string>, out: string, i: nat, k: nat, next: nat)
    requires Assembling(s, chunks, out, i, k) && i < |s|
    requires s[i] == '{' ==> Escaped(s, i)
    requires next == i + if (s[i] == '{' || s[i] == '}') && Escaped(s, i) then 2 else 1
    ensures Assembling(s, chunks, out + [s[i]], next, k)
  {
    assert s[i..][next - i..] == s[next..];
    Regroup(out, [s[i]], Assembled(s[next..], chunks[k..]));
  }

  lemma AssembleSlot(s: string, chunks: seq<string>, out: string, i: nat, k: nat, j: nat)
    requires Assembling(s, chunks, out, i, k) && i < |s| && s[i] == '{' && !Escaped(s, i)
    requires j == i + 1 + Find(s[i + 1..])
    ensures k < |chunks| ==> Assembling(s, chunks, out + chunks[k], if j < |s| then j + 1 else |s|, k + 1)
    ensures k == |chunks| ==> Assembled(s, chunks) == out
  {
    hide Find;
    var t, rest := s[i..], chunks[k..];
    assert t[1..] == s[i + 1..];
    if k < |chunks| {
      assert rest[1..] == chunks[k + 1..];
      if j < |s| {
        assert t[2 + Find(t[1..])..] == s[j + 1..];
        Regroup(out, chunks[k], Assembled(s[j + 1..], chunks[k + 1..]));
      } else {
        assert s[|s|..] == "";
        assert Assembled(t, rest) == chunks[k] + "";
        Regroup(out, chunks[k], "");
      }
    }
  }

  /** The text of a literal format: literal segments and argument chunks are collected, then
      copied one after another into a buffer of at least 64 bytes. */
  method AssembleLiteral(s: string, args: seq<string>) returns (buf: array<char>, total: nat)
    ensures fresh(buf) && total < buf.Length && buf.Length >= 64
    ensures buf[..total] == Assembled(s, args) && buf[total] == '\0'
  {
    hide Find, Assembled;
    var chunks: seq<string> := [];
    var lit := "";
    var i, k := 0, 0;
    ghost var stopped := false;
    assert s[0..] == s && args[0..] == args && "" + Assembled(s, args) == Assembled(s, args);
    while i < |s|
      invariant !stopped && Assembling(s, args, Concat(chunks) + lit, i, k)
    {
      var ch := s[i];
      if ch == '{' && !(i + 1 < |s| && s[i + 1] == '{') {
        var j := FindClose(s, i + 1);
        AssembleSlot(s, args, Concat(chunks) + lit, i, k, j);
        chunks, lit := Flush(chunks, lit);
        i := if j < |s| then j + 1 else |s|;
        if k >= |args| {
          stopped := true;
          break;
        }
        ConcatPush(chunks, args[k]);
        chunks := chunks + [args[k]];
        assert Concat(chunks) + lit == Concat(chunks);
        k := k + 1;
      } else {
        var step := if (ch == '{' || ch == '}') && i + 1 < |s| && s[i + 1] == ch then 2 else 1;
        AssembleByte(s, args, Concat(chunks) + lit, i, k, i + step);
        Regroup(Concat(chunks), lit, [ch]);
        lit := lit + [ch];
        i := i + step;
      }
    }
    if !stopped { AssembleEnd(s, args, Concat(chunks) + lit, k); }
    chunks, lit := Flush(chunks, lit);
    assert Concat(chunks) == Assembled(s, args);
    total := 0;
    for c := 0 to |chunks|
      invariant total == Total(chunks[..c])
    {
      assert chunks[..c + 1][..c] == chunks[..c];
      total := total + |chunks[c]|;
    }
    assert chunks[..|chunks|] == chunks;
    ConcatTotal(chunks);
    buf := new char[if total + 1 > 64 then total + 1 else 64];
    CopyAll(buf, chunks);
    buf[total] := '\0';
  }

  lemma AssembleEnd(s: string, chunks: seq<string>, out: string, k: nat)
    requires Assembling(s, chunks, out, |s|, k)
    ensures Assembled(s, chunks) == out
  {
    assert s[|s|..] == "" && out + "" == out;
  }

  method Flush(chunks: seq<string>, lit: string) returns (more: seq<string>, empty: string)
    ensures Concat(more) == Concat(chunks) + lit && empty == "" && Concat(more) + empty == Concat(more)
  {
    more, empty := chunks, "";
    if lit == "" { return; }
    ConcatPush(chunks, lit);
    more := chunks + [lit];
  }

  method CopyAll(buf: array<char>, chunks: seq<string>)
    requires Total(chunks) < buf.Length
    modifies buf
    ensures Total(chunks) == |Concat(chunks)| && buf[..Total(chunks)] == Concat(chunks)
  {
    var off := 0;
    for c := 0 to |chunks|
      invariant off == Total(chunks[..c]) <= buf.Length && buf[..off] == Concat(chunks[..c])
      modifies buf
    {
      assert chunks[..c + 1] == chunks[..c] + [chunks[c]];
      ConcatPush(chunks[..c], chunks[c]);
      PrefixTotal(chunks, c + 1);
      CopyInto(buf, off, chunks[c]);
      off := off + |chunks[c]|;
    }
    assert chunks[..|chunks|] == chunks;
    ConcatTotal(chunks);
  }

  lemma {:induction false} PrefixTotal(chunks: seq<string>, c: nat)
    requires c <= |chunks|
    ensures Total(chunks[..c]) <= Total(chunks)
    decreases |chunks| - c
  {
    if c < |chunks| {
      PrefixTotal(chunks, c + 1);
      assert chunks[..c + 1][..c] == chunks[..c];
    } else {
      assert chunks[..c] == chunks;
    }
  }

  method FindClose(s: string, from: nat) returns (j: nat)
    requires from <= |s|
    ensures j == from + Find(s[from..]) && from <= j <= |s|
  {
    j := from;
    while j < |s| && s[j] != '}'
      invariant from <= j <= |s| && Find(s[from..]) == j - from + Find(s[j..])
    {
      assert s[j..][1..] == s[j + 1..];
      j := j + 1;
    }
  }
}
