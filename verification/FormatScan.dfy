/** The three scanners of format strings: the compile-time check that also builds a printf
    format, the assembler for literal formats, and the routine for formats known at run time. */
module FormatScan {
  import opened Options
  import opened FormatSpec

  datatype Piece = Text(c: char) | Slot(spec: string)

  // ---- the format language ----

  /** The index of the first '}', the length if there is none. */
  function Find(s: string): (n: nat)
    ensures n <= |s| && (n < |s| ==> s[n] == '}')
    ensures forall k :: 0 <= k < n ==> s[k] != '}'
  {
    if s == "" || s[0] == '}' then 0 else 1 + Find(s[1..])
  }

  /** "{{" and "}}" stand for a brace, "{}" and "{:spec}" for an argument; no other brace is
      allowed. */
  function Parse(s: string): Option<seq<Piece>>
    decreases |s|
  {
    if s == "" then Some([])
    else if s[0] == '{' then
      if |s| > 1 && s[1] == '{' then Prepend(Text('{'), Parse(s[2..]))
      else if |s| > 1 && s[1] == '}' then Prepend(Slot(""), Parse(s[2..]))
      else if |s| > 1 && s[1] == ':' then
        var n := Find(s[2..]);
        if n < |s| - 2 then Prepend(Slot(s[2..2 + n]), Parse(s[3 + n..])) else None
      else None
    else if s[0] == '}' then
      if |s| > 1 && s[1] == '}' then Prepend(Text('}'), Parse(s[2..])) else None
    else Prepend(Text(s[0]), Parse(s[1..]))
  }

  function Prepend(p: Piece, ps: Option<seq<Piece>>): Option<seq<Piece>> {
    if ps.Some? then Some([p] + ps.value) else None
  }

  function SlotCount(ps: seq<Piece>): nat {
    if ps == [] then 0 else (if ps[0].Slot? then 1 else 0) + SlotCount(ps[1..])
  }

  /** The text with each slot replaced by its chunk. */
  function Interleave(ps: seq<Piece>, chunks: seq<string>): string
    requires SlotCount(ps) == |chunks|
  {
    if ps == [] then ""
    else match ps[0]
      case Text(c) => [c] + Interleave(ps[1..], chunks)
      case Slot(_) => chunks[0] + Interleave(ps[1..], chunks[1..])
  }

  // ---- what the run-time scanners do on any format ----

  /** cmm.format.dyn: the spec text is skipped, a missing chunk is nothing, an unterminated
      placeholder ends the scan, a single '}' stands for itself. */
  function Dynamic(s: string, chunks: seq<string>): string
    decreases |s|
  {
    if s == "" then ""
    else if s[0] == '{' then
      if |s| > 1 && s[1] == '{' then "{" + Dynamic(s[2..], chunks)
      else
        var n := Find(s[1..]);
        if n == |s| - 1 then ""
        else if chunks == [] then Dynamic(s[2 + n..], chunks)
        else chunks[0] + Dynamic(s[2 + n..], chunks[1..])
    else if s[0] == '}' then
      "}" + Dynamic(if |s| > 1 && s[1] == '}' then s[2..] else s[1..], chunks)
    else [s[0]] + Dynamic(s[1..], chunks)
  }

  /** The literal assembler: it stops at a placeholder without an argument, and an
      unterminated placeholder still takes its argument. */
  function Assembled(s: string, chunks: seq<string>): string
    decreases |s|
  {
    if s == "" then ""
    else if s[0] == '{' then
      if |s| > 1 && s[1] == '{' then "{" + Assembled(s[2..], chunks)
      else
        var n := Find(s[1..]);
        if chunks == [] then ""
        else chunks[0] + (if n == |s| - 1 then "" else Assembled(s[2 + n..], chunks[1..]))
    else if s[0] == '}' then
      "}" + Assembled(if |s| > 1 && s[1] == '}' then s[2..] else s[1..], chunks)
    else [s[0]] + Assembled(s[1..], chunks)
  }

  lemma ParseStep(s: string)
    requires s != "" && Parse(s).Some?
    ensures var p := Parse(s).value;
      && p != [] && Parse(s[Taken(s)..]) == Some(p[1..])
      && p[0] == First(s)
  {
  }

  /** The length of the first piece of a well-formed format, and the piece. */
  function Taken(s: string): (n: nat)
    requires s != "" && Parse(s).Some?
    ensures 1 <= n <= |s|
  {
    if s[0] == '{' then
      if s[1] == ':' then 3 + Find(s[2..]) else 2
    else if s[0] == '}' then 2
    else 1
  }

  function First(s: string): Piece
    requires s != "" && Parse(s).Some?
  {
    if s[0] == '{' then
      if s[1] == '{' then Text('{')
      else Slot(if s[1] == ':' then s[2..2 + Find(s[2..])] else "")
    else Text(s[0])
  }

  lemma FindAfterColon(s: string)
    requires s != "" && s[0] == ':'
    ensures Find(s) == 1 + Find(s[1..])
  {
  }

  /** On every well-formed format with one chunk per slot both run-time scanners produce the
      text with the chunks put in. */
  lemma {:induction false} ScannersAgree(s: string, chunks: seq<string>)
    requires Parse(s).Some? && SlotCount(Parse(s).value) == |chunks|
    ensures Dynamic(s, chunks) == Assembled(s, chunks) == Interleave(Parse(s).value, chunks)
    decreases |s|
  {
    if s != "" {
      var p := Parse(s).value;
      ParseStep(s);
      var rest := s[Taken(s)..];
      if s[0] == '{' && s[1] != '{' {
        if s[1] == ':' { FindAfterColon(s[1..]); assert s[1..][1..] == s[2..]; }
        assert 2 + Find(s[1..]) == Taken(s);
        ScannersAgree(rest, chunks[1..]);
      } else {
        ScannersAgree(rest, chunks);
      }
    }
  }

  // ---- the compile-time check ----

  datatype Fault = ArgCount | SpecType | SpecSyntax
  datatype Built = Fine(format: string, specs: seq<Spec>) | Faulty(why: Fault)
  datatype Converted = Good(conv: string, spec: Spec) | Bad(fault: Fault)

  function Convert(kind: Kind, spec: string): Converted {
    if spec == "" then Good(DefaultConversion(kind), DEFAULT)
    else match ParseSpec(spec)
      case None => Bad(SpecSyntax)
      case Some(p) =>
        match ToPrintf(kind, p)
        case None => Bad(SpecType)
        case Some(c) => Good(c.0, p)
  }

  function Before(text: string, rest: Built): Built {
    if rest.Fine? then Fine(text + rest.format, rest.specs) else rest
  }

  function WithSlot(conv: string, spec: Spec, rest: Built): Built {
    if rest.Fine? then Fine(conv + rest.format, [spec] + rest.specs) else rest
  }

  /** Scan a format against the kinds of its arguments; the first fault wins. */
  function Build(s: string, kinds: seq<Kind>): Built
    decreases |s|
  {
    if s == "" then (if kinds == [] then Fine("", []) else Faulty(ArgCount))
    else if s[0] == '{' then
      if |s| > 1 && s[1] == '{' then Before("{", Build(s[2..], kinds))
      else
        var n := if |s| > 1 && s[1] == ':' then 1 + Find(s[2..]) else 0;
        if 1 + n >= |s| || s[1 + n] != '}' || kinds == [] then Faulty(ArgCount)
        else
          match Convert(kinds[0], if n == 0 then "" else s[2..1 + n])
          case Bad(why) => Faulty(why)
          case Good(conv, spec) => WithSlot(conv, spec, Build(s[2 + n..], kinds[1..]))
    else if s[0] == '}' then
      if |s| > 1 && s[1] == '}' then Before("}", Build(s[2..], kinds)) else Faulty(ArgCount)
    else Before(if s[0] == '%' then "%%" else [s[0]], Build(s[1..], kinds))
  }

  /** The printf format of the pieces, if every slot takes its specification. */
  function Printed(ps: seq<Piece>, kinds: seq<Kind>): Option<(string, seq<Spec>)> {
    if ps == [] then (if kinds == [] then Some(("", [])) else None)
    else match ps[0]
      case Text(c) =>
        (match Printed(ps[1..], kinds)
         case None => None
         case Some(r) => Some(((if c == '%' then "%%" else [c]) + r.0, r.1)))
      case Slot(spec) =>
        if kinds == [] || Convert(kinds[0], spec).Bad? then None
        else
          match Printed(ps[1..], kinds[1..])
          case None => None
          case Some(r) => Some((Convert(kinds[0], spec).conv + r.0, [Convert(kinds[0], spec).spec] + r.1))
  }

  /** The check accepts exactly the well-formed formats whose slots match the arguments, and
      builds the printf format of their pieces. */
  lemma {:induction false} BuildIsPrinted(s: string, kinds: seq<Kind>)
    ensures Build(s, kinds).Fine? <==> Parse(s).Some? && Printed(Parse(s).value, kinds).Some?
    ensures Build(s, kinds).Fine? ==>
      Printed(Parse(s).value, kinds) == Some((Build(s, kinds).format, Build(s, kinds).specs))
    decreases |s|
  {
    hide Convert;
    if s != "" {
      if Parse(s).Some? { ParseStep(s); }
      if s[0] == '{' {
        if |s| > 1 && s[1] == '{' {
          BuildIsPrinted(s[2..], kinds);
        } else {
          BuildSlot(s, kinds);
        }
      } else if s[0] == '}' {
        if |s| > 1 && s[1] == '}' { BuildIsPrinted(s[2..], kinds); }
      } else {
        BuildIsPrinted(s[1..], kinds);
      }
    }
  }

  lemma {:induction false} BuildSlot(s: string, kinds: seq<Kind>)
    requires s != "" && s[0] == '{' && !(|s| > 1 && s[1] == '{')
    ensures Build(s, kinds).Fine? <==> Parse(s).Some? && Printed(Parse(s).value, kinds).Some?
    ensures Build(s, kinds).Fine? ==>
      Printed(Parse(s).value, kinds) == Some((Build(s, kinds).format, Build(s, kinds).specs))
    decreases |s|, 0
  {
    hide Convert;
    if Parse(s).Some? { ParseStep(s); }
    var n := if |s| > 1 && s[1] == ':' then 1 + Find(s[2..]) else 0;
    if 1 + n < |s| && s[1 + n] == '}' && kinds != [] {
      BuildIsPrinted(s[2 + n..], kinds[1..]);
      assert n > 0 ==> s[2..1 + n] == s[2..2 + Find(s[2..])];
      assert Parse(s) == Prepend(Slot(if n == 0 then "" else s[2..1 + n]), Parse(s[2 + n..]));
    } else if 1 + n >= |s| || s[1 + n] != '}' {
      assert Parse(s) == None;
    }
  }

  // ---- what printf makes of it ----

  datatype Item = Lit(c: char) | Conv(conv: string)

  /** How many modifiers the text starts with. */
  function Modifiers(s: string): (n: nat)
    ensures n <= |s| && (forall i :: 0 <= i < n ==> IsModifier(s[i])) && (n < |s| ==> !IsModifier(s[n]))
  {
    if s == "" || !IsModifier(s[0]) then 0
    else
      assert forall i :: 0 < i < |s| ==> s[i] == s[1..][i - 1];
      1 + Modifiers(s[1..])
  }

  function Read(f: string): Option<seq<Item>>
    decreases |f|
  {
    if f == "" then Some([])
    else if f[0] != '%' then Add(Lit(f[0]), Read(f[1..]))
    else if |f| > 1 && f[1] == '%' then Add(Lit('%'), Read(f[2..]))
    else
      var n := Modifiers(f[1..]);
      if 1 + n < |f| && IsLetter(f[1 + n]) then Add(Conv(f[..2 + n]), Read(f[2 + n..])) else None
  }

  function Add(i: Item, rest: Option<seq<Item>>): Option<seq<Item>> {
    if rest.Some? then Some([i] + rest.value) else None
  }

  /** printf stops at the first NUL. */
  function UpToNul(f: string): string {
    if f == "" || f[0] == '\0' then "" else [f[0]] + UpToNul(f[1..])
  }

  /** The pieces as printf should see them. */
  function Items(ps: seq<Piece>, kinds: seq<Kind>): seq<Item>
    requires Printed(ps, kinds).Some?
  {
    if ps == [] then []
    else match ps[0]
      case Text(c) => [Lit(c)] + Items(ps[1..], kinds)
      case Slot(spec) => [Conv(Convert(kinds[0], spec).conv)] + Items(ps[1..], kinds[1..])
  }

  function Varargs(items: seq<Item>): nat {
    if items == [] then 0
    else (match items[0] case Lit(_) => 0 case Conv(c) => 1 + Stars(c)) + Varargs(items[1..])
  }

  function AllPushed(kinds: seq<Kind>, specs: seq<Spec>): nat
    requires |kinds| == |specs|
  {
    if kinds == [] then 0 else Pushed(kinds[0], specs[0]) + AllPushed(kinds[1..], specs[1..])
  }

  lemma ConvertReads(kind: Kind, spec: string)
    requires Convert(kind, spec).Good?
    ensures var c := Convert(kind, spec); IsConversion(c.conv) && 1 + Stars(c.conv) == Pushed(kind, c.spec)
  {
    if spec == "" {
      DefaultReads(kind);
    } else {
      ParseLegal(spec);
      var p := ParseSpec(spec).value;
      hide ParseSpec, DefaultConversion;
      ToPrintfReads(kind, p);
    }
  }

  lemma {:induction false} ModifiersIs(m: string, r: string)
    requires (forall i :: 0 <= i < |m| ==> IsModifier(m[i])) && r != "" && !IsModifier(r[0])
    ensures Modifiers(m + r) == |m|
  {
    if m == "" {
      assert m + r == r;
    } else {
      assert (m + r)[1..] == m[1..] + r;
      ModifiersIs(m[1..], r);
    }
  }

  lemma ReadConversion(c: string, rest: string)
    requires IsConversion(c)
    ensures Read(c + rest) == Add(Conv(c), Read(rest))
  {
    var n := |c| - 2;
    var m, r := c[1..1 + n], c[1 + n..] + rest;
    assert (c + rest)[1..] == m + r;
    ModifiersIs(m, r);
    assert (c + rest)[..2 + n] == c && (c + rest)[2 + n..] == rest;
    assert (c + rest)[1 + n] == c[|c| - 1];
    assert n > 0 ==> IsModifier(c[1]);
  }

  lemma ReadLit(c: char, rest: string)
    ensures Read((if c == '%' then "%%" else [c]) + rest) == Add(Lit(c), Read(rest))
  {
    if c == '%' { assert ("%%" + rest)[2..] == rest; } else { assert ([c] + rest)[1..] == rest; }
  }

  lemma Regroup<T>(a: seq<T>, b: seq<T>, c: seq<T>)
    ensures a + (b + c) == (a + b) + c
  {
  }

  lemma VarargsCons(i: Item, more: seq<Item>)
    ensures Varargs([i] + more) == (match i case Lit(_) => 0 case Conv(c) => 1 + Stars(c)) + Varargs(more)
  {
    assert ([i] + more)[1..] == more;
  }

  lemma PushedCons(kinds: seq<Kind>, spec: Spec, rest: seq<Spec>)
    requires kinds != [] && |rest| == |kinds| - 1
    ensures AllPushed(kinds, [spec] + rest) == Pushed(kinds[0], spec) + AllPushed(kinds[1..], rest)
  {
    assert ([spec] + rest)[1..] == rest;
    hide Pushed;
  }

  /** Reading back the printf format recovers the literal text and one conversion per slot,
      and the conversions take as many arguments as the generated call pushes. */
  lemma {:induction false} ReadsBack(ps: seq<Piece>, kinds: seq<Kind>, tail: string)
    requires Printed(ps, kinds).Some? && Read(tail).Some?
    ensures var (f, specs) := Printed(ps, kinds).value;
      && Read(f + tail) == Some(Items(ps, kinds) + Read(tail).value)
      && |specs| == |kinds| && Varargs(Items(ps, kinds)) == AllPushed(kinds, specs)
  {
    hide Convert, Read, IsConversion, Pushed, Stars, Varargs, AllPushed;
    if ps == [] {
      assert "" + tail == tail && [] + Read(tail).value == Read(tail).value;
      NothingTaken();
    } else {
      match ps[0] {
        case Text(c) =>
          ReadsBack(ps[1..], kinds, tail);
          var text := if c == '%' then "%%" else [c];
          var g, more := Printed(ps[1..], kinds).value.0, Items(ps[1..], kinds);
          ReadLit(c, g + tail);
          Regroup(text, g, tail);
          Regroup([Lit(c)], more, Read(tail).value);
          VarargsCons(Lit(c), more);
        case Slot(spec) =>
          ReadsBack(ps[1..], kinds[1..], tail);
          var (g, rest) := Printed(ps[1..], kinds[1..]).value;
          var c, more := Convert(kinds[0], spec), Items(ps[1..], kinds[1..]);
          ConvertReads(kinds[0], spec);
          ReadConversion(c.conv, g + tail);
          Regroup(c.conv, g, tail);
          Regroup([Conv(c.conv)], more, Read(tail).value);
          VarargsCons(Conv(c.conv), more);
          PushedCons(kinds, c.spec, rest);
      }
    }
  }

  lemma NothingTaken()
    ensures Varargs([]) == 0 && AllPushed([], []) == 0
  {
  }

  // ---- NUL ----

  lemma {:induction false} LitsFromText(f: string, c: char)
    requires Read(f).Some? && Lit(c) in Read(f).value
    ensures c in f
    decreases |f|
  {
    hide Modifiers;
    if f[0] != '%' {
      if c != f[0] { LitsFromText(f[1..], c); }
    } else if |f| > 1 && f[1] == '%' {
      if c != '%' { LitsFromText(f[2..], c); }
    } else {
      var n := Modifiers(f[1..]);
      LitsFromText(f[2 + n..], c);
    }
  }

  lemma {:induction false} NulGone(f: string)
    ensures '\0' !in UpToNul(f) && ('\0' !in f ==> UpToNul(f) == f)
  {
    if f != "" && f[0] != '\0' {
      NulGone(f[1..]);
      assert f == [f[0]] + f[1..];
    }
  }

  predicate HasNul(ps: seq<Piece>) {
    exists i :: 0 <= i < |ps| && ps[i] == Text('\0')
  }

  lemma {:induction false} NulOnlyInText(ps: seq<Piece>, kinds: seq<Kind>)
    requires Printed(ps, kinds).Some?
    ensures '\0' in Printed(ps, kinds).value.0 ==> HasNul(ps)
    ensures HasNul(ps) ==> Lit('\0') in Items(ps, kinds)
  {
    hide Convert;
    if ps != [] {
      var rest := ps[1..];
      assert forall i :: 0 < i < |ps| ==> ps[i] == rest[i - 1];
      assert HasNul(ps) <==> ps[0] == Text('\0') || HasNul(rest) by {
        if HasNul(rest) {
          var i :| 0 <= i < |rest| && rest[i] == Text('\0');
          assert ps[i + 1] == Text('\0');
        }
      }
      match ps[0] {
        case Text(c) => NulOnlyInText(rest, kinds);
        case Slot(spec) =>
          NulOnlyInText(rest, kinds[1..]);
          ConvertReads(kinds[0], spec);
          NoNulInConversion(Convert(kinds[0], spec).conv);
      }
    }
  }

  lemma NoNulInConversion(c: string)
    requires IsConversion(c)
    ensures '\0' !in c
  {
  }

  /** printf, which stops at a NUL, sees exactly the text and the slots of the format if and
      only if the literal text holds no NUL. */
  lemma PrintfSeesAll(s: string, kinds: seq<Kind>)
    requires Build(s, kinds).Fine?
    ensures Parse(s).Some? && Printed(Parse(s).value, kinds).Some?
    ensures Read(UpToNul(Build(s, kinds).format)) == Some(Items(Parse(s).value, kinds)) <==> !HasNul(Parse(s).value)
  {
    BuildIsPrinted(s, kinds);
    var ps := Parse(s).value;
    var f := Build(s, kinds).format;
    ReadsBack(ps, kinds, "");
    assert f + "" == f && Items(ps, kinds) + [] == Items(ps, kinds);
    NulOnlyInText(ps, kinds);
    NulGone(f);
    if HasNul(ps) && Read(UpToNul(f)) == Some(Items(ps, kinds)) {
      LitsFromText(UpToNul(f), '\0');
    }
  }

  /** A literal that is one NUL reaches printf as an empty format. */
  lemma NulUnseen()
    ensures Build("\0", []).Fine? && Parse("\0") == Some([Text('\0')])
    ensures Read(UpToNul(Build("\0", []).format)) != Some(Items([Text('\0')], []))
  {
    var s := "\0";
    assert s[1..] == "";
    assert Parse("") == Some([]);
    assert Parse(s) == Prepend(Text(s[0]), Parse(s[1..]));
    assert [Text(s[0])] + [] == [Text('\0')];
    assert Build(s, []) == Before(s, Build("", []));
    var ps := [Text('\0')];
    assert ps[0] == Text('\0');
    assert HasNul(ps);
    PrintfSeesAll(s, []);
  }

  // ---- accepted formats at run time ----

  lemma {:induction false} PrintedCount(ps: seq<Piece>, kinds: seq<Kind>)
    requires Printed(ps, kinds).Some?
    ensures SlotCount(ps) == |kinds|
  {
    if ps != [] { PrintedCount(ps[1..], if ps[0].Slot? then kinds[1..] else kinds); }
  }

  /** On every format the check accepts, the literal assembler and the run-time routine give
      the same bytes for the same chunks: the text with the chunks put in. */
  lemma AcceptedAgree(s: string, kinds: seq<Kind>, chunks: seq<string>)
    requires Build(s, kinds).Fine? && |chunks| == |kinds|
    ensures Parse(s).Some? && SlotCount(Parse(s).value) == |chunks|
    ensures Dynamic(s, chunks) == Assembled(s, chunks) == Interleave(Parse(s).value, chunks)
  {
    BuildIsPrinted(s, kinds);
    PrintedCount(Parse(s).value, kinds);
    ScannersAgree(s, chunks);
  }

  function Total(chunks: seq<string>): nat {
    if chunks == [] then 0 else Total(chunks[..|chunks| - 1]) + |chunks[|chunks| - 1]|
  }

  lemma {:induction false} TotalFirst(chunks: seq<string>)
    requires chunks != []
    ensures Total(chunks) == |chunks[0]| + Total(chunks[1..])
  {
    if |chunks| == 1 {
      assert chunks[..0] == [] && chunks[1..] == [];
    } else {
      var n := |chunks| - 1;
      TotalFirst(chunks[..n]);
      assert chunks[..n][1..] == chunks[1..][..n - 1];
    }
  }

  /** On any format at all the run-time routine writes no more than the format and the
      chunks together. */
  lemma {:induction false} DynamicBound(s: string, chunks: seq<string>)
    ensures |Dynamic(s, chunks)| <= |s| + Total(chunks)
    decreases |s|
  {
    if s != "" {
      if s[0] == '{' && !(|s| > 1 && s[1] == '{') {
        var n := Find(s[1..]);
        if n < |s| - 1 {
          if chunks == [] {
            DynamicBound(s[2 + n..], chunks);
          } else {
            TotalFirst(chunks);
            DynamicBound(s[2 + n..], chunks[1..]);
          }
        }
      } else if |s| > 1 && (s[0] == '{' || (s[0] == '}' && s[1] == '}')) {
        DynamicBound(s[2..], chunks);
      } else {
        DynamicBound(s[1..], chunks);
      }
    }
  }
}
