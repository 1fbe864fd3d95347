/** The names of generated optional and result layouts. A layout is found again by its name,
    so different types must have different names. */
module LayoutKey {
  import opened Decimals
  import opened Options

  datatype Prim = Void | Bool | Char | I8 | I16 | I32 | I64 | I128 | U8 | U16 | U32 | U64 | U128
                | ISize | USize | F16 | F32 | F64 | F128

  datatype Ty =
    | Basic(p: Prim)
    | Str
    | String
    | Pointer(base: Ty)
    | Array(size: int, elem: Ty)
    | Slice(elem: Ty)
    | Optional(elem: Ty)
    | Result(success: Ty, error: Ty)
    | Struct(name: string)
    | Class(name: string)
    | Union(name: string)
    | Enum(name: string, underlying: Option<Prim>)
    | Typedef(aliased: Ty)

  function KindName(p: Prim): string {
    match p
    case Void => "void"
    case Bool => "bool"
    case Char => "char"
    case I8 => "i8"
    case I16 => "i16"
    case I32 => "i32"
    case I64 => "i64"
    case I128 => "i128"
    case U8 => "u8"
    case U16 => "u16"
    case U32 => "u32"
    case U64 => "u64"
    case U128 => "u128"
    case ISize => "isize"
    case USize => "usize"
    case F16 => "f16"
    case F32 => "f32"
    case F64 => "f64"
    case F128 => "f128"
  }

  /** std::to_string. */
  function ToString(n: int): string {
    if n < 0 then "-" + Decimal(-n) else Decimal(n)
  }

  function Named(tag: string, name: string): string {
    tag + Decimal(|name|) + "." + name
  }

  function Key(t: Ty): string {
    match t
    case Basic(p) => KindName(p)
    case Str => "STR"
    case String => "STRING"
    case Pointer(b) => "P" + Key(b)
    case Array(n, e) => "A" + ToString(n) + "." + Key(e)
    case Slice(e) => "L" + Key(e)
    case Optional(e) => "O" + Key(e)
    case Result(s, e) => "R" + Key(s) + "." + Key(e)
    case Struct(n) => Named("S", n)
    case Class(n) => Named("C", n)
    case Union(n) => Named("U", n)
    case Enum(n, u) => Named("E", n) + "." + KindName(if u.Some? then u.value else I32)
    case Typedef(a) => Key(a)
  }

  /** The type the layout depends on: typedefs unfolded, an enum's missing underlying type
      filled in. */
  function Norm(t: Ty): Ty {
    match t
    case Pointer(b) => Ty.Pointer(Norm(b))
    case Array(n, e) => Array(n, Norm(e))
    case Slice(e) => Slice(Norm(e))
    case Optional(e) => Optional(Norm(e))
    case Result(s, e) => Result(Norm(s), Norm(e))
    case Enum(n, u) => Enum(n, Some(if u.Some? then u.value else I32))
    case Typedef(a) => Norm(a)
    case _ => t
  }

  // ---- reading a key ----

  function UpToDot(s: string): (n: nat)
    ensures n <= |s|
  {
    if s == "" || s[0] == '.' then 0 else 1 + UpToDot(s[1..])
  }

  function PrimOf(s: string): Option<Prim> {
    if s == "void" then Some(Void) else if s == "bool" then Some(Bool) else if s == "char" then Some(Char)
    else if s == "i8" then Some(I8) else if s == "i16" then Some(I16) else if s == "i32" then Some(I32)
    else if s == "i64" then Some(I64) else if s == "i128" then Some(I128)
    else if s == "u8" then Some(U8) else if s == "u16" then Some(U16) else if s == "u32" then Some(U32)
    else if s == "u64" then Some(U64) else if s == "u128" then Some(U128)
    else if s == "isize" then Some(ISize) else if s == "usize" then Some(USize)
    else if s == "f16" then Some(F16) else if s == "f32" then Some(F32)
    else if s == "f64" then Some(F64) else if s == "f128" then Some(F128)
    else None
  }

  function IntOf(s: string): int {
    if s != "" && s[0] == '-' then -(Value(s[1..]) as int) else Value(s)
  }

  /** A length, a dot and that many characters. */
  function ReadName(s: string): (r: Option<(string, string)>)
    ensures r.Some? ==> |r.value.1| <= |s|
  {
    var n := UpToDot(s);
    if n == |s| then None
    else
      var len := Value(s[..n]);
      if n + 1 + len > |s| then None else Some((s[n + 1..n + 1 + len], s[n + 1 + len..]))
  }

  function Wrap(r: Option<(Ty, string)>, f: Ty -> Ty): Option<(Ty, string)> {
    if r.Some? then Some((f(r.value.0), r.value.1)) else None
  }

  /** Read one type from the front of a text; what follows is left. */
  function Parse(s: string): (r: Option<(Ty, string)>)
    ensures r.Some? ==> |r.value.1| < |s|
    decreases |s|
  {
    if s == "" then None
    else
      var rest := s[1..];
      if s[0] == 'P' then Wrap(Parse(rest), (b: Ty) => Pointer(b))
      else if s[0] == 'L' then Wrap(Parse(rest), (b: Ty) => Slice(b))
      else if s[0] == 'O' then Wrap(Parse(rest), (b: Ty) => Optional(b))
      else if s[0] == 'A' then
        var n := UpToDot(rest);
        if n == |rest| then None
        else
          var size := IntOf(rest[..n]);
          Wrap(Parse(rest[n + 1..]), (b: Ty) => Array(size, b))
      else if s[0] == 'R' then
        (match Parse(rest)
         case None => None
         case Some(a) =>
           if a.1 == "" || a.1[0] != '.' then None
           else Wrap(Parse(a.1[1..]), (b: Ty) => Result(a.0, b)))
      else if s[0] == 'S' && rest != "" && rest[0] == 'T' then
        var n := UpToDot(s);
        if s[..n] == "STR" then Some((Str, s[n..]))
        else if s[..n] == "STRING" then Some((String, s[n..]))
        else None
      else if s[0] == 'S' || s[0] == 'C' || s[0] == 'U' then
        (match ReadName(rest)
         case None => None
         case Some(a) =>
           Some((if s[0] == 'S' then Struct(a.0) else if s[0] == 'C' then Class(a.0) else Union(a.0), a.1)))
      else if s[0] == 'E' then
        (match ReadName(rest)
         case None => None
         case Some(a) =>
           if a.1 == "" || a.1[0] != '.' then None
           else
             var n := UpToDot(a.1[1..]);
             match PrimOf(a.1[1..][..n])
             case None => None
             case Some(p) => Some((Enum(a.0, Some(p)), a.1[1..][n..])))
      else
        var n := UpToDot(s);
        match PrimOf(s[..n])
        case None => None
        case Some(p) => if n == 0 then None else Some((Basic(p), s[n..]))
  }

  // ---- keys are read back ----

  predicate NoDot(s: string) {
    forall i :: 0 <= i < |s| ==> s[i] != '.'
  }

  predicate Suffix(s: string) {
    s == "" || s[0] == '.'
  }

  lemma {:induction false} UpToDotIs(a: string, rest: string)
    requires NoDot(a) && Suffix(rest)
    ensures UpToDot(a + rest) == |a| && (a + rest)[..|a|] == a && (a + rest)[|a|..] == rest
  {
    if a == "" {
      assert a + rest == rest;
    } else {
      assert (a + rest)[1..] == a[1..] + rest;
      UpToDotIs(a[1..], rest);
    }
  }

  lemma DecimalNoDot(n: nat)
    ensures NoDot(Decimal(n)) && Value(Decimal(n)) == n && Decimal(n)[0] != '-' && Decimal(n)[0] != 'T'
  {
    DecimalValue(n);
    assert IsDigit(Decimal(n)[0]);
    hide Decimal, Value;
  }

  lemma ToStringReads(n: int)
    ensures NoDot(ToString(n)) && IntOf(ToString(n)) == n
  {
    if n < 0 {
      DecimalNoDot(-n);
      assert ToString(n)[1..] == Decimal(-n);
      hide Decimal, Value;
    } else {
      DecimalNoDot(n);
    }
  }

  lemma NameParts(d: string, name: string, rest: string)
    ensures var s := d + "." + name + rest;
      && s == d + ("." + name + rest) && |d| + 1 + |name| <= |s|
      && s[|d| + 1..|d| + 1 + |name|] == name && s[|d| + 1 + |name|..] == rest
  {
    var s := d + "." + name + rest;
    assert s == d + ("." + name + rest);
    assert s[|d| + 1..|d| + 1 + |name|] == name;
    assert s[|d| + 1 + |name|..] == rest;
  }

  lemma NameReads(name: string, rest: string)
    ensures ReadName(Decimal(|name|) + "." + name + rest) == Some((name, rest))
  {
    var d := Decimal(|name|);
    DecimalNoDot(|name|);
    NameParts(d, name, rest);
    UpToDotIs(d, "." + name + rest);
    hide Decimal, Value, UpToDot, NoDot;
  }

  lemma PrimReads(p: Prim)
    ensures PrimOf(KindName(p)) == Some(p) && NoDot(KindName(p)) && KindName(p) != ""
    ensures var c := KindName(p)[0];
      c != 'P' && c != 'L' && c != 'O' && c != 'A' && c != 'R' && c != 'S' && c != 'C' && c != 'U' && c != 'E'
  {
  }

  /** A key is read back, whatever follows it after a dot. */
  lemma {:induction false} KeyReads(t: Ty, rest: string)
    requires Suffix(rest)
    ensures Parse(Key(t) + rest) == Some((Norm(t), rest))
  {
    match t
    case Basic(p) => BasicReads(p, rest);
    case Str => TextReads("STR", rest);
    case String => TextReads("STRING", rest);
    case Pointer(b) =>
      KeyReads(b, rest);
      Peel("P", Key(b), rest);
    case Slice(e) =>
      KeyReads(e, rest);
      Peel("L", Key(e), rest);
    case Optional(e) =>
      KeyReads(e, rest);
      Peel("O", Key(e), rest);
    case Array(n, e) =>
      KeyReads(e, rest);
      ArrayReads(n, Key(e), Norm(e), rest);
    case Result(s, e) =>
      KeyReads(e, rest);
      KeyReads(s, "." + Key(e) + rest);
      ResultReads(Key(s), Norm(s), Key(e), Norm(e), rest);
    case Struct(n) => NamedReads('S', n, rest);
    case Class(n) => NamedReads('C', n, rest);
    case Union(n) => NamedReads('U', n, rest);
    case Enum(n, u) => EnumReads(n, if u.Some? then u.value else I32, rest);
    case Typedef(a) => KeyReads(a, rest);
  }

  lemma Peel(tag: string, k: string, rest: string)
    requires |tag| == 1
    ensures (tag + k) + rest == tag + (k + rest) && ((tag + k) + rest)[0] == tag[0]
      && ((tag + k) + rest)[1..] == k + rest
  {
  }

  lemma BasicReads(p: Prim, rest: string)
    requires Suffix(rest)
    ensures Parse(KindName(p) + rest) == Some((Basic(p), rest))
  {
    var k := KindName(p);
    PrimReads(p);
    UpToDotIs(k, rest);
    assert (k + rest)[0] == k[0];
    hide KindName, PrimOf, UpToDot;
  }

  lemma TextReads(k: string, rest: string)
    requires Suffix(rest) && (k == "STR" || k == "STRING")
    ensures Parse(k + rest) == Some((if k == "STR" then Ty.Str else Ty.String, rest))
  {
    assert NoDot(k);
    UpToDotIs(k, rest);
    assert (k + rest)[0] == 'S' && (k + rest)[1] == 'T' && (k + rest)[1..][0] == 'T';
    hide UpToDot, PrimOf, ReadName;
  }

  lemma ArrayReads(n: int, k: string, t: Ty, rest: string)
    requires Parse(k + rest) == Some((t, rest))
    ensures Parse("A" + ToString(n) + "." + k + rest) == Some((Ty.Array(n, t), rest))
  {
    ToStringReads(n);
    var d := ToString(n);
    hide ToString, IntOf, PrimOf, ReadName;
    UpToDotIs(d, "." + k + rest);
    var s := "A" + d + "." + k + rest;
    assert s == "A" + (d + ("." + k + rest));
    assert s[1..] == d + ("." + k + rest);
    assert s[1..][|d| + 1..] == k + rest;
    hide UpToDot;
    ParseArray(s, |d|);
  }

  lemma ParseArray(s: string, n: nat)
    requires s != "" && s[0] == 'A' && UpToDot(s[1..]) == n < |s| - 1
    ensures Parse(s) == var r := Parse(s[1..][n + 1..]);
      if r.Some? then Some((Ty.Array(IntOf(s[1..][..n]), r.value.0), r.value.1)) else None
  {
    hide UpToDot, IntOf, PrimOf, ReadName;
  }

  lemma ResultParts(k: string, m: string, rest: string)
    ensures var s := "R" + k + "." + m + rest;
      s[0] == 'R' && s[1..] == k + ("." + m + rest) && ("." + m + rest)[1..] == m + rest && ("." + m + rest)[0] == '.'
  {
    var s := "R" + k + "." + m + rest;
    assert s[1..] == k + ("." + m + rest);
    assert ("." + m + rest)[1..] == m + rest;
  }

  lemma ParseResult(s: string, t: Ty, more: string)
    requires s != "" && s[0] == 'R' && Parse(s[1..]) == Some((t, more)) && more != "" && more[0] == '.'
    ensures Parse(s) == var r := Parse(more[1..]);
      if r.Some? then Some((Ty.Result(t, r.value.0), r.value.1)) else None
  {
    hide UpToDot, IntOf, PrimOf, ReadName;
  }

  lemma ResultReads(k: string, t: Ty, m: string, u: Ty, rest: string)
    requires Parse(k + ("." + m + rest)) == Some((t, "." + m + rest)) && Parse(m + rest) == Some((u, rest))
    ensures Parse("R" + k + "." + m + rest) == Some((Ty.Result(t, u), rest))
  {
    hide Parse;
    ResultParts(k, m, rest);
    ParseResult("R" + k + "." + m + rest, t, "." + m + rest);
  }

  lemma NamedReads(tag: char, name: string, rest: string)
    requires tag == 'S' || tag == 'C' || tag == 'U'
    ensures Parse(Named([tag], name) + rest)
         == Some((if tag == 'S' then Ty.Struct(name) else if tag == 'C' then Ty.Class(name) else Ty.Union(name), rest))
  {
    var d := Decimal(|name|);
    DecimalNoDot(|name|);
    NameReads(name, rest);
    hide Decimal, Value, ReadName, UpToDot, PrimOf, IntOf;
    var s := Named([tag], name) + rest;
    var r := d + "." + name + rest;
    assert s == [tag] + r;
    assert s[1..] == r && r[0] == d[0];
  }

  lemma EnumReads(name: string, p: Prim, rest: string)
    requires Suffix(rest)
    ensures Parse(Named("E", name) + "." + KindName(p) + rest) == Some((Ty.Enum(name, Some(p)), rest))
  {
    var k := KindName(p);
    PrimReads(p);
    UpToDotIs(k, rest);
    NameReads(name, "." + k + rest);
    hide KindName, PrimOf, Decimal, ReadName, UpToDot;
    EnumParts(Decimal(|name|), name, k, rest);
    ParseEnum(Named("E", name) + "." + k + rest, name, "." + k + rest, p, rest);
  }

  lemma EnumParts(d: string, name: string, k: string, rest: string)
    ensures var s := "E" + d + "." + name + "." + k + rest;
      && s[0] == 'E' && s[1..] == d + "." + name + ("." + k + rest)
      && ("." + k + rest)[0] == '.' && ("." + k + rest)[1..] == k + rest
  {
    var s := "E" + d + "." + name + "." + k + rest;
    assert s[1..] == d + "." + name + ("." + k + rest);
    assert ("." + k + rest)[1..] == k + rest;
  }

  lemma ParseEnum(s: string, name: string, more: string, p: Prim, rest: string)
    requires s != "" && s[0] == 'E' && ReadName(s[1..]) == Some((name, more)) && more != "" && more[0] == '.'
    requires var n := UpToDot(more[1..]); PrimOf(more[1..][..n]) == Some(p) && more[1..][n..] == rest
    ensures Parse(s) == Some((Ty.Enum(name, Some(p)), rest))
  {
    hide UpToDot, IntOf, PrimOf, ReadName;
  }

  /** Keys are injective up to typedefs and the default underlying type of enums, also when
      something follows after a dot. */
  lemma KeyInjective(a: Ty, b: Ty, r: string, s: string)
    requires Suffix(r) && Suffix(s) && Key(a) + r == Key(b) + s
    ensures Norm(a) == Norm(b) && r == s
  {
    KeyReads(a, r);
    KeyReads(b, s);
  }

  function OptionalName(elem: Ty): string {
    "opt." + Key(elem)
  }

  function ResultName(success: Ty, error: Ty): string {
    "res." + Key(success) + "." + Key(error)
  }

  /** Two generated layouts share a name only if they are layouts of the same types. */
  lemma LayoutNamesInjective(a: Ty, b: Ty, c: Ty, d: Ty)
    ensures OptionalName(a) == OptionalName(b) ==> Norm(a) == Norm(b)
    ensures ResultName(a, b) == ResultName(c, d) ==> Norm(a) == Norm(c) && Norm(b) == Norm(d)
    ensures OptionalName(a) != ResultName(b, c)
  {
    hide Key, Norm;
    if OptionalName(a) == OptionalName(b) {
      TailsEqual("opt.", Key(a), Key(b));
      NothingAfter(Key(a));
      NothingAfter(Key(b));
      KeyInjective(a, b, "", "");
    }
    if ResultName(a, b) == ResultName(c, d) {
      ResultTails(Key(a), Key(b), Key(c), Key(d));
      KeyInjective(a, c, "." + Key(b), "." + Key(d));
      TailsEqual(".", Key(b), Key(d));
      NothingAfter(Key(b));
      NothingAfter(Key(d));
      KeyInjective(b, d, "", "");
    }
    assert OptionalName(a)[0] == 'o' && ResultName(b, c)[0] == 'r';
  }

  lemma TailsEqual(p: string, a: string, b: string)
    requires p + a == p + b
    ensures a == b
  {
    assert a == (p + a)[|p|..] && b == (p + b)[|p|..];
  }

  lemma NothingAfter(a: string)
    ensures a + "" == a
  {
  }

  lemma ResultTails(a: string, b: string, c: string, d: string)
    requires "res." + a + "." + b == "res." + c + "." + d
    ensures a + ("." + b) == c + ("." + d)
  {
    assert "res." + a + "." + b == "res." + (a + ("." + b)) && "res." + c + "." + d == "res." + (c + ("." + d));
    TailsEqual("res.", a + ("." + b), c + ("." + d));
  }
}
