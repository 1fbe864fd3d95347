/** Format specifications `[fill]align? sign? '0'? width? ('.' precision)? type?` and the
    printf conversions they become. */
module FormatSpec {
  import opened Decimals
  import opened Options

  datatype Spec = Spec(fill: char, align: char, sign: char, zero: bool, width: nat, precision: Option<nat>, kind: char)

  const NONE: char := '\0'
  const DEFAULT: Spec := Spec(' ', NONE, NONE, false, 0, None, NONE)

  datatype Kind = Int32 | Int64 | UInt32 | UInt64 | Char | Float | CString | Str | Pointer | Bool | ToString

  predicate IsAlign(c: char) {
    c == '<' || c == '>' || c == '^'
  }

  predicate IsSign(c: char) {
    c == '+' || c == '-' || c == ' '
  }

  predicate IsType(c: char) {
    c == 'x' || c == 'X' || c == 'o' || c == 'b' || c == 'f' || c == 'e' || c == 's'
  }

  // ---- numbers ----

  /** How many digits the text starts with. */
  function DigitCount(s: string): (n: nat)
    ensures n <= |s| && AllDigits(s[..n]) && (n < |s| ==> !IsDigit(s[n]))
  {
    if s == "" || !IsDigit(s[0]) then 0
    else
      assert forall i :: 0 < i < |s| ==> s[i] == s[1..][i - 1];
      1 + DigitCount(s[1..])
  }

  lemma {:induction false} DigitCountIs(d: string, r: string)
    requires AllDigits(d) && (r == "" || !IsDigit(r[0]))
    ensures DigitCount(d + r) == |d|
  {
    if d != "" {
      assert (d + r)[1..] == d[1..] + r;
      DigitCountIs(d[1..], r);
    } else {
      assert d + r == r;
    }
  }

  // ---- parsing, part by part; each part answers with what is left ----

  function FillAlign(s: string): (char, char, string) {
    if s != "" && IsAlign(s[0]) then (' ', s[0], s[1..])
    else if |s| >= 2 && s[0] != '{' && s[0] != '}' && s[0] != ':' && !IsDigit(s[0]) && IsAlign(s[1])
    then (s[0], s[1], s[2..])
    else (' ', NONE, s)
  }

  function Sign(s: string): (char, string) {
    if s != "" && IsSign(s[0]) then (s[0], s[1..]) else (NONE, s)
  }

  function Zero(s: string): (bool, string) {
    if s != "" && s[0] == '0' then (true, s[1..]) else (false, s)
  }

  function Width(s: string): (nat, string) {
    (Value(s[..DigitCount(s)]), s[DigitCount(s)..])
  }

  /** Nothing when a '.' is not followed by a digit. */
  function Precision(s: string): Option<(Option<nat>, string)> {
    if s == "" || s[0] != '.' then Some((None, s))
    else
      var n := DigitCount(s[1..]);
      if n == 0 then None else Some((Some(Value(s[1..][..n])), s[1..][n..]))
  }

  function TypeOf(s: string): Option<char> {
    if s == "" then Some(NONE)
    else if |s| == 1 && IsType(s[0]) then Some(s[0])
    else None
  }

  predicate Conflicts(p: Spec) {
    || (p.zero && (p.align == '<' || p.align == '^' || p.width == 0))
    || (p.align != NONE && p.width == 0)
    || p.width > 200 || (p.precision.Some? && p.precision.value > 200)
  }

  function ParseSpec(s: string): Option<Spec> {
    var (fill, align, s1) := FillAlign(s);
    var (sign, s2) := Sign(s1);
    var (zero, s3) := Zero(s2);
    var (width, s4) := Width(s3);
    match Precision(s4)
    case None => None
    case Some(q) =>
      if zero && q.1 != "" && (q.1[0] == '<' || q.1[0] == '^') then None
      else match TypeOf(q.1)
        case None => None
        case Some(kind) =>
          var p := Spec(fill, align, sign, zero, width, q.0, kind);
          if Conflicts(p) then None else Some(p)
  }

  /** The specifications that can be written: an alignment and a sign of their kinds, a fill
      character only in front of an alignment, and a type letter. */
  predicate Written(p: Spec) {
    && (p.align == NONE || IsAlign(p.align))
    && (p.fill != ' ' ==>
          p.align != NONE && !IsAlign(p.fill) && p.fill != '{' && p.fill != '}' && p.fill != ':' && !IsDigit(p.fill))
    && (p.sign == NONE || IsSign(p.sign))
    && (p.kind == NONE || IsType(p.kind))
  }

  predicate Legal(p: Spec) {
    Written(p) && !Conflicts(p)
  }

  // ---- spelling ----

  function Opt(c: char): string {
    if c == NONE then "" else [c]
  }

  function SpellTail(p: Spec): string {
    (if p.precision.Some? then "." + Decimal(p.precision.value) else "") + Opt(p.kind)
  }

  function SpellWidth(p: Spec): string {
    (if p.width > 0 then Decimal(p.width) else "") + SpellTail(p)
  }

  function SpellZero(p: Spec): string {
    (if p.zero then "0" else "") + SpellWidth(p)
  }

  function SpellSign(p: Spec): string {
    Opt(p.sign) + SpellZero(p)
  }

  function Spell(p: Spec): string {
    (if p.fill != ' ' then [p.fill] else "") + Opt(p.align) + SpellSign(p)
  }

  lemma TailParses(p: Spec)
    requires Written(p)
    ensures SpellTail(p) == "" || SpellTail(p)[0] == '.' || IsType(SpellTail(p)[0])
    ensures Precision(SpellTail(p)) == Some((p.precision, Opt(p.kind))) && TypeOf(Opt(p.kind)) == Some(p.kind)
  {
    if p.precision.Some? {
      var d, k := Decimal(p.precision.value), Opt(p.kind);
      DecimalValue(p.precision.value);
      DigitCountIs(d, k);
      assert SpellTail(p)[1..] == d + k;
      assert (d + k)[..|d|] == d && (d + k)[|d|..] == k;
    } else {
      assert SpellTail(p) == Opt(p.kind);
    }
  }

  lemma WidthParses(p: Spec)
    requires Written(p)
    ensures Width(SpellWidth(p)) == (p.width, SpellTail(p))
    ensures var s := SpellWidth(p); s == "" || (IsDigit(s[0]) && s[0] != '0') || s[0] == '.' || IsType(s[0])
  {
    var d, t := if p.width > 0 then Decimal(p.width) else "", SpellTail(p);
    TailParses(p);
    DecimalValue(p.width);
    DigitCountIs(d, t);
    assert (d + t)[..|d|] == d && (d + t)[|d|..] == t;
  }

  lemma ZeroParses(p: Spec)
    requires Written(p)
    ensures Zero(SpellZero(p)) == (p.zero, SpellWidth(p))
    ensures var s := SpellZero(p); s == "" || IsDigit(s[0]) || s[0] == '.' || IsType(s[0])
    ensures var s := SpellZero(p); |s| >= 2 ==> !IsAlign(s[1])
  {
    WidthParses(p);
    var w := SpellWidth(p);
    if p.zero { assert SpellZero(p)[1..] == w; } else { assert SpellZero(p) == w; }
    SecondPlain(p);
  }

  /** Past the alignment no align character can appear in a spelling. */
  lemma SecondPlain(p: Spec)
    requires Written(p)
    ensures forall k :: 0 <= k < |SpellZero(p)| ==> !IsAlign(SpellZero(p)[k])
  {
    DecimalValue(p.width);
    if p.precision.Some? { DecimalValue(p.precision.value); }
    hide Decimal, Value, Conflicts;
    assert forall k :: 0 <= k < |SpellTail(p)| ==> !IsAlign(SpellTail(p)[k]);
    assert forall k :: 0 <= k < |SpellWidth(p)| ==> !IsAlign(SpellWidth(p)[k]);
  }

  lemma SignParses(p: Spec)
    requires Written(p)
    ensures Sign(SpellSign(p)) == (p.sign, SpellZero(p)) && (p.sign == NONE || IsSign(p.sign))
    ensures var s := SpellSign(p); (s != "" ==> !IsAlign(s[0])) && (|s| >= 2 ==> !IsAlign(s[1]))
  {
    if p.sign == NONE { assert SpellSign(p) == SpellZero(p); }
    ZeroParses(p);
    SecondPlain(p);
    var z := SpellZero(p);
    if z != "" { NoSign(z[0]); }
    SignPlain(p.sign);
    assert p.sign == NONE || IsSign(p.sign);
    assert SpellSign(p) == Opt(p.sign) + z;
    hide *;
    SignSplits(p.sign, z);
  }

  lemma SignSplits(c: char, z: string)
    requires c == NONE || (IsSign(c) && !IsAlign(c))
    requires z != "" ==> !IsSign(z[0]) && !IsAlign(z[0])
    ensures Sign(Opt(c) + z) == (c, z)
    ensures var s := Opt(c) + z; (s != "" ==> !IsAlign(s[0])) && (|s| >= 2 && c != NONE ==> !IsAlign(s[1]))
  {
    hide IsAlign;
    if c == NONE { assert "" + z == z; } else { assert ([c] + z)[1..] == z; }
  }

  lemma NoSign(c: char)
    ensures IsDigit(c) || c == '.' || IsType(c) ==> !IsSign(c) && !IsAlign(c)
  {
  }

  lemma SignPlain(c: char)
    ensures IsSign(c) ==> !IsAlign(c)
  {
  }

  lemma FillParses(p: Spec)
    requires Written(p)
    ensures FillAlign(Spell(p)) == (p.fill, p.align, SpellSign(p))
  {
    SignParses(p);
    assert Spell(p) == (if p.fill != ' ' then [p.fill] else "") + Opt(p.align) + SpellSign(p);
    hide SpellSign, Spell, Conflicts, Sign;
    FillSplits(p.fill, p.align, SpellSign(p));
  }

  lemma FillSplits(fill: char, align: char, g: string)
    requires align == NONE || IsAlign(align)
    requires fill != ' ' ==>
      align != NONE && !IsAlign(fill) && fill != '{' && fill != '}' && fill != ':' && !IsDigit(fill)
    requires (g != "" ==> !IsAlign(g[0])) && (|g| >= 2 ==> !IsAlign(g[1]))
    ensures FillAlign((if fill != ' ' then [fill] else "") + Opt(align) + g) == (fill, align, g)
  {
    hide IsAlign, IsDigit;
    if align == NONE {
      assert "" + "" + g == g;
    } else if fill == ' ' {
      assert "" + [align] + g == [align] + g && ([align] + g)[1..] == g;
    } else {
      assert [fill] + [align] + g == [fill, align] + g && ([fill, align] + g)[2..] == g;
    }
  }

  lemma SpellParses(p: Spec)
    requires Written(p)
    ensures ParseSpec(Spell(p)) == if Conflicts(p) then None else Some(p)
  {
    hide FillAlign, Sign, Zero, Width, Precision, Spell, SpellSign, SpellZero, SpellWidth, SpellTail, TypeOf, Conflicts;
    FillParses(p);
    SignParses(p);
    ZeroParses(p);
    WidthParses(p);
    TailParses(p);
    assert Opt(p.kind) != "" ==> Opt(p.kind)[0] == p.kind && !IsAlign(p.kind);
  }

  /** Every legal specification is read back from its spelling. */
  lemma ParseSpell(p: Spec)
    requires Legal(p)
    ensures ParseSpec(Spell(p)) == Some(p)
  {
    SpellParses(p);
    hide ParseSpec, Spell;
  }

  /** A text is accepted up to widths and precisions of 200, if an alignment or a zero flag comes
      with a width, and zeros are filled in at the left only. */
  lemma AcceptedIff(p: Spec)
    requires Written(p)
    ensures ParseSpec(Spell(p)).Some? <==>
      && p.width <= 200 && (p.precision.Some? ==> p.precision.value <= 200)
      && (p.align != NONE || p.zero ==> p.width > 0)
      && (p.zero ==> p.align == NONE || p.align == '>')
  {
    SpellParses(p);
    hide ParseSpec, Spell;
  }

  /** Only legal specifications are accepted. */
  lemma ParseLegal(s: string)
    ensures ParseSpec(s).Some? ==> Legal(ParseSpec(s).value)
  {
    hide Value, DigitCount;
  }

  /** The text is made of these parts and nothing else: fill and alignment, sign, zero flag, the
      digits of the width, a point with the digits of the precision, and the type. */
  predicate MadeOf(s: string, p: Spec, fill: string, width: string, precision: string) {
    && s == fill + Opt(p.sign) + (if p.zero then "0" else "") + width
            + (if p.precision.Some? then "." + precision else "") + Opt(p.kind)
    && ((fill == Opt(p.align) && p.fill == ' ') || (p.align != NONE && fill == [p.fill, p.align]))
    && AllDigits(width) && Value(width) == p.width
    && (p.precision.Some? ==> precision != "" && AllDigits(precision) && Value(precision) == p.precision.value)
  }

  lemma FillPart(s: string)
    ensures var (fill, align, rest) := FillAlign(s);
      (s == Opt(align) + rest && fill == ' ') || (align != NONE && s == [fill, align] + rest)
  {
  }

  lemma SignPart(s: string)
    ensures var (sign, rest) := Sign(s); s == Opt(sign) + rest
  {
  }

  lemma ZeroPart(s: string)
    ensures var (zero, rest) := Zero(s); s == (if zero then "0" else "") + rest
  {
  }

  lemma WidthPart(s: string)
    ensures var d := s[..DigitCount(s)];
      s == d + Width(s).1 && AllDigits(d) && Value(d) == Width(s).0
  {
  }

  lemma PrecisionPart(s: string)
    requires Precision(s).Some? && TypeOf(Precision(s).value.1).Some?
    ensures var (precision, rest) := Precision(s).value; var kind := TypeOf(rest).value;
      && rest == Opt(kind)
      && (precision == None ==> s == Opt(kind))
      && (precision.Some? ==>
            s != "" && var d := s[1..][..DigitCount(s[1..])];
            s == "." + d + Opt(kind) && d != "" && AllDigits(d) && Value(d) == precision.value)
  {
    hide Value;
    if s != "" && s[0] == '.' { assert s == "." + s[1..][..DigitCount(s[1..])] + s[1..][DigitCount(s[1..])..]; }
  }

  /** An accepted text holds nothing beside its specification. */
  lemma ParseParts(s: string)
    requires ParseSpec(s).Some?
    ensures exists fill, width, precision :: MadeOf(s, ParseSpec(s).value, fill, width, precision)
  {
    var p := ParseSpec(s).value;
    var (f, a, s1) := FillAlign(s);
    var (_, s2) := Sign(s1);
    var (_, s3) := Zero(s2);
    var (_, s4) := Width(s3);
    ParsedIs(s);
    FillPart(s);
    SignPart(s1);
    ZeroPart(s2);
    WidthPart(s3);
    PrecisionPart(s4);
    hide *;
    var fill := if s == Opt(a) + s1 && f == ' ' then Opt(a) else [f, a];
    var precision := if p.precision.Some? then s4[1..][..DigitCount(s4[1..])] else "";
    Collected(s, p, fill, s3[..DigitCount(s3)], precision, s1, s2, s3, s4);
  }

  lemma ParsedIs(s: string)
    requires ParseSpec(s).Some?
    ensures var (fill, align, s1) := FillAlign(s); var (sign, s2) := Sign(s1); var (zero, s3) := Zero(s2);
      var (width, s4) := Width(s3);
      && Precision(s4).Some? && TypeOf(Precision(s4).value.1).Some?
      && ParseSpec(s) == Some(Spec(fill, align, sign, zero, width, Precision(s4).value.0,
                                   TypeOf(Precision(s4).value.1).value))
  {
    hide FillAlign, Sign, Zero, Width, Precision, TypeOf, Conflicts;
  }

  lemma Collected(s: string, p: Spec, fill: string, width: string, precision: string,
      s1: string, s2: string, s3: string, s4: string)
    requires (fill == Opt(p.align) && p.fill == ' ') || (p.align != NONE && fill == [p.fill, p.align])
    requires s == fill + s1 && s1 == Opt(p.sign) + s2 && s2 == (if p.zero then "0" else "") + s3 && s3 == width + s4
    requires p.precision == None ==> s4 == Opt(p.kind)
    requires p.precision.Some? ==>
      && s4 == "." + precision + Opt(p.kind)
      && precision != "" && AllDigits(precision) && Value(precision) == p.precision.value
    requires AllDigits(width) && Value(width) == p.width
    ensures MadeOf(s, p, fill, width, precision)
  {
    var z, q := if p.zero then "0" else "", if p.precision.Some? then "." + precision else "";
    hide Opt, Value, AllDigits;
    assert s4 == q + Opt(p.kind);
    assert fill + Opt(p.sign) + z + width + q + Opt(p.kind) == fill + (Opt(p.sign) + (z + (width + (q + Opt(p.kind)))));
  }

  // ---- printf conversions ----

  function DefaultConversion(kind: Kind): string {
    match kind
    case Int32 => "%d"
    case Int64 => "%lld"
    case UInt32 => "%u"
    case UInt64 => "%llu"
    case Char => "%c"
    case Float => "%g"
    case CString => "%s"
    case Str => "%.*s"
    case Pointer => "%p"
    case Bool => "%s"
    case ToString => "%s"
  }

  predicate IsInt(kind: Kind) {
    kind == Int32 || kind == Int64 || kind == UInt32 || kind == UInt64
  }

  predicate IsText(kind: Kind) {
    kind == Str || kind == Bool || kind == ToString
  }

  /** Does the specification apply to an argument of this kind? */
  predicate Applies(kind: Kind, p: Spec) {
    && !(kind == Char || kind == CString || kind == Pointer)
    && (p.kind != NONE ==>
          || (IsInt(kind) && (p.kind == 'x' || p.kind == 'X' || p.kind == 'o' || p.kind == 'b'))
          || (kind == Float && (p.kind == 'f' || p.kind == 'e'))
          || (IsText(kind) && p.kind == 's'))
    && (p.precision.Some? ==> kind == Float)
    && (p.zero ==> IsInt(kind) || kind == Float)
  }

  /** Centering and fill characters are rendered before printf sees the value. */
  predicate NeedsRender(p: Spec) {
    p.align == '^' || (p.fill != ' ' && p.fill != NONE)
  }

  function Flags(kind: Kind, p: Spec): string {
    (if p.sign == '+' then "+" else if p.sign == ' ' then " " else "")
    + (if p.zero then "0" else "")
    + if p.align == '<' || (p.align == NONE && p.width > 0 && IsText(kind)) then "-" else ""
  }

  function Letters(kind: Kind, p: Spec): string {
    if IsInt(kind) then
      if p.kind != NONE then (if kind == Int64 || kind == UInt64 then "ll" else "") + [p.kind]
      else DefaultConversion(kind)[1..]
    else if kind == Float then [if p.kind != NONE then p.kind else 'f']
    else if kind == Str then ".*s"
    else "s"
  }

  /** The conversion and whether the value is rendered beforehand; nothing if the
      specification does not apply. */
  function ToPrintf(kind: Kind, p: Spec): Option<(string, bool)> {
    if !Applies(kind, p) then None
    else if NeedsRender(p) then Some(("%s", true))
    else Some(("%" + Flags(kind, p)
               + (if p.width > 0 then Decimal(p.width) else "")
               + (if p.precision.Some? then "." + Decimal(p.precision.value) else "")
               + Letters(kind, p), false))
  }

  // ---- how printf reads a conversion ----

  /** Flags, digits, '.', '*' and length letters come before the conversion letter. */
  predicate IsModifier(c: char) {
    IsDigit(c) || c == '+' || c == '-' || c == ' ' || c == '.' || c == '*' || c == 'l'
  }

  predicate IsLetter(c: char) {
    || c == 'd' || c == 'u' || c == 'c' || c == 'g' || c == 's' || c == 'p'
    || c == 'x' || c == 'X' || c == 'o' || c == 'b' || c == 'f' || c == 'e'
  }

  /** A '%', modifiers and one conversion letter. */
  predicate IsConversion(s: string) {
    && |s| >= 2 && s[0] == '%' && IsLetter(s[|s| - 1])
    && forall i :: 1 <= i < |s| - 1 ==> IsModifier(s[i])
  }

  function Stars(s: string): nat {
    if s == "" then 0 else Stars(s[..|s| - 1]) + if s[|s| - 1] == '*' then 1 else 0
  }

  lemma {:induction false} StarsConcat(a: string, b: string)
    ensures Stars(a + b) == Stars(a) + Stars(b)
    decreases |b|
  {
    if b == "" {
      assert a + b == a;
    } else {
      var n := |b| - 1;
      assert (a + b)[..|a| + n] == a + b[..n];
      StarsConcat(a, b[..n]);
    }
  }

  lemma {:induction false} NoStars(s: string)
    requires forall i :: 0 <= i < |s| ==> s[i] != '*'
    ensures Stars(s) == 0
  {
    if s != "" { NoStars(s[..|s| - 1]); }
  }

  lemma StrStars()
    ensures Stars(".*s") == 1 && Stars("%.*s") == 1
  {
    assert ".*s" == ".*" + "s" && "%.*s" == "%." + "*s";
    StarsConcat(".", "*s");
    assert ".*s" == "." + "*s";
    StarsConcat("%.", "*s");
    NoStars(".");
    NoStars("%.");
    StarsConcat("*", "s");
    assert "*s" == "*" + "s";
    assert "*"[..0] == "";
    NoStars("s");
  }

  /** The arguments the generated call pushes for a slot. */
  function Pushed(kind: Kind, p: Spec): nat {
    if NeedsRender(p) then 1 else if kind == Str then 2 else 1
  }

  lemma DefaultReads(kind: Kind)
    ensures IsConversion(DefaultConversion(kind)) && 1 + Stars(DefaultConversion(kind)) == Pushed(kind, DEFAULT)
  {
    StrStars();
    if kind != Str { NoStars(DefaultConversion(kind)); }
  }

  /** Every conversion built is one printf conversion that takes exactly the arguments the
      generated call pushes: a length and a pointer for a text that is not rendered. */
  lemma ToPrintfReads(kind: Kind, p: Spec)
    requires ToPrintf(kind, p).Some? && (p.kind == NONE || IsType(p.kind))
    ensures var c := ToPrintf(kind, p).value.0;
      IsConversion(c) && 1 + Stars(c) == Pushed(kind, p) && ToPrintf(kind, p).value.1 == NeedsRender(p)
  {
    if NeedsRender(p) {
      NoStars("%s");
    } else {
      var head := "%" + Flags(kind, p) + (if p.width > 0 then Decimal(p.width) else "")
                  + (if p.precision.Some? then "." + Decimal(p.precision.value) else "");
      HeadReads(kind, p, head);
      LettersRead(kind, p);
      hide Flags, Letters, Decimal, IsType, Stars, IsModifier, IsLetter;
      ConversionParts(head, Letters(kind, p));
      assert ToPrintf(kind, p).value.0 == head + Letters(kind, p);
      hide *;
    }
  }

  lemma ConversionParts(head: string, letters: string)
    requires head != "" && letters != "" && head[0] == '%' && IsLetter(letters[|letters| - 1])
    requires forall i :: 1 <= i < |head| ==> IsModifier(head[i])
    requires forall i :: 0 <= i < |letters| - 1 ==> IsModifier(letters[i])
    ensures IsConversion(head + letters) && Stars(head + letters) == Stars(head) + Stars(letters)
  {
    hide IsModifier, IsLetter;
    StarsConcat(head, letters);
  }

  predicate Plain(s: string) {
    forall i :: 0 <= i < |s| ==> IsModifier(s[i]) && s[i] != '*'
  }

  lemma DecimalPlain(n: nat)
    ensures Plain(Decimal(n)) && Plain("." + Decimal(n))
  {
    DecimalValue(n);
    hide Decimal, Value;
  }

  lemma FlagsPlain(kind: Kind, p: Spec)
    ensures Plain(Flags(kind, p))
  {
  }

  lemma HeadReads(kind: Kind, p: Spec, head: string)
    requires head == "%" + Flags(kind, p) + (if p.width > 0 then Decimal(p.width) else "")
                     + (if p.precision.Some? then "." + Decimal(p.precision.value) else "")
    ensures head[0] == '%' && (forall i :: 1 <= i < |head| ==> IsModifier(head[i])) && Stars(head) == 0
  {
    FlagsPlain(kind, p);
    DecimalPlain(p.width);
    if p.precision.Some? { DecimalPlain(p.precision.value); }
    hide Decimal, Flags, IsModifier, IsInt, IsText;
    NoStars(head);
  }

  lemma LettersRead(kind: Kind, p: Spec)
    requires Applies(kind, p) && (p.kind == NONE || IsType(p.kind))
    ensures var s := Letters(kind, p);
      && s != "" && IsLetter(s[|s| - 1]) && (forall i :: 0 <= i < |s| - 1 ==> IsModifier(s[i]))
      && Stars(s) == if kind == Str then 1 else 0
  {
    StrStars();
    if kind != Str { NoStars(Letters(kind, p)); }
  }
}
