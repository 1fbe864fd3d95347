/** What printf makes of the conversions the compiler builds. */
module FormatMeaning {
  import opened Decimals
  import opened FormatSpec
  import opened Options
  import FormatScan

  /** A conversion as printf reads it: flags, width, precision (or a '*' for it), whether the
      length modifier is "ll", and the conversion letter. */
  datatype Conversion = Conversion(plus: bool, space: bool, zero: bool, left: bool, width: nat,
                                   precision: Option<nat>, star: bool, wide: bool, letter: char)

  predicate IsFlag(c: char) {
    c == '+' || c == ' ' || c == '0' || c == '-'
  }

  function FlagCount(s: string): (n: nat)
    ensures n <= |s| && (forall i :: 0 <= i < n ==> IsFlag(s[i])) && (n < |s| ==> !IsFlag(s[n]))
  {
    if s == "" || !IsFlag(s[0]) then 0
    else
      assert forall i :: 0 < i < |s| ==> s[i] == s[1..][i - 1];
      1 + FlagCount(s[1..])
  }

  function ReadPrecision(s: string): (Option<nat>, bool, string) {
    if |s| >= 2 && s[0] == '.' && s[1] == '*' then (None, true, s[2..])
    else if s != "" && s[0] == '.' then
      (Some(Value(s[1..][..DigitCount(s[1..])])), false, s[1..][DigitCount(s[1..])..])
    else (None, false, s)
  }

  function ReadLength(s: string): (bool, string) {
    if |s| >= 2 && s[0] == 'l' && s[1] == 'l' then (true, s[2..]) else (false, s)
  }

  function ReadTail(flags: string, width: nat, s: string): Option<Conversion> {
    var (precision, star, s1) := ReadPrecision(s);
    var (wide, s2) := ReadLength(s1);
    if |s2| != 1 then None
    else Some(Conversion('+' in flags, ' ' in flags, '0' in flags, '-' in flags, width, precision, star, wide, s2[0]))
  }

  function ReadConversion(s: string): Option<Conversion> {
    if s == "" || s[0] != '%' then None
    else
      var n := FlagCount(s[1..]);
      var (width, rest) := Width(s[1..][n..]);
      ReadTail(s[1..][..n], width, rest)
  }

  // ---- what is asked for ----

  predicate Wide(kind: Kind) {
    kind == Int64 || kind == UInt64
  }

  predicate Signed(kind: Kind) {
    kind == Int32 || kind == Int64
  }

  /** The letter a specification asks for: its own, else decimal for integers, fixed point for
      floats, text for the rest. */
  function Asked(kind: Kind, p: Spec): char {
    if p.kind != NONE then p.kind
    else if IsInt(kind) then if Signed(kind) then 'd' else 'u'
    else if kind == Float then 'f'
    else 's'
  }

  /** Texts are put to the left by default, numbers to the right. */
  predicate ToLeft(kind: Kind, p: Spec) {
    p.align == '<' || (p.align == NONE && p.width > 0 && IsText(kind))
  }

  lemma FlagsRead(kind: Kind, p: Spec)
    requires p.sign == NONE || IsSign(p.sign)
    ensures var f := Flags(kind, p);
      && (forall i :: 0 <= i < |f| ==> IsFlag(f[i]))
      && ('+' in f <==> p.sign == '+') && (' ' in f <==> p.sign == ' ') && ('0' in f <==> p.zero)
      && ('-' in f <==> ToLeft(kind, p))
  {
  }

  lemma {:induction false} FlagCountIs(f: string, r: string)
    requires (forall i :: 0 <= i < |f| ==> IsFlag(f[i])) && (r == "" || !IsFlag(r[0]))
    ensures FlagCount(f + r) == |f|
  {
    if f != "" {
      assert (f + r)[1..] == f[1..] + r;
      FlagCountIs(f[1..], r);
    } else {
      assert f + r == r;
    }
  }

  /** The letters after width and precision. */
  lemma LettersMean(kind: Kind, p: Spec)
    requires Applies(kind, p)
    ensures var s := Letters(kind, p);
      && s != "" && !IsDigit(s[0]) && !IsFlag(s[0])
      && if kind == Str then s == ".*s" && Asked(kind, p) == 's'
         else s == (if IsInt(kind) && Wide(kind) then "ll" else "") + [Asked(kind, p)]
              && s[0] != '.' && Asked(kind, p) != 'l'
  {
  }

  function PrecisionText(p: Spec): string {
    if p.precision.Some? then "." + Decimal(p.precision.value) else ""
  }

  lemma LengthRead(wide: bool, letter: char)
    requires letter != 'l'
    ensures ReadLength((if wide then "ll" else "") + [letter]) == (wide, [letter])
  {
    if wide { assert ("ll" + [letter])[2..] == [letter]; } else { assert "" + [letter] == [letter]; }
  }

  lemma PrecisionRead(precision: Option<nat>, rest: string)
    requires rest != "" && !IsDigit(rest[0]) && rest[0] != '.'
    ensures ReadPrecision((if precision.Some? then "." + Decimal(precision.value) else "") + rest)
         == (precision, false, rest)
  {
    match precision
    case None => assert "" + rest == rest;
    case Some(n) =>
      var d := Decimal(n);
      DecimalValue(n);
      DigitCountIs(d, rest);
      var s := "." + d + rest;
      assert s[1..] == d + rest && s[1..][..|d|] == d && s[1..][|d|..] == rest;
      assert s[1] == d[0] && IsDigit(d[0]);
  }

  /** Precision and letters together. */
  lemma TailRead(kind: Kind, p: Spec, flags: string)
    requires Applies(kind, p)
    ensures var s := PrecisionText(p) + Letters(kind, p);
      && s != "" && !IsDigit(s[0]) && !IsFlag(s[0])
      && ReadTail(flags, p.width, s)
         == Some(Conversion('+' in flags, ' ' in flags, '0' in flags, '-' in flags, p.width, p.precision, kind == Str,
                            IsInt(kind) && Wide(kind), Asked(kind, p)))
  {
    LettersMean(kind, p);
    var letters := Letters(kind, p);
    if kind == Str {
      assert PrecisionText(p) + letters == ".*s" && ".*s"[2..] == "s";
      LengthRead(false, 's');
      assert "" + "s" == "s";
    } else {
      PrecisionRead(p.precision, letters);
      LengthRead(IsInt(kind) && Wide(kind), Asked(kind, p));
    }
    hide Letters, Decimal, Applies, Asked;
  }

  lemma WidthRead(width: nat, rest: string)
    requires rest != "" && !IsDigit(rest[0]) && !IsFlag(rest[0])
    ensures var s := (if width > 0 then Decimal(width) else "") + rest;
      s != "" && !IsFlag(s[0]) && Width(s) == (width, rest)
  {
    var d := if width > 0 then Decimal(width) else "";
    DecimalValue(width);
    DigitCountIs(d, rest);
    assert (d + rest)[..|d|] == d && (d + rest)[|d|..] == rest;
    assert Value("") == 0;
  }

  lemma HeadRead(flags: string, width: nat, rest: string)
    requires forall i :: 0 <= i < |flags| ==> IsFlag(flags[i])
    requires rest != "" && !IsDigit(rest[0]) && !IsFlag(rest[0])
    ensures ReadConversion("%" + flags + (if width > 0 then Decimal(width) else "") + rest)
      == ReadTail(flags, width, rest)
  {
    WidthRead(width, rest);
    var d := if width > 0 then Decimal(width) else "";
    FlagCountIs(flags, d + rest);
    Parts(flags, d, rest);
    hide Decimal, Width, ReadTail, FlagCount, IsFlag, IsDigit;
  }

  lemma Parts(flags: string, d: string, rest: string)
    ensures var s := "%" + flags + d + rest;
      && s != "" && s[0] == '%' && s[1..] == flags + (d + rest)
      && s[1..][..|flags|] == flags && s[1..][|flags|..] == d + rest
  {
  }

  /** printf reads back exactly what was asked for: sign, zero fill, side, width, precision,
      the size of the integer and the notation. */
  lemma ToPrintfMeans(kind: Kind, p: Spec)
    requires ToPrintf(kind, p).Some? && (p.sign == NONE || IsSign(p.sign))
    ensures if NeedsRender(p) then ToPrintf(kind, p) == Some(("%s", true))
      else
        && !ToPrintf(kind, p).value.1
        && ReadConversion(ToPrintf(kind, p).value.0)
           == Some(Conversion(p.sign == '+', p.sign == ' ', p.zero, ToLeft(kind, p), p.width, p.precision, kind == Str,
                              IsInt(kind) && Wide(kind), Asked(kind, p)))
  {
    if !NeedsRender(p) {
      var flags, tail := Flags(kind, p), PrecisionText(p) + Letters(kind, p);
      ToPrintfIs(kind, p);
      hide *;
      FlagsRead(kind, p);
      TailRead(kind, p, flags);
      HeadRead(flags, p.width, tail);
    }
  }

  lemma ToPrintfIs(kind: Kind, p: Spec)
    requires ToPrintf(kind, p).Some? && !NeedsRender(p)
    ensures Applies(kind, p)
    ensures ToPrintf(kind, p).value
         == ("%" + Flags(kind, p) + (if p.width > 0 then Decimal(p.width) else "")
               + (PrecisionText(p) + Letters(kind, p)),
             false)
  {
    hide Flags, Letters, Decimal, Applies;
    var head := "%" + Flags(kind, p) + (if p.width > 0 then Decimal(p.width) else "");
    var text, letters := PrecisionText(p), Letters(kind, p);
    assert head + text + letters == head + (text + letters);
  }

  /** A specification is refused exactly for kinds that take none, for a letter of another
      kind, for a precision of anything but a float and for zero fill of anything but a number. */
  lemma RefusedIff(kind: Kind, p: Spec)
    ensures ToPrintf(kind, p) == None <==>
      || kind == Char || kind == CString || kind == Pointer
      || (p.kind != NONE && IsInt(kind) && p.kind !in "xXob")
      || (p.kind != NONE && kind == Float && p.kind !in "fe")
      || (p.kind != NONE && !IsInt(kind) && kind != Float && p.kind != 's')
      || (p.precision.Some? && kind != Float)
      || (p.zero && !IsInt(kind) && kind != Float)
  {
  }

  // ---- what printf takes from the argument list ----

  datatype Argument = Word | DoubleWord | Real | Text | Counted | Address

  function Takes(c: Conversion): Option<Argument> {
    if c.letter in "duxXob" then Some(if c.wide then DoubleWord else Word)
    else if c.letter == 'c' then Some(Word)
    else if c.letter in "feg" then Some(Real)
    else if c.letter == 's' then Some(if c.star then Counted else Text)
    else if c.letter == 'p' then Some(Address)
    else None
  }

  /** What the generated call passes for a slot that is not rendered. */
  function Passes(kind: Kind): Argument {
    match kind
    case Int32 => Word
    case Int64 => DoubleWord
    case UInt32 => Word
    case UInt64 => DoubleWord
    case Char => Word
    case Float => Real
    case CString => Text
    case Str => Counted
    case Pointer => Address
    case Bool => Text
    case ToString => Text
  }

  /** Every conversion takes from the list what the call has put there. */
  lemma TakesWhatIsPassed(kind: Kind, p: Spec)
    requires ToPrintf(kind, p).Some? && (p.sign == NONE || IsSign(p.sign)) && !NeedsRender(p)
    ensures var c := ReadConversion(ToPrintf(kind, p).value.0); c.Some? && Takes(c.value) == Some(Passes(kind))
  {
    ToPrintfMeans(kind, p);
    ToPrintfIs(kind, p);
    AskedTakes(kind, p);
    hide *;
  }

  lemma AskedTakes(kind: Kind, p: Spec)
    requires Applies(kind, p)
    ensures forall c: Conversion ::
      c.letter == Asked(kind, p) && c.star == (kind == Str) && c.wide == (IsInt(kind) && Wide(kind)) ==>
        Takes(c) == Some(Passes(kind))
  {
  }

  /** The same for slots without a specification, which ask for decimal, general and plain. */
  lemma DefaultMeans(kind: Kind)
    ensures var c := ReadConversion(DefaultConversion(kind));
      && c.Some? && Takes(c.value) == Some(Passes(kind))
      && c.value.width == 0 && c.value.precision == None
      && !c.value.plus && !c.value.space && !c.value.zero && !c.value.left
      && (IsInt(kind) ==> c.value.letter == if Signed(kind) then 'd' else 'u')
      && (kind == Float ==> c.value.letter == 'g') && (kind == Char ==> c.value.letter == 'c')
  {
    var letters := DefaultConversion(kind)[1..];
    DefaultLetters(kind);
    HeadRead("", 0, letters);
    DefaultTail(kind, letters);
    DefaultTakes(kind);
    hide *;
  }

  lemma DefaultTakes(kind: Kind)
    ensures var letters := DefaultConversion(kind)[1..];
      && letters != ""
      && var c := letters[|letters| - 1];
         && Takes(Conversion(false, false, false, false, 0, None, kind == Str, Wide(kind), c)) == Some(Passes(kind))
         && (IsInt(kind) ==> c == if Signed(kind) then 'd' else 'u')
         && (kind == Float ==> c == 'g') && (kind == Char ==> c == 'c')
  {
  }

  lemma DefaultLetters(kind: Kind)
    ensures var letters := DefaultConversion(kind)[1..];
      && letters != "" && !IsDigit(letters[0]) && !IsFlag(letters[0])
      && DefaultConversion(kind) == "%" + "" + "" + letters
  {
  }

  lemma DefaultTail(kind: Kind, letters: string)
    requires letters == DefaultConversion(kind)[1..]
    ensures ReadTail("", 0, letters)
         == Some(Conversion(false, false, false, false, 0, None, kind == Str, Wide(kind), letters[|letters| - 1]))
  {
    if kind == Str {
      assert ".*s"[2..] == "s";
    } else {
      var c := letters[|letters| - 1];
      assert letters == (if Wide(kind) then "ll" else "") + [c];
      PrecisionRead(None, letters);
      assert "" + letters == letters;
      LengthRead(Wide(kind), c);
    }
  }

  // ---- a slot of a format ----

  lemma OnlyDefaultEmpty(p: Spec)
    requires Written(p)
    ensures Spell(p) == "" <==> p == DEFAULT
  {
  }

  /** A slot without text gets the default conversion; a text that is not accepted is a fault of
      syntax, a specification that its argument refuses a fault of type, and any other gets the
      conversion that asks for it. */
  lemma SlotMeans(kind: Kind, p: Spec)
    requires Written(p)
    ensures FormatScan.Convert(kind, Spell(p))
         == if p == DEFAULT then FormatScan.Good(DefaultConversion(kind), DEFAULT)
            else if !Legal(p) then FormatScan.Bad(FormatScan.SpecSyntax)
            else match ToPrintf(kind, p)
              case None => FormatScan.Bad(FormatScan.SpecType)
              case Some(c) => FormatScan.Good(c.0, p)
  {
    OnlyDefaultEmpty(p);
    SpellParses(p);
    hide Spell, ParseSpec, ToPrintf, DefaultConversion, Written, Conflicts;
  }
}
