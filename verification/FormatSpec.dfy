/** The text that rt_vsnprintf produces, with no bound on its length (kservice.c, in the build with
    RT_PRINTF_PRECISION and without RT_PRINTF_LONGLONG and RT_PRINTF_SPECIAL). */
module FormatSpec {
  import opened RtDef

  const NUL: char := '\0'

  datatype Flags = Flags(zeropad: bool, sign: bool, plus: bool, space: bool, left: bool, large: bool)

  function Rep(c: char, n: int): (r: seq<char>)
    ensures |r| == if n <= 0 then 0 else n
  {
    if n <= 0 then [] else seq(n, _ => c)
  }

  // ----- numbers -----

  /** `divide` knows two bases only. */
  function Radix(base: nat): nat {
    if base == 10 then 10 else 16
  }

  function Digit(d: nat, large: bool): char
    requires d < 16
  {
    if d < 10 then ('0' as int + d) as char else ((if large then 'A' else 'a') as int + (d - 10)) as char
  }

  /** The digits of a positive number, most significant first; none for zero. */
  function Digits(n: nat, radix: nat, large: bool): seq<char>
    requires 2 <= radix <= 16
    decreases n
  {
    if n == 0 then [] else Digits(n / radix, radix, large) + [Digit(n % radix, large)]
  }

  function DigitText(n: nat, radix: nat, large: bool): (r: seq<char>)
    requires 2 <= radix <= 16
    ensures r != []
  {
    if n == 0 then "0" else Digits(n, radix, large)
  }

  function DigitValue(c: char): nat {
    if '0' <= c <= '9' then c as int - '0' as int
    else if 'a' <= c <= 'f' then c as int - 'a' as int + 10
    else if 'A' <= c <= 'F' then c as int - 'A' as int + 10
    else 0
  }

  function ParseNumber(ds: seq<char>, radix: nat): nat
    decreases |ds|
  {
    if ds == [] then 0 else ParseNumber(ds[..|ds| - 1], radix) * radix + DigitValue(ds[|ds| - 1])
  }

  lemma DigitRoundTrip(d: nat, large: bool)
    requires d < 16
    ensures DigitValue(Digit(d, large)) == d
  {
  }

  /** One division: what is left of the number has the digits that are left. */
  lemma LastDigit(n: nat, radix: nat, large: bool, ds: seq<char>)
    requires 2 <= radix <= 16 && n > 0 && ds == Digits(n, radix, large)
    ensures ds != [] && ds[..|ds| - 1] == Digits(n / radix, radix, large) && ds[|ds| - 1] == Digit(n % radix, large)
  {
  }

  lemma Divide(n: nat, radix: nat) returns (rest: nat, last: nat)
    requires n > 0 && radix >= 2
    ensures rest == n / radix && last == n % radix && rest < n && last < radix && rest * radix + last == n
  {
    rest, last := n / radix, n % radix;
    QuotientAndRest(n, radix);
    QuotientFalls(n, radix, rest, last);
  }

  lemma QuotientFalls(n: nat, radix: nat, rest: nat, last: nat)
    requires n > 0 && radix >= 2 && rest * radix + last == n
    ensures rest < n
  {
    ProductGrows(rest, 2, radix);
  }

  lemma ParseLast(ds: seq<char>, radix: nat, rest: nat, last: nat)
    requires ds != [] && ParseNumber(ds[..|ds| - 1], radix) == rest && DigitValue(ds[|ds| - 1]) == last
    ensures ParseNumber(ds, radix) == rest * radix + last
  {
  }

  /** The digits written for a number read back as that number. */
  lemma {:induction false} DigitsParse(n: nat, radix: nat, large: bool)
    requires 2 <= radix <= 16
    ensures ParseNumber(Digits(n, radix, large), radix) == n
    decreases n
  {
    if n > 0 {
      var rest, last := Divide(n, radix);
      var ds := Digits(n, radix, large);
      LastDigit(n, radix, large, ds);
      DigitRoundTrip(last, large);
      DigitsParse(rest, radix, large);
      ParseLast(ds, radix, rest, last);
    }
  }

  lemma QuotientAndRest(n: nat, radix: nat)
    requires radix > 0
    ensures n / radix * radix + n % radix == n && n / radix >= 0 && 0 <= n % radix < radix
  {
  }

  lemma DigitTextParses(n: nat, radix: nat, large: bool)
    requires 2 <= radix <= 16
    ensures ParseNumber(DigitText(n, radix, large), radix) == n
  {
    if n == 0 {
      assert "0"[..0] == [];
    } else {
      DigitsParse(n, radix, large);
    }
  }

  function Power(radix: nat, k: nat): nat {
    if k == 0 then 1 else radix * Power(radix, k - 1)
  }

  lemma {:induction false} DigitCount(n: nat, radix: nat, large: bool, k: nat)
    requires 2 <= radix <= 16 && n < Power(radix, k)
    ensures |Digits(n, radix, large)| <= k
    decreases k
  {
    if n > 0 {
      DivideBelow(n, radix, Power(radix, k - 1));
      DigitCount(n / radix, radix, large, k - 1);
    }
  }

  lemma DivideBelow(n: nat, radix: nat, m: nat)
    requires radix > 0 && n < radix * m
    ensures n / radix < m
  {
    if n / radix >= m {
      ProductGrows(radix, m, n / radix);
    }
  }

  lemma ProductGrows(radix: nat, m: nat, q: nat)
    requires m <= q
    ensures radix * m <= radix * q
  {
  }

  /** A 32-bit number has at most ten digits, so that it fits the sixteen of the scratch buffer. */
  lemma DigitsFit(n: USize, base: nat, large: bool)
    ensures |DigitText(n, Radix(base), large)| <= 10
  {
    PowersReach();
    DigitCount(n, Radix(base), large, 10);
  }

  lemma PowersReach()
    ensures Power(10, 10) == 100_0000_0000 && Power(16, 10) == 0x100_0000_0000
  {
    assert Power(10, 4) == 1_0000 && Power(16, 4) == 0x1_0000;
    assert Power(10, 8) == 1_0000_0000 && Power(16, 8) == 0x1_0000_0000;
  }

  /** The number is a 32-bit pattern, read as signed under the SIGN flag. */
  predicate Negative(n: USize, f: Flags) {
    f.sign && n >= 0x8000_0000
  }

  function Magnitude(n: USize, f: Flags): USize {
    if Negative(n, f) then WORD_RANGE - n else n
  }

  function Sign(n: USize, f: Flags): seq<char> {
    if Negative(n, f) then "-" else if f.sign && f.plus then "+" else if f.sign && f.space then " " else ""
  }

  /** What comes before the digits: blanks and the sign, or the sign and zeros. */
  function Lead(pad: int, sign: seq<char>, zeropad: bool, left: bool): seq<char> {
    if left then sign else if zeropad then sign + Rep('0', pad) else Rep(' ', pad) + sign
  }

  /** Field of `width` around the digits ds: sign, at least `precision` digits, and padding on one
      side: blanks on the left, zeros behind the sign, or blanks on the right. Precision zero drops
      the digits. */
  function Field(ds: seq<char>, sign: seq<char>, width: int, precision: int, f: Flags): seq<char> {
    var count := Max(|ds|, precision);
    var pad := width - count - |sign|;
    Lead(pad, sign, f.zeropad, f.left) + Body(ds, count, precision) + Rep(' ', if f.left then pad else 0)
  }

  function Body(ds: seq<char>, count: int, precision: int): seq<char> {
    Rep('0', count - |ds|) + if precision == 0 then [] else ds
  }

  function NumberText(n: USize, base: nat, width: int, precision: int, f: Flags): seq<char> {
    Field(DigitText(Magnitude(n, f), Radix(base), f.large), Sign(n, f), width, precision, f)
  }

  /** The length of a number field; with precision zero every digit is missing, so that even a
      number other than zero prints none. */
  lemma NumberLength(n: USize, base: nat, width: int, precision: int, f: Flags)
    ensures var ds := DigitText(Magnitude(n, f), Radix(base), f.large);
      var full := Max(width, Max(|ds|, precision) + |Sign(n, f)|);
      |NumberText(n, base, width, precision, f)| == if precision != 0 then full else full - |ds|
  {
  }

  lemma {:induction false} ZerosParse(k: nat, ds: seq<char>, radix: nat)
    ensures ParseNumber(Rep('0', k) + ds, radix) == ParseNumber(ds, radix)
    decreases |ds|, k
  {
    var text := Rep('0', k) + ds;
    if ds != [] {
      ZerosParse(k, ds[..|ds| - 1], radix);
      assert text[..|text| - 1] == Rep('0', k) + ds[..|ds| - 1];
    } else if k > 0 {
      ZerosParse(k - 1, [], radix);
      assert text[..|text| - 1] == Rep('0', k - 1) + [];
    }
  }

  /** The numeral of a field: the digits behind as many zeros as precision and zero padding ask for. */
  function Numeral(ds: seq<char>, signs: int, width: int, precision: int, f: Flags): seq<char> {
    var count := Max(|ds|, precision);
    Rep('0', if f.zeropad && !f.left then width - count - signs else 0) + Body(ds, count, precision)
  }

  /** In each of the three layouts a field is blanks, the sign, the numeral, and blanks, with blanks on
      one side only. */
  lemma FieldLayout(ds: seq<char>, sign: seq<char>, width: int, precision: int, f: Flags) returns (a: nat, b: nat)
    ensures Field(ds, sign, width, precision, f) == Rep(' ', a) + sign + Numeral(ds, |sign|, width, precision, f) + Rep(' ', b)
    ensures a == 0 || b == 0
  {
    var pad := Max(width - Max(|ds|, precision) - |sign|, 0);
    a, b := 0, 0;
    if f.left {
      b := pad;
    } else if !f.zeropad {
      a := pad;
    }
  }

  /** The zeros in front change nothing; precision zero drops the digits. */
  lemma NumeralParses(ds: seq<char>, signs: int, width: int, precision: int, f: Flags, radix: nat)
    ensures ParseNumber(Numeral(ds, signs, width, precision, f), radix) == if precision == 0 then 0 else ParseNumber(ds, radix)
  {
    var count := Max(|ds|, precision);
    var pad := Max(if f.zeropad && !f.left then width - count - signs else 0, 0);
    var shown := if precision == 0 then [] else ds;
    assert Numeral(ds, signs, width, precision, f) == Rep('0', pad) + (Rep('0', count - |ds|) + shown);
    ZerosParse(pad, Rep('0', count - |ds|) + shown, radix);
    ZerosParse(count - |ds|, shown, radix);
  }

  /** Whatever the width, the precision and the flags, what is printed is the sign and a numeral,
      between blanks, and the numeral reads back as the magnitude in base 10 or 16: exactly if the
      precision is not zero or the number is. */
  lemma NumberReadsBack(n: USize, base: nat, width: int, precision: int, f: Flags) returns (a: nat, m: seq<char>, b: nat)
    ensures NumberText(n, base, width, precision, f) == Rep(' ', a) + Sign(n, f) + m + Rep(' ', b)
    ensures (a == 0 || b == 0) && forall c :: c in m ==> c == '0' || c in DigitText(Magnitude(n, f), Radix(base), f.large)
    ensures ParseNumber(m, Radix(base)) == Magnitude(n, f) <==> precision != 0 || n == 0
  {
    var ds := DigitText(Magnitude(n, f), Radix(base), f.large);
    a, b := FieldLayout(ds, Sign(n, f), width, precision, f);
    m := Numeral(ds, |Sign(n, f)|, width, precision, f);
    NumeralParses(ds, |Sign(n, f)|, width, precision, f, Radix(base));
    DigitTextParses(Magnitude(n, f), Radix(base), f.large);
  }

  lemma {:induction false} WiderRadixGrows(ds: seq<char>)
    ensures ParseNumber(ds, 16) >= ParseNumber(ds, 8)
    decreases |ds|
  {
    if ds != [] {
      WiderRadixGrows(ds[..|ds| - 1]);
    }
  }

  /** An octal conversion asks for base 8 and prints in base 16: the text is the octal one exactly
      for numbers below eight. */
  lemma OctalPrintsHex(n: USize)
    ensures DigitText(n, Radix(8), false) == DigitText(n, 8, false) <==> n < 8
  {
    if n >= 8 {
      var ds := Digits(n, 8, false);
      assert ds[..|ds| - 1] == Digits(n / 8, 8, false);
      DigitsParse(n / 8, 8, false);
      DigitRoundTrip(n % 8, false);
      WiderRadixGrows(ds[..|ds| - 1]);
      DigitsParse(n, 16, false);
    } else if n > 0 {
      assert Digits(n / 8, 8, false) == [] && Digits(n / 16, 16, false) == [];
      assert Digits(n, 8, false) == [Digit(n, false)] == Digits(n, 16, false);
    }
  }

  // ----- the format string -----

  /** An argument, as each type that va_arg may ask for: a 32-bit word, or a string that may be
      missing. */
  datatype Arg = Arg(word: USize, str: Text)

  datatype Text = Missing | Text(chars: string)

  /** The format at position i; reading at its end gives the terminating zero. */
  function CharAt(fmt: string, i: nat): char {
    if i < |fmt| then fmt[i] else NUL
  }

  predicate IsDigit(c: char) {
    '0' <= c <= '9'
  }

  function Flag(f: Flags, c: char): Flags {
    if c == '-' then f.(left := true) else if c == '+' then f.(plus := true) else if c == ' ' then f.(space := true)
    else if c == '0' then f.(zeropad := true) else f
  }

  predicate IsFlag(c: char) {
    c == '-' || c == '+' || c == ' ' || c == '#' || c == '0'
  }

  /** The flags from position i on, and where they end. */
  function ScanFlags(fmt: string, i: nat, f: Flags): (r: (Flags, nat))
    requires i <= |fmt|
    ensures i <= r.1 <= |fmt|
    decreases |fmt| - i
  {
    if i < |fmt| && IsFlag(fmt[i]) then ScanFlags(fmt, i + 1, Flag(f, fmt[i])) else (f, i)
  }

  /** skip_atoi */
  function ScanNumber(fmt: string, i: nat, n: nat): (r: (nat, nat))
    requires i <= |fmt|
    ensures i <= r.1 <= |fmt|
    decreases |fmt| - i
  {
    if i < |fmt| && IsDigit(fmt[i]) then ScanNumber(fmt, i + 1, n * 10 + (fmt[i] as int - '0' as int)) else (n, i)
  }

  function Signed(n: USize): int {
    if n < 0x8000_0000 then n else n - WORD_RANGE
  }

  /** A conversion in progress: what has been read, and the next format position and argument. */
  datatype Conv = Conv(flags: Flags, width: int, precision: int, half: bool, at: nat, arg: nat)

  function WithFlags(fmt: string, i: nat, arg: nat): (c: Conv)
    requires i <= |fmt|
    ensures i <= c.at <= |fmt|
  {
    var (f, at) := ScanFlags(fmt, i, Flags(false, false, false, false, false, false));
    Conv(f, -1, -1, false, at, arg)
  }

  function WithWidth(fmt: string, args: nat -> Arg, c: Conv): (r: Conv)
    requires c.at <= |fmt|
    ensures c.at <= r.at <= |fmt|
  {
    if IsDigit(CharAt(fmt, c.at)) then
      var (n, at) := ScanNumber(fmt, c.at, 0);
      c.(width := n, at := at)
    else if CharAt(fmt, c.at) == '*' then
      var w := Signed(args(c.arg).word);
      var d := c.(at := c.at + 1, arg := c.arg + 1);
      if w < 0 then d.(width := -w, flags := d.flags.(left := true)) else d.(width := w)
    else c
  }

  function WithPrecision(fmt: string, args: nat -> Arg, c: Conv): (r: Conv)
    requires c.at <= |fmt|
    ensures c.at <= r.at <= |fmt|
  {
    if CharAt(fmt, c.at) != '.' then c
    else if IsDigit(CharAt(fmt, c.at + 1)) then
      var (n, at) := ScanNumber(fmt, c.at + 1, 0);
      c.(precision := n, at := at)
    else if CharAt(fmt, c.at + 1) == '*' then
      c.(precision := Max(Signed(args(c.arg).word), 0), at := c.at + 2, arg := c.arg + 1)
    else c.(precision := 0, at := c.at + 1)
  }

  /** 'l' changes nothing, and 'h' takes the low half. */
  function WithQualifier(fmt: string, c: Conv): (r: Conv)
    requires c.at <= |fmt|
    ensures c.at <= r.at <= |fmt|
  {
    if CharAt(fmt, c.at) == 'h' || CharAt(fmt, c.at) == 'l' then c.(half := CharAt(fmt, c.at) == 'h', at := c.at + 1)
    else c
  }

  /** Everything between the percent sign at i and the conversion character. */
  function ReadConv(fmt: string, i: nat, args: nat -> Arg, arg: nat): (c: Conv)
    requires i < |fmt|
    ensures i < c.at <= |fmt|
  {
    WithQualifier(fmt, WithPrecision(fmt, args, WithWidth(fmt, args, WithFlags(fmt, i + 1, arg))))
  }

  /** The blanks around a character: a width below two adds none. */
  function CharText(w: USize, c: Conv): string {
    (if c.flags.left then [] else Rep(' ', c.width - 1)) + [(w % 256) as char]
    + (if c.flags.left then Rep(' ', c.width - 1) else [])
  }

  /** How much of a string is printed: the width cuts it as well as the precision. */
  function StringCut(s: string, c: Conv): nat {
    var len := if 0 <= c.width < |s| then c.width else |s|;
    if 0 < c.precision < len then c.precision else len
  }

  function StringChars(t: Text): string {
    match t
    case Missing => "(NULL)"
    case Text(s) => s
  }

  function StringText(t: Text, c: Conv): string {
    var s := StringChars(t);
    var len := StringCut(s, c);
    (if c.flags.left then [] else Rep(' ', c.width - len)) + s[..len]
    + (if c.flags.left then Rep(' ', c.width - len) else [])
  }

  /** A width is not a minimum for strings: given a width, the field is exactly that wide. */
  lemma StringLength(t: Text, c: Conv)
    requires c.width >= -1
    ensures c.width >= 0 ==> |StringText(t, c)| == c.width
    ensures c.width == -1 ==> |StringText(t, c)| == if 0 < c.precision < |StringChars(t)| then c.precision else |StringChars(t)|
  {
  }

  /** The word that an integer conversion hands to print_number. */
  function NumberWord(w: USize, c: Conv, signed: bool): USize {
    if !c.half then w
    else if signed && w % 0x1_0000 >= 0x8000 then WORD_RANGE - 0x1_0000 + w % 0x1_0000
    else w % 0x1_0000
  }

  function PointerConv(c: Conv): Conv {
    if c.width == -1 then c.(width := 8, flags := c.flags.(zeropad := true)) else c
  }

  function BaseOf(ch: char): nat {
    if ch == 'o' then 8 else if ch == 'x' || ch == 'X' then 16 else 10
  }

  function FlagsOf(f: Flags, ch: char): Flags {
    if ch == 'X' then f.(large := true) else if ch == 'd' || ch == 'i' then f.(sign := true) else f
  }

  predicate IsInteger(ch: char) {
    ch == 'o' || ch == 'x' || ch == 'X' || ch == 'd' || ch == 'i' || ch == 'u'
  }

  predicate TakesArgument(ch: char) {
    ch == 'c' || ch == 's' || ch == 'p' || IsInteger(ch)
  }

  /** The text of a conversion whose character is ch. */
  function ConvText(ch: char, c: Conv, a: Arg): string {
    if ch == 'c' then CharText(a.word, c)
    else if ch == 's' then StringText(a.str, c)
    else if ch == 'p' then NumberText(a.word, 16, PointerConv(c).width, c.precision, PointerConv(c).flags)
    else if ch == '%' then "%"
    else if IsInteger(ch) then
      var f := FlagsOf(c.flags, ch);
      NumberText(NumberWord(a.word, c, f.sign), BaseOf(ch), c.width, c.precision, f)
    else if ch == NUL then "%"
    else ['%', ch]
  }

  /** The position behind the conversion; a format that ends in one stays at its end. */
  function Behind(fmt: string, c: Conv): (i: nat)
    requires c.at <= |fmt|
    ensures c.at <= i <= |fmt|
  {
    if c.at < |fmt| then c.at + 1 else c.at
  }

  predicate IsFormat(fmt: string) {
    NUL !in fmt
  }

  /** What one turn of the loop over the format prints, and where it leaves the format and the
      arguments. */
  function Piece(fmt: string, i: nat, args: nat -> Arg, arg: nat): (r: (string, nat, nat))
    requires i < |fmt|
    ensures i < r.1 <= |fmt|
  {
    if fmt[i] != '%' then ([fmt[i]], i + 1, arg)
    else
      var c := ReadConv(fmt, i, args, arg);
      var ch := CharAt(fmt, c.at);
      (ConvText(ch, c, args(c.arg)), Behind(fmt, c), if TakesArgument(ch) then c.arg + 1 else c.arg)
  }

  /** The whole text of the format from position i and argument `arg` on. */
  function Expand(fmt: string, i: nat, args: nat -> Arg, arg: nat): string
    requires i <= |fmt|
    decreases |fmt| - i
  {
    if i == |fmt| then []
    else
      var (text, j, rest) := Piece(fmt, i, args, arg);
      text + Expand(fmt, j, args, rest)
  }

  /** A format without a percent sign is copied. */
  lemma {:induction false} PlainTextIsCopied(fmt: string, i: nat, args: nat -> Arg, arg: nat)
    requires i <= |fmt| && '%' !in fmt[i..]
    ensures Expand(fmt, i, args, arg) == fmt[i..]
    decreases |fmt| - i
  {
    if i < |fmt| {
      assert fmt[i..] == [fmt[i]] + fmt[i + 1..];
      PlainTextIsCopied(fmt, i + 1, args, arg);
    }
  }
}
