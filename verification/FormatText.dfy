/** What rt_vsnprintf prints for each conversion, from the text of the conversion alone: how a
    conversion is written, how it is read, and what its field looks like. */
module FormatText {
  import opened RtDef
  import opened FormatSpec

  // ----- how a conversion is written -----

  /** A width or precision: missing, in digits, or taken from the arguments. */
  datatype Amount = Absent | Number(digits: string) | Star

  /** The parts of a conversion up to its character; `dot` says whether there is a precision. */
  datatype Conversion = Conversion(flags: string, width: Amount, dot: bool, precision: Amount, qualifier: string)

  function AmountText(a: Amount): string {
    match a
    case Absent => ""
    case Number(ds) => ds
    case Star => "*"
  }

  function DotText(v: Conversion): string {
    if v.dot then "." + AmountText(v.precision) else ""
  }

  /** The percent sign and what follows it, without the conversion character. */
  function Opening(v: Conversion): string {
    "%" + (v.flags + (AmountText(v.width) + (DotText(v) + v.qualifier)))
  }

  predicate AllDigits(ds: string) {
    ds != [] && forall c :: c in ds ==> '0' <= c <= '9'
  }

  predicate FlagChar(c: char) {
    c == '-' || c == '+' || c == ' ' || c == '#' || c == '0'
  }

  /** A width in digits does not begin with a zero, which would be a flag. */
  predicate Written(v: Conversion) {
    && (forall c :: c in v.flags ==> FlagChar(c))
    && (v.width.Number? ==> AllDigits(v.width.digits) && v.width.digits[0] != '0')
    && (v.precision.Number? ==> AllDigits(v.precision.digits))
    && (v.qualifier == "" || v.qualifier == "h" || v.qualifier == "l")
  }

  /** A character that does not go on the width, one that does not go on the precision, and one that
      goes on none of the parts of the conversion: it is the conversion character, or the zero at the
      end of the format. */
  predicate BehindWidth(v: Conversion, c: char) {
    match v.width
    case Absent => !FlagChar(c) && !('0' <= c <= '9') && c != '*'
    case Number(_) => !('0' <= c <= '9')
    case Star => true
  }

  predicate BehindPrecision(v: Conversion, c: char) {
    if !v.dot then BehindWidth(v, c) && c != '.'
    else match v.precision
      case Absent => !('0' <= c <= '9') && c != '*'
      case Number(_) => !('0' <= c <= '9')
      case Star => true
  }

  predicate Closes(v: Conversion, c: char) {
    v.qualifier == "" ==> BehindPrecision(v, c) && c != 'h' && c != 'l'
  }

  // ----- what it asks for -----

  function SignedWord(w: USize): int {
    if w < 0x8000_0000 then w else w - 0x1_0000_0000
  }

  /** The number that a run of digits writes. */
  function Decimal(ds: string): nat {
    if ds == [] then 0 else Decimal(ds[..|ds| - 1]) * 10 + DecimalDigit(ds[|ds| - 1])
  }

  function DecimalDigit(c: char): nat {
    if '0' <= c <= '9' then c as int - '0' as int else 0
  }

  function Stars(v: Conversion): nat {
    (if v.width.Star? then 1 else 0) + (if v.dot && v.precision.Star? then 1 else 0)
  }

  function WidthOf(v: Conversion, args: nat -> Arg, arg: nat): int {
    match v.width
    case Absent => -1
    case Number(ds) => Decimal(ds)
    case Star => var w := SignedWord(args(arg).word); if w < 0 then -w else w
  }

  predicate IsLeft(v: Conversion, args: nat -> Arg, arg: nat) {
    '-' in v.flags || (v.width.Star? && SignedWord(args(arg).word) < 0)
  }

  function PrecisionOf(v: Conversion, args: nat -> Arg, arg: nat): int {
    if !v.dot then -1
    else match v.precision
      case Absent => 0
      case Number(ds) => Decimal(ds)
      case Star =>
        var p := SignedWord(args(if v.width.Star? then arg + 1 else arg).word);
        if p < 0 then 0 else p
  }

  function FlagsAsked(v: Conversion, args: nat -> Arg, arg: nat): Flags {
    Flags('0' in v.flags, false, '+' in v.flags, ' ' in v.flags, IsLeft(v, args, arg), false)
  }

  /** The conversion as it is read up to position `at` with argument `arg` next. */
  function Asked(v: Conversion, at: nat, args: nat -> Arg, arg: nat): Conv {
    Conv(FlagsAsked(v, args, arg), WidthOf(v, args, arg), PrecisionOf(v, args, arg), v.qualifier == "h", at,
         arg + Stars(v))
  }

  // ----- how it is read -----

  /** The text t stands in the format at position i. */
  predicate At(fmt: string, i: nat, t: string) {
    i + |t| <= |fmt| && fmt[i..i + |t|] == t
  }

  lemma AtParts(fmt: string, i: nat, a: string, b: string)
    requires At(fmt, i, a + b)
    ensures At(fmt, i, a) && At(fmt, i + |a|, b)
  {
    assert fmt[i..i + |a|] == (a + b)[..|a|] == a;
    assert fmt[i + |a|..i + |a| + |b|] == (a + b)[|a|..] == b;
  }

  lemma InHeadOrTail(fs: string)
    requires fs != []
    ensures forall c :: c in fs <==> c == fs[0] || c in fs[1..]
  {
    assert fs == [fs[0]] + fs[1..];
  }

  lemma {:induction false} FlagsRead(fmt: string, i: nat, fs: string, f: Flags)
    requires At(fmt, i, fs) && (forall c :: c in fs ==> FlagChar(c)) && !IsFlag(CharAt(fmt, i + |fs|))
    ensures ScanFlags(fmt, i, f) == (Flags(f.zeropad || '0' in fs, f.sign, f.plus || '+' in fs, f.space || ' ' in fs,
                                           f.left || '-' in fs, f.large), i + |fs|)
    decreases |fs|
  {
    if fs != [] {
      assert fmt[i] == fs[0] && fs[0] in fs && IsFlag(fmt[i]);
      assert At(fmt, i + 1, fs[1..]);
      InHeadOrTail(fs);
      FlagsRead(fmt, i + 1, fs[1..], Flag(f, fs[0]));
    }
  }

  /** A run of digits is read as the decimal number it writes. */
  lemma {:induction false} DigitsRead(fmt: string, i: nat, done: string, ds: string)
    requires At(fmt, i, ds) && (forall c :: c in ds ==> '0' <= c <= '9') && !IsDigit(CharAt(fmt, i + |ds|))
    ensures ScanNumber(fmt, i, Decimal(done)) == (Decimal(done + ds), i + |ds|)
    decreases |ds|
  {
    if ds == [] {
      assert done + ds == done;
    } else {
      assert fmt[i] == ds[0] && ds[0] in ds;
      assert At(fmt, i + 1, ds[1..]);
      assert forall c :: c in ds[1..] ==> c in ds;
      var more := done + [ds[0]];
      assert more[..|more| - 1] == done;
      DigitsRead(fmt, i + 1, more, ds[1..]);
      assert more + ds[1..] == done + ds;
    }
  }

  lemma NumberRead(fmt: string, i: nat, ds: string)
    requires At(fmt, i, ds) && AllDigits(ds) && !IsDigit(CharAt(fmt, i + |ds|))
    ensures ScanNumber(fmt, i, 0) == (Decimal(ds), i + |ds|) && IsDigit(CharAt(fmt, i))
  {
    DigitsRead(fmt, i, [], ds);
    assert [] + ds == ds && ds[0] in ds && fmt[i] == ds[0];
  }

  /** The first character of what follows the width, the precision or the flags. */
  lemma AfterPart(fmt: string, i: nat, rest: string)
    requires At(fmt, i, rest) && rest != []
    ensures CharAt(fmt, i) == rest[0]
  {
  }

  lemma WidthRead(fmt: string, args: nat -> Arg, v: Conversion, c: Conv)
    requires Written(v) && c.at <= |fmt| && At(fmt, c.at, AmountText(v.width)) && c.width == -1
    requires BehindWidth(v, CharAt(fmt, c.at + |AmountText(v.width)|))
    ensures var r := WithWidth(fmt, args, c);
      r == c.(width := WidthOf(v, args, c.arg), at := c.at + |AmountText(v.width)|,
              arg := if v.width.Star? then c.arg + 1 else c.arg,
              flags := if v.width.Star? && SignedWord(args(c.arg).word) < 0 then c.flags.(left := true) else c.flags)
  {
    match v.width
    case Absent =>
    case Number(ds) => NumberRead(fmt, c.at, ds);
    case Star => AfterPart(fmt, c.at, "*");
  }

  lemma PrecisionRead(fmt: string, args: nat -> Arg, v: Conversion, c: Conv)
    requires Written(v) && c.at <= |fmt| && At(fmt, c.at, DotText(v)) && c.precision == -1
    requires BehindPrecision(v, CharAt(fmt, c.at + |DotText(v)|))
    ensures var r := WithPrecision(fmt, args, c);
      r == c.(precision := PrecisionAt(v, args, c.arg), at := c.at + |DotText(v)|,
              arg := if v.dot && v.precision.Star? then c.arg + 1 else c.arg)
  {
    if v.dot {
      AtParts(fmt, c.at, ".", AmountText(v.precision));
      AfterPart(fmt, c.at, ".");
      match v.precision
      case Absent =>
      case Number(ds) => NumberRead(fmt, c.at + 1, ds);
      case Star => AfterPart(fmt, c.at + 1, "*");
    }
  }

  /** The precision, when its star is argument `arg`. */
  function PrecisionAt(v: Conversion, args: nat -> Arg, arg: nat): int {
    if !v.dot then -1
    else match v.precision
      case Absent => 0
      case Number(ds) => Decimal(ds)
      case Star => var p := SignedWord(args(arg).word); if p < 0 then 0 else p
  }

  lemma QualifierRead(fmt: string, v: Conversion, c: Conv)
    requires Written(v) && c.at <= |fmt| && At(fmt, c.at, v.qualifier) && !c.half
    requires Closes(v, CharAt(fmt, c.at + |v.qualifier|))
    ensures WithQualifier(fmt, c) == c.(half := v.qualifier == "h", at := c.at + |v.qualifier|)
  {
    if v.qualifier != "" {
      AfterPart(fmt, c.at, v.qualifier);
    }
  }

  /** The character behind the width and behind the precision is the first of the parts that follow,
      or the closing one. */
  lemma AfterPrecision(fmt: string, p: nat, v: Conversion)
    requires Written(v) && At(fmt, p, v.qualifier) && Closes(v, CharAt(fmt, p + |v.qualifier|))
    ensures BehindPrecision(v, CharAt(fmt, p))
  {
    if v.qualifier != "" {
      AfterPart(fmt, p, v.qualifier);
    }
  }

  lemma AfterWidth(fmt: string, w: nat, v: Conversion)
    requires Written(v) && At(fmt, w, DotText(v)) && At(fmt, w + |DotText(v)|, v.qualifier)
    requires Closes(v, CharAt(fmt, w + |DotText(v)| + |v.qualifier|))
    ensures BehindWidth(v, CharAt(fmt, w))
  {
    AfterPrecision(fmt, w + |DotText(v)|, v);
    if v.dot {
      AfterPart(fmt, w, DotText(v));
    }
  }

  lemma AfterFlags(fmt: string, i: nat, v: Conversion)
    requires Written(v) && At(fmt, i, AmountText(v.width)) && BehindWidth(v, CharAt(fmt, i + |AmountText(v.width)|))
    ensures !IsFlag(CharAt(fmt, i))
  {
    match v.width
    case Absent =>
    case Number(ds) =>
      AfterPart(fmt, i, ds);
      assert ds[0] in ds;
    case Star => AfterPart(fmt, i, "*");
  }

  /** Where the parts of a conversion stand. */
  lemma OpeningParts(fmt: string, i: nat, v: Conversion)
    requires At(fmt, i, Opening(v))
    ensures At(fmt, i, "%") && At(fmt, i + 1, v.flags)
    ensures var w := i + 1 + |v.flags|; var d := w + |AmountText(v.width)|; var q := d + |DotText(v)|;
      At(fmt, w, AmountText(v.width)) && At(fmt, d, DotText(v)) && At(fmt, q, v.qualifier) && q + |v.qualifier| == i + |Opening(v)|
  {
    AtFive(fmt, i, "%", v.flags, AmountText(v.width), DotText(v), v.qualifier);
  }

  lemma AtFive(fmt: string, i: nat, a: string, b: string, c: string, d: string, e: string)
    requires At(fmt, i, a + (b + (c + (d + e))))
    ensures At(fmt, i, a) && At(fmt, i + |a|, b) && At(fmt, i + |a| + |b|, c)
    ensures At(fmt, i + |a| + |b| + |c|, d) && At(fmt, i + |a| + |b| + |c| + |d|, e)
  {
    AtParts(fmt, i, a, b + (c + (d + e)));
    AtParts(fmt, i + |a|, b, c + (d + e));
    AtParts(fmt, i + |a| + |b|, c, d + e);
    AtParts(fmt, i + |a| + |b| + |c|, d, e);
  }

  /** Each part of a conversion is read as it is written: flags in any order and number, digits as the
      decimal number, a star as the next argument, a negative one as its magnitude with the left
      flag (for a precision as zero). */
  lemma ConversionRead(fmt: string, i: nat, v: Conversion, args: nat -> Arg, arg: nat)
    requires Written(v) && At(fmt, i, Opening(v)) && Closes(v, CharAt(fmt, i + |Opening(v)|))
    ensures i < |fmt| && ReadConv(fmt, i, args, arg) == Asked(v, i + |Opening(v)|, args, arg)
  {
    hide Opening, AmountText, DotText, WidthOf, PrecisionOf, Asked, Written, WithQualifier, WithPrecision, WithWidth, WithFlags, ReadConv, Closes;
    OpeningParts(fmt, i, v);
    var c := FlagsPart(fmt, i + 1, v, arg);
    var d := c.at + |AmountText(v.width)|;
    var r := PartsRead(fmt, args, v, c, d, d + |DotText(v)|);
    ReadSteps(fmt, i, args, arg, c, r);
    AskedIs(v, args, arg, c, r);
  }

  lemma ReadSteps(fmt: string, i: nat, args: nat -> Arg, arg: nat, c: Conv, r: Conv)
    requires i < |fmt| && WithFlags(fmt, i + 1, arg) == c
    requires WithQualifier(fmt, WithPrecision(fmt, args, WithWidth(fmt, args, c))) == r
    ensures ReadConv(fmt, i, args, arg) == r
  {
  }

  lemma AskedIs(v: Conversion, args: nat -> Arg, arg: nat, c: Conv, r: Conv)
    requires c.flags == Flags('0' in v.flags, false, '+' in v.flags, ' ' in v.flags, '-' in v.flags, false) && c.arg == arg
    requires r == Conv(if v.width.Star? && SignedWord(args(c.arg).word) < 0 then c.flags.(left := true) else c.flags,
                       WidthOf(v, args, c.arg), PrecisionOf(v, args, c.arg), v.qualifier == "h", r.at, c.arg + Stars(v))
    ensures r == Asked(v, r.at, args, arg)
  {
  }

  lemma FlagsPart(fmt: string, i: nat, v: Conversion, arg: nat) returns (c: Conv)
    requires Written(v) && At(fmt, i, v.flags)
    requires var w := i + |v.flags|; var d := w + |AmountText(v.width)|; var q := d + |DotText(v)|;
      && At(fmt, w, AmountText(v.width)) && At(fmt, d, DotText(v)) && At(fmt, q, v.qualifier)
      && Closes(v, CharAt(fmt, q + |v.qualifier|))
    ensures WithFlags(fmt, i, arg) == c
    ensures c == Conv(Flags('0' in v.flags, false, '+' in v.flags, ' ' in v.flags, '-' in v.flags, false), -1, -1, false, i + |v.flags|, arg)
  {
    var w := i + |v.flags|;
    AfterWidth(fmt, w + |AmountText(v.width)|, v);
    AfterFlags(fmt, w, v);
    FlagsRead(fmt, i, v.flags, Flags(false, false, false, false, false, false));
    c := WithFlags(fmt, i, arg);
  }

  /** What is read behind the width. */
  lemma TailRead(fmt: string, args: nat -> Arg, v: Conversion, c: Conv, q: nat)
    requires Written(v) && c.at <= |fmt| && c.precision == -1 && !c.half && q == c.at + |DotText(v)|
    requires At(fmt, c.at, DotText(v)) && At(fmt, q, v.qualifier) && Closes(v, CharAt(fmt, q + |v.qualifier|))
    ensures WithQualifier(fmt, WithPrecision(fmt, args, c)) ==
      c.(precision := PrecisionAt(v, args, c.arg), half := v.qualifier == "h", at := q + |v.qualifier|,
         arg := if v.dot && v.precision.Star? then c.arg + 1 else c.arg)
  {
    AfterPrecision(fmt, q, v);
    PrecisionRead(fmt, args, v, c);
    QualifierRead(fmt, v, WithPrecision(fmt, args, c));
  }

  lemma PartsRead(fmt: string, args: nat -> Arg, v: Conversion, c: Conv, d: nat, q: nat) returns (r: Conv)
    requires Written(v) && c.at <= |fmt| && c.width == -1 && c.precision == -1 && !c.half
    requires d == c.at + |AmountText(v.width)| && q == d + |DotText(v)|
    requires At(fmt, c.at, AmountText(v.width)) && At(fmt, d, DotText(v)) && At(fmt, q, v.qualifier)
    requires Closes(v, CharAt(fmt, q + |v.qualifier|))
    ensures WithQualifier(fmt, WithPrecision(fmt, args, WithWidth(fmt, args, c))) == r
    ensures r ==
      Conv(if v.width.Star? && SignedWord(args(c.arg).word) < 0 then c.flags.(left := true) else c.flags,
           WidthOf(v, args, c.arg), PrecisionOf(v, args, c.arg), v.qualifier == "h", q + |v.qualifier|, c.arg + Stars(v))
  {
    AfterWidth(fmt, d, v);
    WidthRead(fmt, args, v, c);
    TailRead(fmt, args, v, WithWidth(fmt, args, c), q);
    PrecisionAgrees(v, args, c.arg);
    r := WithQualifier(fmt, WithPrecision(fmt, args, WithWidth(fmt, args, c)));
  }

  lemma PrecisionAgrees(v: Conversion, args: nat -> Arg, arg: nat)
    ensures PrecisionAt(v, args, if v.width.Star? then arg + 1 else arg) == PrecisionOf(v, args, arg)
  {
  }

  // ----- whole formats -----

  /** A format is made of plain characters and conversions. */
  datatype Item = Plain(c: char) | Convert(v: Conversion, ch: char)

  predicate Converts(ch: char) {
    ch == 'c' || ch == 's' || ch == 'p' || ch == 'o' || ch == 'x' || ch == 'X' || ch == 'd' || ch == 'i' || ch == 'u'
  }

  predicate Proper(x: Item) {
    match x
    case Plain(c) => c != '%'
    case Convert(v, ch) => Written(v) && Closes(v, ch) && ch != NUL
  }

  predicate AllProper(items: seq<Item>) {
    items != [] ==> Proper(items[0]) && AllProper(items[1..])
  }

  function ItemText(x: Item): string {
    match x
    case Plain(c) => [c]
    case Convert(v, ch) => Opening(v) + [ch]
  }

  /** How a format ends: behind an item, or in a conversion that has no character any more. */
  datatype End = Complete | Cut(v: Conversion)

  function EndText(e: End): string {
    if e.Cut? then Opening(e.v) else ""
  }

  function Unparse(items: seq<Item>): string {
    if items == [] then "" else ItemText(items[0]) + Unparse(items[1..])
  }

  /** How many arguments an item uses: one for each star, and one for a conversion of a value. */
  function Uses(x: Item): nat {
    match x
    case Plain(_) => 0
    case Convert(v, ch) => Stars(v) + if Converts(ch) then 1 else 0
  }

  /** What the item prints with argument `arg` next. */
  function ItemShown(x: Item, args: nat -> Arg, arg: nat): string {
    match x
    case Plain(c) => [c]
    case Convert(v, ch) => ConvText(ch, Asked(v, 0, args, arg), args(arg + Stars(v)))
  }

  function Rendered(items: seq<Item>, args: nat -> Arg, arg: nat): string
    decreases |items|
  {
    if items == [] then ""
    else ItemShown(items[0], args, arg) + Rendered(items[1..], args, arg + Uses(items[0]))
  }

  /** The field does not depend on where the conversion stands. */
  lemma ConvTextAnywhere(ch: char, c: Conv, at: nat, a: Arg)
    ensures ConvText(ch, c.(at := at), a) == ConvText(ch, c, a)
  {
  }

  lemma PieceIsPlain(fmt: string, i: nat, c: char, args: nat -> Arg, arg: nat)
    requires c != '%' && At(fmt, i, [c])
    ensures i < |fmt| && Piece(fmt, i, args, arg) == ([c], i + 1, arg)
  {
    hide ReadConv, ConvText;
    AfterPart(fmt, i, [c]);
  }

  /** One turn of the loop prints one item, moves behind it, and uses its arguments. */
  lemma PieceIsItem(fmt: string, i: nat, x: Item, args: nat -> Arg, arg: nat)
    requires Proper(x) && At(fmt, i, ItemText(x))
    ensures i < |fmt| && Piece(fmt, i, args, arg) == (ItemShown(x, args, arg), i + |ItemText(x)|, arg + Uses(x))
  {
    hide Piece, ConvText, Asked, Written;
    match x
    case Plain(c) => PieceIsPlain(fmt, i, c, args, arg);
    case Convert(v, ch) => PieceIsConversion(fmt, i, v, ch, args, arg);
  }

  lemma PieceIsConversion(fmt: string, i: nat, v: Conversion, ch: char, args: nat -> Arg, arg: nat)
    requires Written(v) && Closes(v, ch) && ch != NUL && At(fmt, i, Opening(v) + [ch])
    ensures i < |fmt| && Piece(fmt, i, args, arg) ==
      (ConvText(ch, Asked(v, 0, args, arg), args(arg + Stars(v))), i + |Opening(v)| + 1,
       arg + Stars(v) + if Converts(ch) then 1 else 0)
  {
    hide ReadConv, ConvText;
    OpeningAt(fmt, i, Opening(v), ch);
    ConversionRead(fmt, i, v, args, arg);
    var c := ReadConv(fmt, i, args, arg);
    PieceOf(fmt, i, args, arg, c, ch);
    AskedMoves(v, c.at, args, arg);
    ConvTextAnywhere(ch, c, 0, args(c.arg));
    TakesAre(ch);
  }

  lemma AskedMoves(v: Conversion, at: nat, args: nat -> Arg, arg: nat)
    ensures Asked(v, at, args, arg).(at := 0) == Asked(v, 0, args, arg)
  {
  }

  lemma OpeningAt(fmt: string, i: nat, t: string, ch: char)
    requires At(fmt, i, t + [ch]) && t != [] && t[0] == '%'
    ensures At(fmt, i, t) && i + |t| < |fmt| && fmt[i] == '%' && fmt[i + |t|] == ch
  {
    AtParts(fmt, i, t, [ch]);
    AfterPart(fmt, i + |t|, [ch]);
    AfterPart(fmt, i, t);
  }

  lemma PieceOf(fmt: string, i: nat, args: nat -> Arg, arg: nat, c: Conv, ch: char)
    requires i < |fmt| && fmt[i] == '%' && ReadConv(fmt, i, args, arg) == c && c.at < |fmt| && fmt[c.at] == ch
    ensures Piece(fmt, i, args, arg) == (ConvText(ch, c, args(c.arg)), c.at + 1, if TakesArgument(ch) then c.arg + 1 else c.arg)
  {
    hide ReadConv, ConvText;
  }

  lemma TakesAre(ch: char)
    ensures TakesArgument(ch) <==> Converts(ch)
  {
  }

  lemma ExpandStep(fmt: string, i: nat, args: nat -> Arg, arg: nat, t: string, j: nat, next: nat)
    requires i < |fmt| && Piece(fmt, i, args, arg) == (t, j, next)
    ensures j <= |fmt| && Expand(fmt, i, args, arg) == t + Expand(fmt, j, args, next)
  {
    hide ReadConv, ConvText;
  }

  lemma FirstItem(fmt: string, i: nat, items: seq<Item>, end: string)
    requires i <= |fmt| && items != [] && fmt[i..] == Unparse(items) + end
    ensures At(fmt, i, ItemText(items[0])) && fmt[i + |ItemText(items[0])|..] == Unparse(items[1..]) + end
  {
    hide ItemText;
    var t, rest := ItemText(items[0]), Unparse(items[1..]) + end;
    assert Unparse(items) + end == t + rest;
    assert At(fmt, i, t + rest);
    AtParts(fmt, i, t, rest);
    assert fmt[i + |t|..] == fmt[i..][|t|..] == (t + rest)[|t|..] == rest;
  }

  lemma RenderedStep(items: seq<Item>, args: nat -> Arg, arg: nat, t: string, next: nat)
    requires items != [] && t == ItemShown(items[0], args, arg) && next == arg + Uses(items[0])
    ensures Rendered(items, args, arg) == t + Rendered(items[1..], args, next)
  {
    hide ConvText, Asked;
  }

  lemma ItemExpands(fmt: string, i: nat, x: Item, args: nat -> Arg, arg: nat, j: nat) returns (t: string, next: nat)
    requires Proper(x) && At(fmt, i, ItemText(x)) && j == i + |ItemText(x)|
    ensures t == ItemShown(x, args, arg) && next == arg + Uses(x)
    ensures i < |fmt| && j <= |fmt| && Expand(fmt, i, args, arg) == t + Expand(fmt, j, args, next)
  {
    hide Piece, ConvText, Asked, Proper, Written;
    t, next := ItemShown(x, args, arg), arg + Uses(x);
    PieceIsItem(fmt, i, x, args, arg);
    ExpandStep(fmt, i, args, arg, t, j, next);
  }

  /** The first item is the text that the loop and the rendering begin with. */
  lemma FirstText(fmt: string, i: nat, items: seq<Item>, args: nat -> Arg, arg: nat, j: nat)
    returns (t: string, next: nat)
    requires items != [] && Proper(items[0]) && At(fmt, i, ItemText(items[0])) && j == i + |ItemText(items[0])|
    ensures i < |fmt| && j <= |fmt|
    ensures Expand(fmt, i, args, arg) == t + Expand(fmt, j, args, next)
    ensures Rendered(items, args, arg) == t + Rendered(items[1..], args, next)
  {
    hide Piece, ConvText, Asked, Proper, Written;
    t, next := ItemExpands(fmt, i, items[0], args, arg, j);
    RenderedStep(items, args, arg, t, next);
  }

  /** A conversion that the end of the format cuts off prints its percent sign, and the format ends. */
  lemma CutConversion(fmt: string, i: nat, v: Conversion, args: nat -> Arg, arg: nat)
    requires Written(v) && i <= |fmt| && fmt[i..] == Opening(v)
    ensures Expand(fmt, i, args, arg) == "%"
  {
    hide Written, ReadConv;
    assert At(fmt, i, Opening(v)) && CharAt(fmt, i + |Opening(v)|) == NUL;
    ConversionRead(fmt, i, v, args, arg);
    assert fmt[i] == Opening(v)[0] == '%';
    assert Expand(fmt, |fmt|, args, arg + Stars(v)) == [];
  }

  lemma EndShown(fmt: string, i: nat, e: End, args: nat -> Arg, arg: nat)
    requires i <= |fmt| && fmt[i..] == EndText(e) && (e.Cut? ==> Written(e.v))
    ensures Expand(fmt, i, args, arg) == if e.Cut? then "%" else ""
  {
    if e.Cut? {
      CutConversion(fmt, i, e.v, args, arg);
    }
  }

  /** A whole format prints its items one after the other, and a percent sign if it ends in a
      conversion. */
  lemma {:induction false} ExpandIsRendering(fmt: string, i: nat, items: seq<Item>, e: End, args: nat -> Arg, arg: nat)
    requires i <= |fmt| && fmt[i..] == Unparse(items) + EndText(e) && AllProper(items) && (e.Cut? ==> Written(e.v))
    ensures Expand(fmt, i, args, arg) == Rendered(items, args, arg) + if e.Cut? then "%" else ""
    decreases |items|
  {
    hide ItemShown, Piece, Written, ItemText, At, Opening;
    if items == [] {
      assert Unparse(items) + EndText(e) == EndText(e);
      EndShown(fmt, i, e, args, arg);
    } else {
      FirstItem(fmt, i, items, EndText(e));
      var j := i + |ItemText(items[0])|;
      var t, next := FirstText(fmt, i, items, args, arg, j);
      ExpandIsRendering(fmt, j, items[1..], e, args, next);
      assert t + (Rendered(items[1..], args, next) + if e.Cut? then "%" else "") == Rendered(items, args, arg) + if e.Cut? then "%" else "";
    }
  }

  // ----- number fields -----

  /** One of the first `radix` digits, with large or with small letters. */
  predicate DigitOf(c: char, radix: nat, large: bool) {
    || ('0' <= c <= '9' && c as int - '0' as int < radix)
    || (!large && 'a' <= c <= 'f' && c as int - 'a' as int + 10 < radix)
    || (large && 'A' <= c <= 'F' && c as int - 'A' as int + 10 < radix)
  }

  /** ds writes the number in the digits of the radix, with no needless zero in front. */
  predicate Numeral(ds: string, n: nat, radix: nat, large: bool) {
    && ds != [] && radix <= 16 && ParseNumber(ds, radix) == n && (ds[0] == '0' ==> ds == "0")
    && forall c :: c in ds ==> DigitOf(c, radix, large)
  }

  /** The field of a numeral: at least `precision` digits, zeros in front of the rest, blanks or zeros
      up to the width. Precision zero leaves the digits out. */
  function Layout(ds: string, sign: string, width: int, precision: int, left: bool, zero: bool): string {
    var count := Max(|ds|, precision);
    var pad := Max(width - count - |sign|, 0);
    var number := Rep('0', count - |ds|) + (if precision == 0 then "" else ds);
    if left then sign + number + Rep(' ', pad)
    else if zero then sign + Rep('0', pad) + number
    else Rep(' ', pad) + sign + number
  }

  lemma RepIs(c: char, n: int)
    ensures |Rep(c, n)| == Max(n, 0) && forall d :: d in Rep(c, n) ==> d == c
  {
  }

  lemma FieldIsLayout(ds: string, sign: string, width: int, precision: int, f: Flags)
    ensures Field(ds, sign, width, precision, f) == Layout(ds, sign, width, precision, f.left, f.zeropad)
  {
    var count := Max(|ds|, precision);
    var pad := width - count - |sign|;
    var number := Body(ds, count, precision);
    assert Rep(' ', pad) == Rep(' ', Max(pad, 0)) && Rep('0', pad) == Rep('0', Max(pad, 0));
    if !f.left {
      assert Lead(pad, sign, f.zeropad, f.left) + number + [] == Lead(pad, sign, f.zeropad, f.left) + number;
    }
  }

  lemma {:induction false} DigitsAreNumeral(n: nat, radix: nat, large: bool)
    requires 2 <= radix <= 16 && n > 0
    ensures var ds := Digits(n, radix, large);
      ds != [] && ds[0] != '0' && forall c :: c in ds ==> DigitOf(c, radix, large)
    decreases n
  {
    DigitInAlphabet(n % radix, radix, large);
    if n < radix {
      SmallQuotient(n, radix);
      assert Digits(0, radix, large) == [];
      assert Digits(n, radix, large) == [Digit(n, large)];
      DigitRoundTrip(n, large);
    } else {
      LargeQuotient(n, radix);
      DigitsAreNumeral(n / radix, radix, large);
    }
  }

  lemma SmallQuotient(n: nat, radix: nat)
    requires n < radix
    ensures n / radix == 0 && n % radix == n
  {
  }

  lemma LargeQuotient(n: nat, radix: nat)
    requires 2 <= radix <= n
    ensures 0 < n / radix < n
  {
    QuotientAndRest(n, radix);
  }

  lemma DigitInAlphabet(d: nat, radix: nat, large: bool)
    requires d < radix <= 16
    ensures DigitOf(Digit(d, large), radix, large)
  {
  }

  lemma DigitTextIsNumeral(n: nat, radix: nat, large: bool)
    requires 2 <= radix <= 16
    ensures Numeral(DigitText(n, radix, large), n, radix, large)
  {
    DigitTextParses(n, radix, large);
    if n > 0 {
      DigitsAreNumeral(n, radix, large);
    } else {
      DigitInAlphabet(0, radix, large);
      assert Digit(0, large) == '0';
    }
  }

  // ----- the conversions, one by one -----

  /** The argument as a signed number: 32 bits, or the low 16 under `h`. */
  function SignedValue(w: USize, half: bool): int {
    if !half then SignedWord(w)
    else if w % 0x1_0000 < 0x8000 then w % 0x1_0000 else w % 0x1_0000 - 0x1_0000
  }

  function UnsignedValue(w: USize, half: bool): nat {
    if half then w % 0x1_0000 else w
  }

  /** The sign of a signed conversion: a minus sign exactly for a negative number, else a plus sign or
      a blank as the flags ask, the plus first. */
  function SignText(n: int, plus: bool, space: bool): string {
    if n < 0 then "-" else if plus then "+" else if space then " " else ""
  }

  lemma NumberTextIs(word: USize, base: nat, width: int, precision: int, f: Flags, sign: string, n: nat) returns (ds: string)
    requires Magnitude(word, f) == n && Sign(word, f) == sign
    ensures Numeral(ds, n, Radix(base), f.large)
    ensures NumberText(word, base, width, precision, f) == Layout(ds, sign, width, precision, f.left, f.zeropad)
  {
    ds := DigitText(n, Radix(base), f.large);
    DigitTextIsNumeral(n, Radix(base), f.large);
    FieldIsLayout(ds, sign, width, precision, f);
  }

  /** %d and %i print the signed value in decimal. */
  lemma DecimalShown(ch: char, c: Conv, a: Arg) returns (ds: string)
    requires (ch == 'd' || ch == 'i') && !c.flags.large
    ensures var n := SignedValue(a.word, c.half); Numeral(ds, if n < 0 then -n else n, 10, false)
    ensures ConvText(ch, c, a) ==
      Layout(ds, SignText(SignedValue(a.word, c.half), c.flags.plus, c.flags.space), c.width, c.precision, c.flags.left, c.flags.zeropad)
  {
    var f, word, n := c.flags.(sign := true), NumberWord(a.word, c, true), SignedValue(a.word, c.half);
    ShownSigned(ch, c, a);
    SignedWordIs(a.word, c);
    SignIs(word, n, f);
    ds := NumberTextIs(word, 10, c.width, c.precision, f, SignText(n, f.plus, f.space), if n < 0 then -n else n);
  }

  lemma SignedWordIs(w: USize, c: Conv)
    ensures var n, word := SignedValue(w, c.half), NumberWord(w, c, true);
      (n < 0 <==> word >= 0x8000_0000) && (if n < 0 then -n == WORD_RANGE - word else n == word)
  {
  }

  lemma ShownSigned(ch: char, c: Conv, a: Arg)
    requires ch == 'd' || ch == 'i'
    ensures ConvText(ch, c, a) == NumberText(NumberWord(a.word, c, true), 10, c.width, c.precision, c.flags.(sign := true))
  {
  }

  lemma SignIs(word: USize, n: int, f: Flags)
    requires f.sign && (n < 0 <==> word >= 0x8000_0000) && (if n < 0 then -n == WORD_RANGE - word else n == word)
    ensures Magnitude(word, f) == (if n < 0 then -n else n) && Sign(word, f) == SignText(n, f.plus, f.space)
  {
  }

  /** %u prints the unsigned value in decimal, and %x and %X in base sixteen, with small and with large
      letters. %o prints in base sixteen too. No sign is printed, whatever the flags. */
  lemma UnsignedShown(ch: char, c: Conv, a: Arg) returns (ds: string)
    requires (ch == 'u' || ch == 'x' || ch == 'X' || ch == 'o') && !c.flags.sign && !c.flags.large
    ensures Numeral(ds, UnsignedValue(a.word, c.half), if ch == 'u' then 10 else 16, ch == 'X')
    ensures ConvText(ch, c, a) == Layout(ds, "", c.width, c.precision, c.flags.left, c.flags.zeropad)
  {
    var f, word := c.flags.(large := ch == 'X'), NumberWord(a.word, c, false);
    ShownUnsigned(ch, c, a);
    NoSign(word, f);
    ds := NumberTextIs(word, BaseOf(ch), c.width, c.precision, f, "", word);
  }

  lemma ShownUnsigned(ch: char, c: Conv, a: Arg)
    requires (ch == 'u' || ch == 'x' || ch == 'X' || ch == 'o') && !c.flags.sign && !c.flags.large
    ensures ConvText(ch, c, a) ==
      NumberText(NumberWord(a.word, c, false), BaseOf(ch), c.width, c.precision, c.flags.(large := ch == 'X'))
    ensures Radix(BaseOf(ch)) == if ch == 'u' then 10 else 16
    ensures NumberWord(a.word, c, false) == UnsignedValue(a.word, c.half)
  {
  }

  lemma NoSign(word: USize, f: Flags)
    requires !f.sign
    ensures Magnitude(word, f) == word && Sign(word, f) == ""
  {
  }

  /** %p prints the address in base sixteen: without a width in eight characters filled with zeros. */
  lemma PointerShown(c: Conv, a: Arg) returns (ds: string)
    requires !c.flags.sign && !c.flags.large
    ensures Numeral(ds, a.word, 16, false)
    ensures ConvText('p', c, a) ==
      Layout(ds, "", if c.width == -1 then 8 else c.width, c.precision, c.flags.left, c.flags.zeropad || c.width == -1)
  {
    var d := PointerConv(c);
    NoSign(a.word, d.flags);
    ds := NumberTextIs(a.word, 16, d.width, d.precision, d.flags, "", a.word);
  }

  /** %c prints the low byte, with blanks on one side up to the width. */
  lemma CharacterShown(c: Conv, a: Arg)
    ensures var low, pad := [(a.word % 256) as char], Rep(' ', c.width - 1);
      ConvText('c', c, a) == if c.flags.left then low + pad else pad + low
  {
  }

  /** %s prints the string, "(NULL)" for none, cut by the width and by a precision other than zero, with
      blanks on one side up to the width. */
  lemma StringShown(c: Conv, a: Arg) returns (len: nat)
    requires c.width >= -1
    ensures var s := match a.str case Missing => "(NULL)" case Text(chars) => chars;
      && len <= |s| && (c.width >= 0 ==> len <= c.width) && (c.precision > 0 ==> len <= c.precision)
      && (len == |s| || len == c.width || (c.precision > 0 && len == c.precision))
      && ConvText('s', c, a) == if c.flags.left then s[..len] + Rep(' ', c.width - len) else Rep(' ', c.width - len) + s[..len]
  {
    len := StringCut(StringChars(a.str), c);
  }

  /** A second percent sign prints one; any other character is printed behind it. */
  lemma OtherShown(ch: char, c: Conv, a: Arg)
    requires !Converts(ch) && ch != NUL
    ensures ConvText(ch, c, a) == if ch == '%' then "%" else ['%', ch]
  {
  }

  /** What every conversion that is read meets. */
  lemma AskedIsPlain(v: Conversion, i: nat, args: nat -> Arg, arg: nat)
    ensures var c := Asked(v, i, args, arg); !c.flags.sign && !c.flags.large && c.width >= -1 && c.precision >= -1
  {
  }
}
