/** rt_vsnprintf and print_number, writing into a bounded buffer. */
module Format {
  import opened RtDef
  import opened FormatSpec

  /** What a buffer holds after `text` has been written to its first `size` places. */
  function Written(before: seq<char>, text: seq<char>, size: nat): seq<char>
    requires size <= |before|
  {
    if |text| <= size then text + before[|text|..] else text[..size] + before[size..]
  }

  /** What rt_vsnprintf leaves in the buffer: the text and its terminator, cut to fit. */
  function Terminated(before: seq<char>, text: seq<char>, size: nat): seq<char>
    requires size <= |before|
  {
    var w := Written(before, text, size);
    if size == 0 then w else w[if |text| < size then |text| else size - 1 := NUL]
  }

  /** The first size - 1 characters of the text, a terminating zero, and nothing else touched. */
  lemma TerminatedMeaning(before: seq<char>, text: seq<char>, size: nat)
    requires size <= |before|
    ensures var r := Terminated(before, text, size); |r| == |before| && r[size..] == before[size..]
    ensures size > 0 ==> var k := Min(|text|, size - 1); Terminated(before, text, size)[..k + 1] == text[..k] + [NUL]
    ensures size > |text| ==> Terminated(before, text, size)[|text| + 1..] == before[|text| + 1..]
    ensures size == 0 ==> Terminated(before, text, size) == before
  {
  }

  /** A cut in two: writing a piece behind another. */
  lemma WrittenAppend(before: seq<char>, text: seq<char>, c: char, size: nat)
    requires size <= |before|
    ensures |Written(before, text, size)| == |before|
    ensures |text| < size ==> Written(before, text + [c], size) == Written(before, text, size)[|text| := c]
    ensures |text| >= size ==> Written(before, text + [c], size) == Written(before, text, size)
  {
  }

  /** `buf` from str on: `size` places may be written, and `pos` is str - buf. */
  class Sink {
    const buf: array<char>
    const size: nat
    var pos: nat
    ghost var text: seq<char>
    ghost const before: seq<char>

    constructor (buffer: array<char>, limit: nat)
      requires limit <= buffer.Length
      ensures buf == buffer && size == limit && before == buffer[..] && text == [] && Rep()
    {
      buf, size, pos := buffer, limit, 0;
      text, before := [], buffer[..];
    }

    ghost predicate Rep()
      reads this, buf
    {
      size <= buf.Length && pos == |text| && |before| == buf.Length && buf[..] == Written(before, text, size)
    }

    /** if (str < end) *str = c; ++str; */
    method Put(c: char)
      requires Rep()
      modifies this, buf
      ensures Rep() && text == old(text) + [c]
    {
      WrittenAppend(before, text, c, size);
      if pos < size {
        buf[pos] := c;
      }
      pos := pos + 1;
      text := text + [c];
    }

    /** while (n-- > 0) put c; returns what is left in n. */
    method Fill(c: char, n: int) returns (left: int)
      requires Rep()
      modifies this, buf
      ensures Rep() && text == old(text) + FormatSpec.Rep(c, n) && left == Min(n, 0) - 1
    {
      left := n;
      while left > 0
        invariant Rep() && left <= n && (n <= 0 ==> left == n) && (n > 0 ==> left >= 0)
        invariant text == old(text) + FormatSpec.Rep(c, n - left)
      {
        Put(c);
        left := left - 1;
        assert FormatSpec.Rep(c, n - left) == FormatSpec.Rep(c, n - left - 1) + [c];
      }
      left := left - 1;
    }
  }

  /** The first i places of tmp hold the last i digits of `whole`, last digit first. */
  predicate Reversed(tmp: seq<char>, i: nat, whole: seq<char>) {
    i <= |whole| && i <= |tmp| && forall k :: 0 <= k < i ==> tmp[k] == whole[|whole| - 1 - k]
  }

  const SMALL_DIGITS: string := "0123456789abcdef"
  const LARGE_DIGITS: string := "0123456789ABCDEF"

  /** The digit tables hold the digits of the numbers below sixteen. */
  lemma DigitTable(d: nat, large: bool)
    requires d < 16
    ensures (if large then LARGE_DIGITS else SMALL_DIGITS)[d] == Digit(d, large)
  {
  }

  method PutDigit(n: nat, radix: nat, large: bool, tmp: array<char>, i: nat, ghost whole: seq<char>) returns (left: nat)
    requires 2 <= radix <= 16 && n > 0 && |whole| <= tmp.Length
    requires Reversed(tmp[..], i, whole) && whole[..|whole| - i] == Digits(n, radix, large)
    modifies tmp
    ensures Reversed(tmp[..], i + 1, whole) && whole[..|whole| - i - 1] == Digits(left, radix, large)
  {
    ghost var ds := whole[..|whole| - i];
    LastDigit(n, radix, large, ds);
    assert ds[..|ds| - 1] == whole[..|whole| - i - 1];
    DigitTable(n % radix, large);
    tmp[i] := (if large then LARGE_DIGITS else SMALL_DIGITS)[n % radix];
    left := n / radix;
  }

  lemma NoDigits(n: nat, radix: nat, large: bool)
    requires 2 <= radix <= 16
    ensures Digits(n, radix, large) == [] <==> n == 0
  {
  }

  /** divide, until nothing is left: the digits of n into tmp, least significant first. */
  method ToDigits(n: nat, radix: nat, large: bool, tmp: array<char>, ghost whole: seq<char>) returns (i: nat)
    requires 2 <= radix <= 16 && whole == Digits(n, radix, large) && |whole| <= tmp.Length
    modifies tmp
    ensures i == |whole| && Reversed(tmp[..], i, whole)
  {
    i := 0;
    var num := n;
    assert whole[..|whole|] == whole;
    while num != 0
      invariant 0 <= num && Reversed(tmp[..], i, whole) && whole[..|whole| - i] == Digits(num, radix, large)
      decreases |whole| - i
    {
      NoDigits(num, radix, large);
      num := PutDigit(num, radix, large, tmp, i, whole);
      i := i + 1;
    }
    NoDigits(num, radix, large);
  }

  /** The blanks, the sign and the zeros before the digits; `size` goes from the room the digits
      leave to what the right-hand padding still has to fill. */
  method PutLead(sink: Sink, room: int, sign: seq<char>, zeropad: bool, left: bool) returns (size: int)
    requires sink.Rep() && |sign| <= 1 && !(zeropad && left)
    modifies sink, sink.buf
    ensures sink.Rep() && sink.text == old(sink.text) + Lead(room - |sign|, sign, zeropad, left)
    ensures if left then size == room - |sign| else size < 0
  {
    size := room;
    if !(zeropad || left) {
      if sign != [] && size > 0 {
        size := size - 1;
      }
      size := sink.Fill(' ', size);
    }
    if sign != [] {
      sink.Put(sign[0]);
      size := size - 1;
    }
    if !left {
      size := sink.Fill(if zeropad then '0' else ' ', size);
    }
  }

  method PutBody(sink: Sink, tmp: array<char>, i: nat, ghost ds: seq<char>, count: int, precision: int)
    requires sink.Rep() && tmp != sink.buf && i == |ds| <= tmp.Length
    requires Reversed(tmp[..], i, ds)
    modifies sink, sink.buf
    ensures sink.Rep() && sink.text == old(sink.text) + Body(ds, count, precision)
  {
    var zeros := sink.Fill('0', count - i);
    if precision != 0 {
      PutDigits(sink, tmp, i, ds);
    }
  }

  lemma Join(t: seq<char>, a: seq<char>, b: seq<char>, c: seq<char>)
    ensures t + a + b + c == t + (a + b + c)
  {
  }

  /** print_number once the digits are in tmp. */
  method PrintField(sink: Sink, tmp: array<char>, i: nat, ghost ds: seq<char>, sign: seq<char>, s: int, precision: int, f: Flags)
    requires sink.Rep() && tmp != sink.buf && i == |ds| <= tmp.Length && |sign| <= 1
    requires Reversed(tmp[..], i, ds)
    modifies sink, sink.buf
    ensures sink.Rep() && sink.text == old(sink.text) + Field(ds, sign, s, precision, f)
  {
    hide Body, Reversed;
    var count := if i > precision then i else precision;
    var size := PutLead(sink, s - count, sign, f.zeropad && !f.left, f.left);
    PutBody(sink, tmp, i, ds, count, precision);
    ghost var pad := s - count - |sign|;
    Join(old(sink.text), Lead(pad, sign, f.zeropad, f.left), Body(ds, count, precision), FormatSpec.Rep(' ', size));
    assert FormatSpec.Rep(' ', size) == FormatSpec.Rep(' ', if f.left then pad else 0);
    size := sink.Fill(' ', size);
  }

  /** print_number */
  method PrintNumber(sink: Sink, n: USize, base: nat, s: int, precision: int, f: Flags)
    requires sink.Rep()
    modifies sink, sink.buf
    ensures sink.Rep() && sink.text == old(sink.text) + NumberText(n, base, s, precision, f)
  {
    var tmp := new char[16];
    var num := Magnitude(n, f);
    DigitsFit(num, base, f.large);
    var i := 0;
    if num == 0 {
      tmp[0] := '0';
      i := 1;
    } else {
      i := ToDigits(num, Radix(base), f.large, tmp, DigitText(num, Radix(base), f.large));
    }
    PrintField(sink, tmp, i, DigitText(Magnitude(n, f), Radix(base), f.large), Sign(n, f), s, precision, f);
  }

  method PutDigits(sink: Sink, tmp: array<char>, n: nat, ghost ds: seq<char>)
    requires sink.Rep() && tmp != sink.buf && n == |ds| <= tmp.Length
    requires Reversed(tmp[..], n, ds)
    modifies sink, sink.buf
    ensures sink.Rep() && sink.text == old(sink.text) + ds
  {
    var i := n;
    while i > 0
      invariant 0 <= i <= n && sink.Rep()
      invariant Reversed(tmp[..], n, ds)
      invariant sink.text == old(sink.text) + ds[..n - i]
    {
      i := i - 1;
      sink.Put(tmp[i]);
      assert ds[..n - i] == ds[..n - 1 - i] + [ds[n - 1 - i]];
    }
    assert ds[..n] == ds;
  }

  /** The argument pointer of rt_vsnprintf and its position in the format. */
  method ReadFlags(fmt: string, i: nat, arg: nat) returns (c: Conv)
    requires i <= |fmt|
    ensures c == WithFlags(fmt, i, arg)
  {
    var f := Flags(false, false, false, false, false, false);
    var at := i;
    while at < |fmt| && IsFlag(fmt[at])
      invariant i <= at <= |fmt| && ScanFlags(fmt, at, f) == ScanFlags(fmt, i, Flags(false, false, false, false, false, false))
    {
      f := Flag(f, fmt[at]);
      at := at + 1;
    }
    c := Conv(f, -1, -1, false, at, arg);
  }

  /** skip_atoi */
  method SkipAtoi(fmt: string, i: nat) returns (n: nat, at: nat)
    requires i <= |fmt|
    ensures (n, at) == ScanNumber(fmt, i, 0)
  {
    n, at := 0, i;
    while at < |fmt| && IsDigit(fmt[at])
      invariant i <= at <= |fmt| && ScanNumber(fmt, at, n) == ScanNumber(fmt, i, 0)
    {
      n := n * 10 + (fmt[at] as int - '0' as int);
      at := at + 1;
    }
  }

  method ReadWidth(fmt: string, args: nat -> Arg, c: Conv) returns (r: Conv)
    requires c.at <= |fmt|
    ensures r == WithWidth(fmt, args, c)
  {
    r := c;
    if IsDigit(CharAt(fmt, r.at)) {
      var n, at := SkipAtoi(fmt, r.at);
      r := r.(width := n, at := at);
    } else if CharAt(fmt, r.at) == '*' {
      r := r.(at := r.at + 1, width := Signed(args(r.arg).word), arg := r.arg + 1);
      if r.width < 0 {
        r := r.(width := -r.width, flags := r.flags.(left := true));
      }
    }
  }

  method ReadPrecision(fmt: string, args: nat -> Arg, c: Conv) returns (r: Conv)
    requires c.at <= |fmt| && c.precision == -1
    ensures r == WithPrecision(fmt, args, c)
  {
    r := c;
    if CharAt(fmt, r.at) == '.' {
      r := r.(at := r.at + 1);
      if IsDigit(CharAt(fmt, r.at)) {
        var n, at := SkipAtoi(fmt, r.at);
        r := r.(precision := n, at := at);
      } else if CharAt(fmt, r.at) == '*' {
        r := r.(at := r.at + 1, precision := Signed(args(r.arg).word), arg := r.arg + 1);
      }
      if r.precision < 0 {
        r := r.(precision := 0);
      }
    }
  }

  method ReadQualifier(fmt: string, c: Conv) returns (r: Conv)
    requires c.at <= |fmt|
    ensures r == WithQualifier(fmt, c)
  {
    r := c;
    var qualifier := CharAt(fmt, r.at);
    if qualifier == 'h' || qualifier == 'l' {
      r := r.(half := qualifier == 'h', at := r.at + 1);
    }
  }

  /** case 'c' */
  method PutChar(sink: Sink, w: USize, c: Conv)
    requires sink.Rep()
    modifies sink, sink.buf
    ensures sink.Rep() && sink.text == old(sink.text) + CharText(w, c)
  {
    var width := c.width;
    if !c.flags.left {
      width := sink.Fill(' ', width - 1);
    }
    sink.Put((w % 256) as char);
    width := sink.Fill(' ', width - 1);
  }

  method StringLen(s: string, c: Conv) returns (len: nat)
    ensures len == StringCut(s, c)
  {
    len := 0;
    while len != c.width && len < |s|
      invariant 0 <= len <= |s| && (c.width >= 0 ==> len <= c.width)
      decreases |s| - len
    {
      len := len + 1;
    }
    if 0 < c.precision && len > c.precision {
      len := c.precision;
    }
  }

  method PutChars(sink: Sink, s: string, len: nat)
    requires sink.Rep() && len <= |s|
    modifies sink, sink.buf
    ensures sink.Rep() && sink.text == old(sink.text) + s[..len]
  {
    var i := 0;
    while i < len
      invariant 0 <= i <= len && sink.Rep() && sink.text == old(sink.text) + s[..i]
    {
      sink.Put(s[i]);
      i := i + 1;
      assert s[..i] == s[..i - 1] + [s[i - 1]];
    }
  }

  /** case 's' */
  method PutString(sink: Sink, t: Text, c: Conv)
    requires sink.Rep()
    modifies sink, sink.buf
    ensures sink.Rep() && sink.text == old(sink.text) + StringText(t, c)
  {
    var s := StringChars(t);
    var len := StringLen(s, c);
    var width := c.width - len;
    if !c.flags.left {
      width := sink.Fill(' ', width);
    }
    PutChars(sink, s, len);
    ghost var pad := if c.flags.left then [] else FormatSpec.Rep(' ', c.width - len);
    assert sink.text == old(sink.text) + pad + s[..len];
    assert StringText(t, c) == pad + s[..len] + FormatSpec.Rep(' ', width);
    Join(old(sink.text), pad, s[..len], FormatSpec.Rep(' ', width));
    width := sink.Fill(' ', width);
  }

  /** One conversion, from behind its percent sign. */
  method PutConv(sink: Sink, ch: char, c: Conv, a: Arg)
    requires sink.Rep()
    modifies sink, sink.buf
    ensures sink.Rep() && sink.text == old(sink.text) + ConvText(ch, c, a)
  {
    if ch == 'c' {
      PutChar(sink, a.word, c);
    } else if ch == 's' {
      PutString(sink, a.str, c);
    } else if ch == 'p' {
      var d := PointerConv(c);
      PrintNumber(sink, a.word, 16, d.width, d.precision, d.flags);
    } else if ch == '%' {
      sink.Put('%');
    } else if IsInteger(ch) {
      var f := FlagsOf(c.flags, ch);
      PrintNumber(sink, NumberWord(a.word, c, f.sign), BaseOf(ch), c.width, c.precision, f);
    } else {
      sink.Put('%');
      if ch != NUL {
        sink.Put(ch);
      }
    }
  }

  /** The room that rt_vsnprintf takes a buffer at `address` to have: a size that would run past the
      end of memory is cut. */
  function Room(address: USize, size: USize): USize {
    if Wrap(address + size) < address then WORD_RANGE - 1 - address else size
  }

  /** The sum wraps exactly when it leaves the address space, and the cut ends one short of it. */
  lemma RoomIsMemory(address: USize, size: USize)
    ensures Room(address, size) == if address + size < WORD_RANGE then size else WORD_RANGE - 1 - address
  {
  }

  /** From the percent sign to the conversion character. */
  method ReadConversion(fmt: string, i: nat, args: nat -> Arg, arg: nat) returns (c: Conv)
    requires i < |fmt|
    ensures c == ReadConv(fmt, i, args, arg)
  {
    c := ReadFlags(fmt, i + 1, arg);
    c := ReadWidth(fmt, args, c);
    c := ReadPrecision(fmt, args, c);
    c := ReadQualifier(fmt, c);
  }

  lemma JoinTwo(t: seq<char>, a: seq<char>, b: seq<char>)
    ensures t + a + b == t + (a + b)
  {
  }

  lemma ExpandStep(fmt: string, i: nat, args: nat -> Arg, arg: nat, t: string)
    requires i < |fmt|
    ensures var p := Piece(fmt, i, args, arg); t + p.0 + Expand(fmt, p.1, args, p.2) == t + Expand(fmt, i, args, arg)
  {
    var p := Piece(fmt, i, args, arg);
    JoinTwo(t, p.0, Expand(fmt, p.1, args, p.2));
  }

  /** One turn of the loop over the format. */
  method PutPiece(sink: Sink, fmt: string, i: nat, args: nat -> Arg, arg: nat) returns (j: nat, rest: nat)
    requires sink.Rep() && i < |fmt|
    modifies sink, sink.buf
    ensures sink.Rep()
    ensures var p := Piece(fmt, i, args, arg); sink.text == old(sink.text) + p.0 && j == p.1 && rest == p.2
  {
    if fmt[i] != '%' {
      sink.Put(fmt[i]);
      return i + 1, arg;
    }
    var c := ReadConversion(fmt, i, args, arg);
    var ch := CharAt(fmt, c.at);
    PutConv(sink, ch, c, args(c.arg));
    j, rest := Behind(fmt, c), if TakesArgument(ch) then c.arg + 1 else c.arg;
  }

  /** The loop over the format. */
  method PutAll(sink: Sink, fmt: string, args: nat -> Arg)
    requires sink.Rep() && sink.text == []
    modifies sink, sink.buf
    ensures sink.Rep() && sink.text == Expand(fmt, 0, args, 0)
  {
    var i, arg := 0, 0;
    while i < |fmt|
      invariant 0 <= i <= |fmt| && 0 <= arg && sink.Rep()
      invariant sink.text + Expand(fmt, i, args, arg) == Expand(fmt, 0, args, 0)
    {
      ExpandStep(fmt, i, args, arg, sink.text);
      i, arg := PutPiece(sink, fmt, i, args, arg);
    }
  }

  /** The terminator. */
  method Terminate(sink: Sink)
    requires sink.Rep()
    modifies sink.buf
    ensures sink.buf[..] == Terminated(sink.before, sink.text, sink.size)
  {
    if sink.size > 0 {
      if sink.pos < sink.size {
        sink.buf[sink.pos] := NUL;
      } else {
        sink.buf[sink.size - 1] := NUL;
      }
    }
  }

  /** rt_vsnprintf: it writes only inside the room it has, it leaves there as much of the text as
      fits with its terminator, and the length it returns does not depend on the room. */
  method Vsnprintf(buffer: array<char>, address: USize, size: USize, fmt: string, args: nat -> Arg) returns (length: nat)
    requires Room(address, size) <= buffer.Length && IsFormat(fmt)
    modifies buffer
    ensures length == |Expand(fmt, 0, args, 0)|
    ensures buffer[..] == Terminated(old(buffer[..]), Expand(fmt, 0, args, 0), Room(address, size))
  {
    var sink := new Sink(buffer, Room(address, size));
    PutAll(sink, fmt, args);
    Terminate(sink);
    length := sink.pos;
  }
}
