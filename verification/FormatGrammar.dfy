/** Every format is made of plain characters and conversions, so that what is proved of those holds of
    every format. */
module FormatGrammar {
  import opened FormatSpec
  import opened FormatText

  /** The longest run of such characters. */
  lemma {:induction false} RunOf(fmt: string, i: nat, p: char -> bool) returns (t: string)
    requires i <= |fmt| && !p(NUL)
    ensures At(fmt, i, t) && (forall c :: c in t ==> p(c)) && !p(CharAt(fmt, i + |t|))
    decreases |fmt| - i
  {
    t := "";
    if i < |fmt| && p(fmt[i]) {
      var rest := RunOf(fmt, i + 1, p);
      t := [fmt[i]] + rest;
    }
  }

  lemma FlagsAt(fmt: string, i: nat) returns (t: string)
    requires i <= |fmt|
    ensures At(fmt, i, t) && (forall c :: c in t ==> FlagChar(c)) && !FlagChar(CharAt(fmt, i + |t|)) && i + |t| <= |fmt|
  {
    t := RunOf(fmt, i, FlagChar);
  }

  /** What is written of a width or a precision; `c` is the character behind it. */
  predicate AmountEnds(a: Amount, c: char) {
    match a
    case Absent => !IsDigit(c) && c != '*'
    case Number(_) => !IsDigit(c)
    case Star => true
  }

  lemma AmountAt(fmt: string, i: nat) returns (a: Amount)
    requires i <= |fmt|
    ensures At(fmt, i, AmountText(a)) && AmountEnds(a, CharAt(fmt, i + |AmountText(a)|))
    ensures i + |AmountText(a)| <= |fmt| && (a.Absent? ==> AmountText(a) == "")
    ensures a.Number? ==> AllDigits(a.digits) && a.digits[0] == CharAt(fmt, i)
  {
    if CharAt(fmt, i) == '*' {
      a := Star;
    } else if !IsDigit(CharAt(fmt, i)) {
      a := Absent;
    } else {
      var ds := RunOf(fmt, i, IsDigit);
      a := Number(ds);
    }
  }

  lemma QualifierAt(fmt: string, i: nat) returns (q: string)
    requires i <= |fmt|
    ensures At(fmt, i, q) && (q == "" || q == "h" || q == "l")
    ensures q == "" ==> CharAt(fmt, i) != 'h' && CharAt(fmt, i) != 'l'
  {
    q := if CharAt(fmt, i) == 'h' then "h" else if CharAt(fmt, i) == 'l' then "l" else "";
  }

  lemma AtJoin(fmt: string, i: nat, a: string, b: string)
    requires At(fmt, i, a) && At(fmt, i + |a|, b)
    ensures At(fmt, i, a + b)
  {
    assert fmt[i..i + |a + b|] == fmt[i..i + |a|] + fmt[i + |a|..i + |a| + |b|];
  }

  /** The dot and what is written of a precision. */
  lemma DotAt(fmt: string, i: nat, fs: string, width: Amount) returns (v: Conversion)
    requires i <= |fmt|
    ensures v == Conversion(fs, width, v.dot, v.precision, "") && At(fmt, i, DotText(v)) && i + |DotText(v)| <= |fmt|
    ensures v.dot ==> AmountEnds(v.precision, CharAt(fmt, i + |DotText(v)|))
    ensures !v.dot ==> DotText(v) == "" && v.precision == Absent && CharAt(fmt, i) != '.'
    ensures v.precision.Number? ==> AllDigits(v.precision.digits)
  {
    v := Conversion(fs, width, CharAt(fmt, i) == '.', Absent, "");
    if v.dot {
      var a := AmountAt(fmt, i + 1);
      v := v.(precision := a);
      assert At(fmt, i, ".");
      AtJoin(fmt, i, ".", AmountText(a));
    }
  }

  lemma WithQualifierText(v: Conversion, q: string)
    ensures DotText(v.(qualifier := q)) == DotText(v)
  {
  }

  /** Whatever stands behind a percent sign is a conversion, up to a character that closes it or the end. */
  lemma ConversionAt(fmt: string, i: nat) returns (v: Conversion)
    requires i < |fmt| && fmt[i] == '%'
    ensures Written(v) && At(fmt, i, Opening(v)) && Closes(v, CharAt(fmt, i + |Opening(v)|))
  {
    hide AmountText, DotText, At, FlagChar, AllDigits, AmountEnds, Opening, Closes, Written;
    PercentAt(fmt, i);
    var fs := FlagsAt(fmt, i + 1);
    var w := i + 1 + |fs|;
    var width := AmountAt(fmt, w);
    var d := w + |AmountText(width)|;
    var u := DotAt(fmt, d, fs, width);
    var q := d + |DotText(u)|;
    var qualifier := QualifierAt(fmt, q);
    v := u.(qualifier := qualifier);
    WithQualifierText(u, qualifier);
    var end := q + |qualifier|;
    OpeningAt(fmt, i, v, w, d, q, end);
    IsClosed(v, CharAt(fmt, w), CharAt(fmt, d), CharAt(fmt, q), CharAt(fmt, end));
  }

  lemma PercentAt(fmt: string, i: nat)
    requires i < |fmt| && fmt[i] == '%'
    ensures At(fmt, i, "%")
  {
  }

  /** c, d, e and f are the characters behind the flags, the width, the precision and the qualifier. */
  lemma IsClosed(v: Conversion, c: char, d: char, e: char, f: char)
    requires (forall x :: x in v.flags ==> FlagChar(x)) && !FlagChar(c)
    requires (v.width.Number? ==> AllDigits(v.width.digits) && v.width.digits[0] == c) && (v.width.Absent? ==> c == d)
    requires AmountEnds(v.width, d) && (if v.dot then AmountEnds(v.precision, e) else d == e && d != '.')
    requires v.precision.Number? ==> AllDigits(v.precision.digits)
    requires v.qualifier == "h" || v.qualifier == "l" || (v.qualifier == "" && f == e && e != 'h' && e != 'l')
    ensures Written(v) && Closes(v, f)
  {
  }

  lemma OpeningAt(fmt: string, i: nat, v: Conversion, w: nat, d: nat, q: nat, end: nat)
    requires w == i + 1 + |v.flags| && d == w + |AmountText(v.width)| && q == d + |DotText(v)| && end == q + |v.qualifier|
    requires At(fmt, i, "%") && At(fmt, i + 1, v.flags) && At(fmt, w, AmountText(v.width))
    requires At(fmt, d, DotText(v)) && At(fmt, q, v.qualifier)
    ensures At(fmt, i, Opening(v)) && i + |Opening(v)| == end
  {
    JoinFive(fmt, i, "%", v.flags, AmountText(v.width), DotText(v), v.qualifier);
  }

  lemma JoinFive(fmt: string, i: nat, a: string, b: string, c: string, d: string, e: string)
    requires At(fmt, i, a) && At(fmt, i + |a|, b) && At(fmt, i + |a| + |b|, c)
    requires At(fmt, i + |a| + |b| + |c|, d) && At(fmt, i + |a| + |b| + |c| + |d|, e)
    ensures At(fmt, i, a + (b + (c + (d + e))))
  {
    hide At;
    AtJoin(fmt, i + |a| + |b| + |c|, d, e);
    AtJoin(fmt, i + |a| + |b|, c, d + e);
    AtJoin(fmt, i + |a|, b, c + (d + e));
    AtJoin(fmt, i, a, b + (c + (d + e)));
  }

  /** The first item of a format, or its cut end. */
  lemma ItemAt(fmt: string, i: nat) returns (x: Item, cut: bool)
    requires i < |fmt| && IsFormat(fmt)
    ensures cut ==> x.Convert? && Written(x.v) && fmt[i..] == Opening(x.v)
    ensures !cut ==> Proper(x) && At(fmt, i, ItemText(x)) && ItemText(x) != ""
  {
    if fmt[i] != '%' {
      x, cut := Plain(fmt[i]), false;
    } else {
      var v := ConversionAt(fmt, i);
      var at := i + |Opening(v)|;
      x, cut := Convert(v, CharAt(fmt, at)), at == |fmt|;
      if !cut {
        assert fmt[at] in fmt;
        AtJoin(fmt, i, Opening(v), [fmt[at]]);
      }
    }
  }

  lemma Prepend(fmt: string, i: nat, t: string, rest: string, end: string)
    requires At(fmt, i, t) && fmt[i + |t|..] == rest + end
    ensures fmt[i..] == (t + rest) + end
  {
    assert fmt[i..] == fmt[i..i + |t|] + fmt[i + |t|..];
  }

  /** Every format reads as items and an end. */
  lemma {:induction false} EveryFormat(fmt: string, i: nat) returns (items: seq<Item>, e: End)
    requires i <= |fmt| && IsFormat(fmt)
    ensures AllProper(items) && (e.Cut? ==> Written(e.v)) && fmt[i..] == Unparse(items) + EndText(e)
    decreases |fmt| - i
  {
    hide Written, ItemText, Opening, At;
    items, e := [], Complete;
    if i < |fmt| {
      var x, cut := ItemAt(fmt, i);
      if cut {
        e := Cut(x.v);
      } else {
        var j := Next(fmt, i, ItemText(x));
        var rest, end := EveryFormat(fmt, j);
        items, e := [x] + rest, end;
        assert items[1..] == rest;
        Prepend(fmt, i, ItemText(x), Unparse(rest), EndText(e));
      }
    }
  }

  lemma Next(fmt: string, i: nat, t: string) returns (j: nat)
    requires At(fmt, i, t) && t != ""
    ensures i < j <= |fmt| && j == i + |t|
  {
    j := i + |t|;
  }

  /** What rt_vsnprintf prints for any format and any arguments: its items one after the other, each
      with the arguments that the ones before it have left. */
  lemma EveryFormatPrints(fmt: string, args: nat -> Arg) returns (items: seq<Item>, e: End)
    requires IsFormat(fmt)
    ensures AllProper(items) && fmt == Unparse(items) + EndText(e)
    ensures Expand(fmt, 0, args, 0) == Rendered(items, args, 0) + if e.Cut? then "%" else ""
  {
    hide Written, Rendered, AllProper, Unparse, EndText, Expand;
    items, e := EveryFormat(fmt, 0);
    assert fmt[0..] == fmt;
    ExpandIsRendering(fmt, 0, items, e, args, 0);
  }
}
