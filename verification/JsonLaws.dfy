/**
 The laws of the reader. It gives a value exactly for the texts that denote it and are nested less
 deeply than its limit, with each object as a map. So reading inverts printing.
 */
module JsonLaws {
  import opened Bytes
  import opened Json
  import opened JsonGrammar
  import opened JsonReader

  // ----- numbers -----

  predicate Delimited(rest: Bytes) { rest == [] || !NumberByte(rest[0]) }

  predicate NumberBytes(s: Bytes) { forall i :: 0 <= i < |s| ==> NumberByte(s[i]) }

  lemma {:induction false} ReadsNat(n: nat)
    ensures IntegerPart(PrintNat(n))
    ensures n >= 10 ==> PrintNat(n)[0] != '0'
    ensures ReadNat(PrintNat(n)) == n
  {
    if n >= 10 {
      ReadsNat(n / 10);
      var s := PrintNat(n);
      assert s[..|s| - 1] == PrintNat(n / 10);
      assert s[|s| - 1] == Digit(n % 10);
    } else {
      var s := PrintNat(n);
      assert s[..|s| - 1] == [];
    }
  }

  /** The digits of a number are the only ones that read as it. */
  lemma {:induction false} NatIsPrinted(digits: Bytes)
    requires IntegerPart(digits)
    ensures PrintNat(ReadNat(digits)) == digits
    ensures digits[0] != '0' ==> ReadNat(digits) > 0
  {
    var front, last := digits[..|digits| - 1], digits[|digits| - 1];
    assert IsDigit(last);
    if front != [] {
      assert front[0] == digits[0];
      NatIsPrinted(front);
      assert ReadNat(digits) / 10 == ReadNat(front) && ReadNat(digits) % 10 == last as int - 48;
    } else {
      assert ReadNat(front) == 0;
    }
    assert digits == front + [last];
  }

  lemma PrintedInteger(n: int)
    ensures var t := PrintInt(n); t != [] && NumberBytes(t) && IntegerPart(Unsigned(t))
    ensures var t := PrintInt(n); (t[0] == '-' <==> n < 0) && ReadNat(Unsigned(t)) == if n < 0 then -n else n
  {
    var size := if n < 0 then -n else n;
    ReadsNat(size);
    hide PrintNat, ReadNat;
    var t := PrintInt(n);
    if n < 0 {
      assert t[0] == '-' && t[1..] == PrintNat(size);
    }
  }

  lemma {:induction false} DigitRunIs(digits: Bytes, rest: Bytes)
    requires AllDigits(digits) && (rest == [] || !IsDigit(rest[0]))
    ensures DigitRun(digits + rest) == |digits|
  {
    if digits == [] {
      assert digits + rest == rest;
    } else {
      assert (digits + rest)[1..] == digits[1..] + rest;
      DigitRunIs(digits[1..], rest);
    }
  }

  lemma {:induction false} DigitRunIsDigits(s: Bytes)
    ensures AllDigits(s[..DigitRun(s)])
    ensures DigitRun(s) < |s| ==> !IsDigit(s[DigitRun(s)])
  {
    if s != [] && IsDigit(s[0]) {
      DigitRunIsDigits(s[1..]);
      assert s[..DigitRun(s)] == [s[0]] + s[1..][..DigitRun(s[1..])];
    }
  }

  lemma UnsignedIs(sign: Bytes, s: Bytes)
    requires (sign == [] || sign == "-") && s != [] && IsDigit(s[0])
    ensures Unsigned(sign + s) == s
  {
    if sign == [] {
      assert sign + s == s;
    } else {
      assert (sign + s)[1..] == s;
    }
  }

  /** What follows the integer part: the reader finds the fraction and the exponent. */
  lemma PartsRead(fraction: Bytes, exponent: Bytes)
    requires (fraction == [] || FractionText(fraction)) && (exponent == [] || ExponentText(exponent))
    requires fraction + exponent != []
    ensures var tail := fraction + exponent; FloatTail(tail) && NumberBytes(tail) && !IsDigit(tail[0])
  {
    var tail := fraction + exponent;
    if fraction != [] {
      assert tail[1..] == fraction[1..] + exponent;
      DigitRunIs(fraction[1..], exponent);
      assert tail[|fraction|..] == exponent;
      FractionBytes(fraction);
    } else {
      assert tail == exponent;
    }
    hide DigitRun, FractionText;
    ExponentBytes(exponent);
  }

  lemma FractionBytes(fraction: Bytes)
    requires FractionText(fraction)
    ensures NumberBytes(fraction)
  {
    assert fraction == [fraction[0]] + fraction[1..];
  }

  lemma ExponentBytes(exponent: Bytes)
    requires exponent == [] || ExponentText(exponent)
    ensures NumberBytes(exponent) && (exponent != [] ==> Exponent(exponent))
  {
    if exponent != [] {
      var digits := if AllDigits(exponent[1..]) then exponent[1..] else exponent[2..];
      assert exponent == exponent[..|exponent| - |digits|] + digits;
      assert forall i :: 0 <= i < |digits| ==> IsDigit(digits[i]);
      if AllDigits(exponent[1..]) {
        assert exponent[1..][0] == exponent[1];
      }
    }
  }

  lemma WholeIsRun(whole: Bytes, tail: Bytes)
    requires IntegerPart(whole) && tail != [] && !IsDigit(tail[0])
    ensures var s := whole + tail;
      && DigitRun(s) == |whole| && s[..|whole|] == whole && s[|whole|..] == tail
      && s != [] && IsDigit(s[0]) && !AllDigits(s)
  {
    var s := whole + tail;
    DigitRunIs(whole, tail);
    assert s[|whole|] == tail[0] && s[0] == whole[0];
  }

  lemma Regroup4(a: Bytes, b: Bytes, c: Bytes, d: Bytes)
    ensures a + b + c + d == a + (b + (c + d))
  {
  }

  lemma BytesOfConcat(a: Bytes, b: Bytes)
    requires NumberBytes(a) && NumberBytes(b)
    ensures NumberBytes(a + b)
  {
  }

  /** The parts of a float make a literal. */
  lemma PartsAreLiteral(sign: Bytes, whole: Bytes, fraction: Bytes, exponent: Bytes)
    requires (sign == [] || sign == "-") && IntegerPart(whole)
    requires (fraction == [] || FractionText(fraction)) && (exponent == [] || ExponentText(exponent))
    requires fraction + exponent != []
    ensures var t := sign + whole + fraction + exponent;
      FloatLiteral(t) && !AllDigits(Unsigned(t)) && NumberBytes(t) && t != []
  {
    Regroup4(sign, whole, fraction, exponent);
    PartsRead(fraction, exponent);
    var s := whole + (fraction + exponent);
    WholeIsRun(whole, fraction + exponent);
    UnsignedIs(sign, s);
    assert NumberBytes(sign) && NumberBytes(whole);
    BytesOfConcat(whole, fraction + exponent);
    BytesOfConcat(sign, s);
    hide Unsigned, DigitRun, FloatTail, FractionText, ExponentText, IntegerPart, AllDigits, NumberBytes;
  }

  lemma FractionIs(s: Bytes)
    requires Fraction(s)
    ensures var n := 1 + DigitRun(s[1..]); FractionText(s[..n])
  {
    DigitRunIsDigits(s[1..]);
    hide DigitRun;
    var n := 1 + DigitRun(s[1..]);
    assert s[..n][1..] == s[1..][..n - 1];
  }

  lemma TailHasParts(tail: Bytes) returns (fraction: Bytes, exponent: Bytes)
    requires FloatTail(tail)
    ensures tail == fraction + exponent && tail != []
    ensures (fraction == [] || FractionText(fraction)) && (exponent == [] || ExponentText(exponent))
  {
    fraction, exponent := [], tail;
    if Fraction(tail) {
      FractionIs(tail);
      hide FractionText;
      var n := 1 + DigitRun(tail[1..]);
      hide DigitRun, Fraction;
      fraction, exponent := tail[..n], tail[n..];
    }
  }

  lemma SignedParts(t: Bytes) returns (sign: Bytes)
    ensures t == sign + Unsigned(t) && (sign == [] || sign == "-")
  {
    sign := t[..|t| - |Unsigned(t)|];
  }

  lemma LiteralHasParts(t: Bytes) returns (sign: Bytes, whole: Bytes, fraction: Bytes, exponent: Bytes)
    requires FloatLiteral(t)
    ensures t == sign + whole + fraction + exponent
    ensures (sign == [] || sign == "-") && IntegerPart(whole)
    ensures (fraction == [] || FractionText(fraction)) && (exponent == [] || ExponentText(exponent))
    ensures fraction + exponent != []
  {
    hide Unsigned, DigitRun, IntegerPart, FloatTail, FractionText, ExponentText;
    var s := Unsigned(t);
    sign := SignedParts(t);
    whole := s[..DigitRun(s)];
    fraction, exponent := TailHasParts(s[DigitRun(s)..]);
    Regroup4(sign, whole, fraction, exponent);
    assert s == whole + s[DigitRun(s)..];
  }

  /** The predicate that the reader uses is the grammar of floats. */
  lemma FloatLiteralIsGrammar(t: Bytes)
    ensures FloatLiteral(t) <==> FloatText(t)
    ensures FloatText(t) ==> !AllDigits(Unsigned(t)) && NumberBytes(t) && t != []
  {
    if FloatLiteral(t) {
      var sign, whole, fraction, exponent := LiteralHasParts(t);
    }
    if FloatText(t) {
      var sign, whole, fraction, exponent :|
        && t == sign + whole + fraction + exponent
        && (sign == [] || sign == "-") && IntegerPart(whole)
        && (fraction == [] || FractionText(fraction)) && (exponent == [] || ExponentText(exponent))
        && fraction + exponent != [];
      PartsAreLiteral(sign, whole, fraction, exponent);
    }
  }

  predicate IsNumber(j: Json) { j.Int? || j.Float? }

  /** A number token reads as what it denotes. */
  lemma NumberReads(j: Json, t: Bytes)
    requires IsNumber(j) && ValueText(j, t)
    ensures ReadNumber(t) == Some(j) && t != [] && NumberBytes(t)
  {
    hide PrintInt, FloatLiteral, FloatText, ReadNat, Unsigned, IntegerPart;
    if FloatText(t) && j == Float(t) {
      FloatLiteralIsGrammar(t);
      IntegerIsNoFloat(t);
    } else if t == "-0" && j == Float("-0.0") {
      NegativeZero();
    } else {
      var n :| t == PrintInt(n) && (if InRange(n) then j == Int(n) else j == Float(t));
      PrintedInteger(n);
    }
  }

  lemma IntegerIsNoFloat(t: Bytes)
    ensures IntegerPart(Unsigned(t)) ==> AllDigits(Unsigned(t))
  {
  }

  lemma NegativeZero()
    ensures ReadNumber("-0") == Some(Float("-0.0")) && NumberBytes("-0")
  {
    assert Unsigned("-0") == "0";
    assert "0"[..0] == [];
  }

  lemma IntegerIsText(t: Bytes)
    requires t != [] && IntegerPart(Unsigned(t))
    ensures var size: int := ReadNat(Unsigned(t));
      if t[0] == '-' && size == 0 then t == "-0" else t == PrintInt(if t[0] == '-' then -size else size)
  {
    NatIsPrinted(Unsigned(t));
    ZeroIsPrinted();
    hide PrintNat, ReadNat, IntegerPart;
    if t[0] == '-' {
      assert t == "-" + Unsigned(t);
    }
  }

  /** A number that reads is a token of what it is read as. */
  lemma ReadNumberIsText(t: Bytes)
    requires t != [] && ReadNumber(t).Some?
    ensures IsNumber(ReadNumber(t).value) && ValueText(ReadNumber(t).value, t)
  {
    FloatLiteralIsGrammar(t);
    hide FloatLiteral, FloatText, ReadNat, PrintInt, Unsigned, IntegerPart;
    if IntegerPart(Unsigned(t)) {
      IntegerIsText(t);
    }
  }

  lemma ZeroIsPrinted()
    ensures PrintNat(0) == "0"
  {
  }

  lemma {:induction false} NumberRunStops(literal: Bytes, rest: Bytes)
    requires NumberBytes(literal) && Delimited(rest)
    ensures NumberRun(literal + rest) == |literal|
  {
    if literal == [] {
      assert literal + rest == rest;
    } else {
      assert (literal + rest)[1..] == literal[1..] + rest;
      NumberRunStops(literal[1..], rest);
    }
  }

  // ----- strings -----

  lemma HexIsDigit(c: Byte, d: int)
    ensures HexDigit(d, c) <==> HexValue(c) == Some(d)
  {
  }

  lemma UnitReads(unit: int, e: Bytes, tail: Bytes)
    requires UnitText(unit, e)
    ensures ReadUnit(e + tail) == Some(unit) && |e| == 6 && e[0] == '\\' && e[1] == 'u'
  {
    var a: int, b: int, c: int, d: int :|
      && HexDigit(a, e[2]) && HexDigit(b, e[3]) && HexDigit(c, e[4]) && HexDigit(d, e[5])
      && unit == a * 0x1000 + b * 0x100 + c * 16 + d;
    HexIsDigit(e[2], a);
    HexIsDigit(e[3], b);
    HexIsDigit(e[4], c);
    HexIsDigit(e[5], d);
    hide HexDigit, HexValue;
  }

  lemma ReadUnitIsText(s: Bytes)
    requires ReadUnit(s).Some?
    ensures |s| >= 6 && UnitText(ReadUnit(s).value, s[..6])
  {
    var a, b, c, d := HexValue(s[2]), HexValue(s[3]), HexValue(s[4]), HexValue(s[5]);
    HexIsDigit(s[2], a.value);
    HexIsDigit(s[3], b.value);
    HexIsDigit(s[4], c.value);
    HexIsDigit(s[5], d.value);
    hide HexDigit, HexValue;
    var e := s[..6];
    assert HexDigit(a.value, e[2]) && HexDigit(b.value, e[3]) && HexDigit(c.value, e[4]) && HexDigit(d.value, e[5]);
  }

  lemma EscapeReads(code: int, e: Bytes, tail: Bytes)
    requires EscapeText(code, e) && 0 <= code < 0x11_0000
    ensures ReadUnicode(e + tail) == Some((Utf8(code), |e|)) && |e| >= 6 && e[0] == '\\' && e[1] == 'u'
  {
    hide UnitText, ReadUnit, Utf8;
    if UnitText(code, e) {
      UnitReads(code, e, tail);
    } else {
      var high: int, low: int :|
        && UnitText(high, e[..6]) && UnitText(low, e[6..]) && HighSurrogate(high) && LowSurrogate(low)
        && code == 0x1_0000 + (high - 0xd800) * 0x400 + (low - 0xdc00);
      var text := e + tail;
      assert text == e[..6] + (e[6..] + tail) && text[6..] == e[6..] + tail;
      UnitReads(high, e[..6], e[6..] + tail);
      UnitReads(low, e[6..], tail);
    }
  }

  lemma ReadUnicodeIsText(s: Bytes) returns (code: int)
    requires ReadUnicode(s).Some?
    ensures 0 <= code < 0x11_0000
    ensures var (c, n) := ReadUnicode(s).value; c == Utf8(code) && c != [] && n <= |s| && EscapeText(code, s[..n])
  {
    hide UnitText, ReadUnit;
    ReadUnitIsText(s);
    code := ReadUnit(s).value;
    if HighSurrogate(code) {
      ReadUnitIsText(s[6..]);
      var high, low := code, ReadUnit(s[6..]).value;
      code := 0x1_0000 + (high - 0xd800) * 0x400 + (low - 0xdc00);
      assert s[..12][..6] == s[..6] && s[..12][6..] == s[6..][..6];
    }
  }

  /** A character of a string is read as what it stands for. */
  lemma CharReads(s: Bytes, e: Bytes, tail: Bytes)
    requires CharText(s, e)
    ensures e != [] && ReadChars(e + tail) == Prepend(s, ReadChars(tail))
  {
    hide EscapeText, ReadUnicode, Utf8, Prepend;
    var text := e + tail;
    assert text[|e|..] == tail;
    if code: int :| 0 <= code < 0x11_0000 && EscapeText(code, e) && s == Utf8(code) {
      EscapeReads(code, e, tail);
      assert text[0] == e[0] && text[1] == e[1];
    } else {
      assert text[0] == e[0];
      assert |e| == 2 ==> text[1] == e[1] && SimpleEscape(e[1]) == Some(s[0]);
      assert s == [s[0]];
    }
  }

  lemma QuoteReads(rest: Bytes)
    ensures ReadChars("\"" + rest) == Done([], rest)
  {
    assert ("\"" + rest)[1..] == rest;
  }

  lemma {:induction false} CharsRead(s: Bytes, body: Bytes, rest: Bytes)
    requires CharsText(s, body)
    ensures ReadChars(body + ("\"" + rest)) == Done(s, rest)
    decreases |s|
  {
    hide ReadChars, CharText;
    var end := "\"" + rest;
    if s == [] {
      QuoteReads(rest);
      assert body + end == end;
    } else {
      var k: nat, e: Bytes, more: Bytes :| 1 <= k <= |s| && body == e + more && CharText(s[..k], e) && CharsText(s[k..], more);
      hide CharsText;
      assert body + end == e + (more + end);
      CharReads(s[..k], e, more + end);
      CharsRead(s[k..], more, rest);
      assert s == s[..k] + s[k..];
    }
  }

  /** The first character that is read, and its text. */
  lemma FirstCharIsText(text: Bytes) returns (c: Bytes, n: nat)
    requires ReadChars(text).Done? && text[0] != '"'
    ensures 1 <= n <= |text| && c != [] && CharText(c, text[..n])
    ensures ReadChars(text) == Prepend(c, ReadChars(text[n..]))
  {
    hide ReadUnicode, EscapeText, Utf8;
    if text[0] != '\\' {
      c, n := [text[0]], 1;
      assert text[..1] == c;
    } else if text[1] != 'u' {
      c, n := [SimpleEscape(text[1]).value], 2;
      assert ShortEscape(c[0], text[..2][1]);
    } else {
      var code := ReadUnicodeIsText(text);
      c, n := ReadUnicode(text).value.0, ReadUnicode(text).value.1;
    }
  }

  lemma CharsGrow(c: Bytes, e: Bytes, s: Bytes, more: Bytes)
    requires c != [] && CharText(c, e) && CharsText(s, more)
    ensures CharsText(c + s, e + more)
  {
    hide CharText;
    assert (c + s)[..|c|] == c && (c + s)[|c|..] == s;
  }

  lemma QuoteEnds(text: Bytes)
    requires ReadChars(text).Done?
    ensures text != []
    ensures text[0] == '"' ==> text == [] + ("\"" + ReadChars(text).rest) && CharsText(ReadChars(text).value, [])
  {
  }

  lemma SplitAt(s: Bytes, n: nat)
    requires n <= |s|
    ensures s == s[..n] + s[n..]
  {
  }

  lemma Regroup(a: Bytes, b: Bytes, c: Bytes)
    ensures a + (b + c) == a + b + c
  {
  }

  lemma {:induction false} ReadCharsIsText(text: Bytes) returns (body: Bytes)
    requires ReadChars(text).Done?
    ensures text == body + ("\"" + ReadChars(text).rest) && CharsText(ReadChars(text).value, body)
    decreases |text|
  {
    QuoteEnds(text);
    hide CharText, CharsText, ReadChars;
    body := [];
    if text[0] != '"' {
      var c, n := FirstCharIsText(text);
      var e, tail := text[..n], text[n..];
      var more := ReadCharsIsText(tail);
      CharsGrow(c, e, ReadChars(tail).value, more);
      body := e + more;
      SplitAt(text, n);
      Regroup(e, more, "\"" + ReadChars(text).rest);
    }
  }

  // ----- white space -----

  lemma {:induction false} SpaceIsSkipped(blank: Bytes, s: Bytes)
    requires Blank(blank)
    ensures SkipSpace(blank + s) == SkipSpace(s)
  {
    if blank == [] {
      assert blank + s == s;
    } else {
      assert (blank + s)[1..] == blank[1..] + s;
      SpaceIsSkipped(blank[1..], s);
    }
  }

  lemma {:induction false} SkippedIsBlank(s: Bytes) returns (blank: Bytes)
    ensures s == blank + SkipSpace(s) && Blank(blank)
    ensures SkipSpace(s) != [] ==> !IsSpace(SkipSpace(s)[0])
    ensures SkipSpace(SkipSpace(s)) == SkipSpace(s)
  {
    if s != [] && IsSpace(s[0]) {
      var more := SkippedIsBlank(s[1..]);
      blank := [s[0]] + more;
    } else {
      blank := [];
    }
  }

  /** The reader of a value, an item, or a field begins at the first byte that is no white space. */
  lemma ReadersSkip(text: Bytes, s: Bytes, depth: nat)
    requires SkipSpace(text) == SkipSpace(s)
    ensures ReadValue(text, depth) == ReadValue(s, depth) && ReadItems(text, depth) == ReadItems(s, depth)
    ensures ReadField(text, depth) == ReadField(s, depth) && ReadFields(text, depth) == ReadFields(s, depth)
  {
    hide SkipSpace, ReadArray, ReadObject, ReadChars, NumberByte, ReadWord;
  }

  // ----- texts are read as what they denote -----

  lemma LiteralReads(literal: Bytes, rest: Bytes, j: Json, depth: nat)
    requires literal != [] && NumberBytes(literal) && Delimited(rest)
    requires ReadNumber(literal) == Some(j)
    ensures ReadValue(literal + rest, depth) == Done(j, rest)
  {
    hide ReadNumber;
    var text := literal + rest;
    NumberRunStops(literal, rest);
    assert text[0] == literal[0] && NumberByte(literal[0]);
    assert SkipSpace(text) == text;
    assert text[..|literal|] == literal && text[|literal|..] == rest;
    hide NumberRun, NumberBytes, Delimited, SkipSpace;
  }

  lemma WordTextReads(j: Json, t: Bytes, rest: Bytes, depth: nat)
    requires (j.Null? || j.Bool?) && ValueText(j, t)
    ensures ReadValue(t + rest, depth) == Done(j, rest)
  {
    var text := t + rest;
    assert text[..|t|] == t && text[|t|..] == rest;
    assert SkipSpace(text) == text;
  }

  /** A string at the start of a text. */
  lemma StringHead(s: Bytes, t: Bytes, rest: Bytes)
    requires StringText(s, t)
    ensures var text := t + rest;
      text != [] && text[0] == '"' && SkipSpace(text) == text && ReadChars(text[1..]) == Done(s, rest)
  {
    var body: Bytes :| t == "\"" + body + "\"" && CharsText(s, body);
    CharsRead(s, body, rest);
    Bracketed("\"", body, "\"", rest);
    hide ReadChars, CharsText;
    var tail := body + ("\"" + rest);
    assert ("\"" + tail)[0] == '"' && ("\"" + tail)[1..] == tail;
  }

  lemma StringTextReads(s: Bytes, t: Bytes, rest: Bytes, depth: nat)
    requires StringText(s, t)
    ensures ReadValue(t + rest, depth) == Done(Str(s), rest)
  {
    StringHead(s, t, rest);
    hide StringText, SkipSpace;
  }

  lemma ReadsOpening(open: Byte, body: Bytes, depth: nat)
    requires open == '[' || open == '{'
    ensures ReadValue([open] + body, depth)
         == if depth <= 1 then Fail
            else if open == '[' then ReadArray(body, depth - 1)
            else ReadObject(body, depth - 1)
  {
    var text := [open] + body;
    hide ReadArray, ReadObject;
    assert text[0] == open && text[1..] == body;
    assert SkipSpace(text) == text;
  }

  /** The first byte of a token that begins a value. */
  lemma TokenHead(j: Json, t: Bytes)
    requires ValueText(j, t)
    ensures t != [] && !IsSpace(t[0]) && t[0] != ']' && t[0] != '}'
  {
    if IsNumber(j) {
      NumberReads(j, t);
      hide ValueText;
    }
  }

  /** What ends a value inside an array, an object, or a text. */
  predicate Ends(end: Bytes) { end == [] || end[0] == ',' || end[0] == ']' || end[0] == '}' }

  lemma BlankDelimits(blank: Bytes, end: Bytes)
    requires Blank(blank) && Ends(end)
    ensures Delimited(blank + end) && SkipSpace(blank + end) == end
  {
    SpaceIsSkipped(blank, end);
  }

  lemma Around(before: Bytes, core: Bytes, after: Bytes, end: Bytes)
    ensures before + core + after + end == before + (core + (after + end))
  {
  }

  lemma Bracketed(open: Bytes, body: Bytes, close: Bytes, rest: Bytes)
    ensures open + body + close + rest == open + (body + (close + rest))
  {
  }

  lemma {:induction false} TextReads(j: Json, t: Bytes, rest: Bytes, depth: nat)
    requires ValueText(j, t) && Delimited(rest) && depth >= 1
    ensures ReadValue(t + rest, depth) == if Depth(j) < depth then Done(j, rest) else Fail
    decreases j, 1
  {
    hide ReadValue, ReadArray, ReadObject, ItemsText, FieldsText, ItemsDepth, FieldsDepth, StringText, FloatDenotes;
    match j {
      case Str(s) =>
        StringTextReads(s, t, rest, depth);
      case Arr(items) =>
        var body: Bytes :| t == "[" + body + "]" && ItemsText(items, body);
        Bracketed("[", body, "]", rest);
        ReadsOpening('[', body + ("]" + rest), depth);
        if depth > 1 {
          ArrayReads(items, body, rest, depth - 1);
        }
      case Obj(fields) =>
        var body: Bytes :| t == "{" + body + "}" && FieldsText(fields, body);
        Bracketed("{", body, "}", rest);
        ReadsOpening('{', body + ("}" + rest), depth);
        if depth > 1 {
          ObjectReadsText(fields, body, rest, depth - 1);
        }
      case Null => WordTextReads(j, t, rest, depth);
      case Bool(_) => WordTextReads(j, t, rest, depth);
      case _ =>
        NumberReads(j, t);
        LiteralReads(t, rest, j, depth);
    }
  }

  /** A value with white space around it: it is read up to its last token. */
  lemma {:induction false} SpacedReads(j: Json, t: Bytes, end: Bytes, depth: nat)
    requires SpacedText(j, t) && Ends(end) && depth >= 1
    ensures var r := ReadValue(t + end, depth);
      if Depth(j) < depth then r.Done? && r.value == j && SkipSpace(r.rest) == end else r == Fail
    ensures var s := SkipSpace(t + end); s != [] && s[0] != ']' && s[0] != '}'
    decreases j, 2
  {
    var before: Bytes, core: Bytes, after: Bytes :|
      t == before + core + after && Blank(before) && Blank(after) && ValueText(j, core);
    hide ReadValue, ValueText, Depth, Blank;
    var tail := core + (after + end);
    Around(before, core, after, end);
    BlankDelimits(after, end);
    TextReads(j, core, after + end, depth);
    SpaceIsSkipped(before, tail);
    ReadersSkip(t + end, tail, depth);
    TokenHead(j, core);
    assert tail[0] == core[0];
    assert SkipSpace(tail) == tail;
  }

  lemma {:induction false} ArrayReads(items: seq<Json>, body: Bytes, rest: Bytes, depth: nat)
    requires ItemsText(items, body) && depth >= 1
    ensures ReadArray(body + ("]" + rest), depth) == if ItemsDepth(items) < depth then Done(Arr(items), rest) else Fail
    decreases items, 2
  {
    hide ReadItems, SkipSpace, SpacedText;
    var end := "]" + rest;
    assert end[0] == ']' && end[1..] == rest;
    if items == [] {
      BlankDelimits(body, end);
    } else {
      ItemsRead(items, body, rest, depth);
      ArrayStep(body + end, depth);
    }
  }

  lemma ItemsStep(text: Bytes, first: Read<Json>, depth: nat)
    requires ReadValue(text, depth) == first
    ensures first.Fail? ==> ReadItems(text, depth) == Fail
    ensures first.Done? ==>
      var s := SkipSpace(first.rest);
      && (s != [] && s[0] == ']' ==> ReadItems(text, depth) == Done([first.value], s[1..]))
      && (s != [] && s[0] == ',' ==>
            ReadItems(text, depth) == match ReadItems(s[1..], depth)
                                      case Fail => Fail case Done(more, rest) => Done([first.value] + more, rest))
  {
    hide ReadValue, SkipSpace;
  }

  lemma {:induction false} ItemsRead(items: seq<Json>, body: Bytes, rest: Bytes, depth: nat)
    requires items != [] && ItemsText(items, body) && depth >= 1
    ensures ReadItems(body + ("]" + rest), depth) == if ItemsDepth(items) < depth then Done(items, rest) else Fail
    ensures var s := SkipSpace(body + ("]" + rest)); s != [] && s[0] != ']'
    decreases items, 0
  {
    hide ReadItems, ReadValue, SkipSpace, SpacedText, Depth;
    var end := "]" + rest;
    assert end[0] == ']' && end[1..] == rest;
    if |items| == 1 {
      SpacedReads(items[0], body, end, depth);
      ItemsStep(body + end, ReadValue(body + end, depth), depth);
      assert items[1..] == [] && items == [items[0]];
    } else {
      var first: Bytes, more: Bytes :| body == first + "," + more && SpacedText(items[0], first) && ItemsText(items[1..], more);
      hide ItemsText;
      var tail := "," + (more + end);
      Bracketed(first, ",", more, end);
      assert body + end == first + tail;
      assert tail[0] == ',' && tail[1..] == more + end;
      SpacedReads(items[0], first, tail, depth);
      ItemsStep(body + end, ReadValue(body + end, depth), depth);
      ItemsRead(items[1..], more, rest, depth);
      assert items == [items[0]] + items[1..];
    }
  }

  lemma {:induction false} ObjectReadsText(fields: seq<Field>, body: Bytes, rest: Bytes, depth: nat)
    requires FieldsText(fields, body) && depth >= 1
    ensures ReadObject(body + ("}" + rest), depth) == if FieldsDepth(fields) < depth then Done(Obj(fields), rest) else Fail
    decreases fields, 2
  {
    hide ReadFields, SkipSpace, FieldText;
    var end := "}" + rest;
    assert end[0] == '}' && end[1..] == rest;
    if fields == [] {
      BlankDelimits(body, end);
    } else {
      FieldsRead(fields, body, rest, depth);
      ObjectStep(body + end, depth);
    }
  }

  /** A key and its colon, and then the value. */
  lemma KeyReads(key: Bytes, t: Bytes, text: Bytes, depth: nat)
    requires SpacedKey(key, t)
    ensures ReadField(t + (":" + text), depth)
         == match ReadValue(text, depth) case Fail => Fail case Done(v, rest) => Done(Field(key, v), rest)
    ensures var s := SkipSpace(t + (":" + text)); s != [] && s[0] == '"'
  {
    var before: Bytes, core: Bytes, after: Bytes :|
      t == before + core + after && Blank(before) && Blank(after) && StringText(key, core);
    hide ReadValue, ReadChars, StringText, Blank;
    var colon := ":" + text;
    var tail := core + (after + colon);
    assert colon[0] == ':' && colon[1..] == text;
    Around(before, core, after, colon);
    SpaceIsSkipped(before, tail);
    SpaceIsSkipped(after, colon);
    StringHead(key, core, after + colon);
    hide Blank;
    assert SkipSpace(colon) == colon;
    hide SkipSpace;
  }

  lemma {:induction false} FieldReads(f: Field, t: Bytes, end: Bytes, depth: nat)
    requires FieldText(f, t) && Ends(end) && depth >= 1
    ensures var r := ReadField(t + end, depth);
      if Depth(f.value) < depth then r.Done? && r.value == f && SkipSpace(r.rest) == end else r == Fail
    ensures var s := SkipSpace(t + end); s != [] && s[0] == '"'
    decreases f, 0
  {
    var key: Bytes, value: Bytes :| t == key + ":" + value && SpacedKey(f.key, key) && SpacedText(f.value, value);
    hide ReadField, ReadValue, SpacedKey, SpacedText, Depth, SkipSpace;
    Bracketed(key, ":", value, end);
    KeyReads(f.key, key, value + end, depth);
    SpacedReads(f.value, value, end, depth);
  }

  lemma FieldsStep(text: Bytes, first: Read<Field>, depth: nat)
    requires ReadField(text, depth) == first
    ensures first.Fail? ==> ReadFields(text, depth) == Fail
    ensures first.Done? ==>
      var s := SkipSpace(first.rest);
      && (s != [] && s[0] == '}' ==> ReadFields(text, depth) == Done([first.value], s[1..]))
      && (s != [] && s[0] == ',' ==>
            ReadFields(text, depth) == match ReadFields(s[1..], depth)
                                       case Fail => Fail case Done(more, rest) => Done([first.value] + more, rest))
  {
    hide ReadField, SkipSpace;
  }

  lemma {:induction false} FieldsRead(fields: seq<Field>, body: Bytes, rest: Bytes, depth: nat)
    requires fields != [] && FieldsText(fields, body) && depth >= 1
    ensures ReadFields(body + ("}" + rest), depth) == if FieldsDepth(fields) < depth then Done(fields, rest) else Fail
    ensures var s := SkipSpace(body + ("}" + rest)); s != [] && s[0] == '"'
    decreases fields, 0
  {
    hide ReadFields, ReadField, SkipSpace, FieldText, Depth;
    var end := "}" + rest;
    assert end[0] == '}' && end[1..] == rest;
    if |fields| == 1 {
      FieldReads(fields[0], body, end, depth);
      FieldsStep(body + end, ReadField(body + end, depth), depth);
      assert fields[1..] == [] && fields == [fields[0]];
    } else {
      var first: Bytes, more: Bytes :| body == first + "," + more && FieldText(fields[0], first) && FieldsText(fields[1..], more);
      hide FieldsText;
      var tail := "," + (more + end);
      Bracketed(first, ",", more, end);
      assert tail[0] == ',' && tail[1..] == more + end;
      FieldReads(fields[0], first, tail, depth);
      FieldsStep(body + end, ReadField(body + end, depth), depth);
      FieldsRead(fields[1..], more, rest, depth);
      assert fields == [fields[0]] + fields[1..];
    }
  }

  // ----- what is read has such a text -----

  lemma {:induction false} ReadValueIsText(text: Bytes, depth: nat) returns (before: Bytes, core: Bytes)
    requires ReadValue(text, depth).Done? && depth >= 1
    ensures var r := ReadValue(text, depth);
      text == before + (core + r.rest) && Blank(before) && ValueText(r.value, core) && Depth(r.value) < depth
    decreases |text|, 1
  {
    before := SkippedIsBlank(text);
    hide SkipSpace, ReadChars, ReadArray, ReadObject, ReadNumber, ReadWord, NumberByte, Blank, CharsText;
    hide ItemsText, FieldsText, ItemsDepth, FieldsDepth, FloatDenotes;
    var s := SkipSpace(text);
    var rest := ReadValue(text, depth).rest;
    if s[0] == '"' {
      core := ReadStringIsText(s);
    } else if s[0] == '[' {
      var body := ReadArrayIsText(s[1..], depth - 1);
      core := "[" + body + "]";
      Bracketed("[", body, "]", rest);
    } else if s[0] == '{' {
      var body := ReadObjectIsText(s[1..], depth - 1);
      core := "{" + body + "}";
      Bracketed("{", body, "}", rest);
    } else if NumberByte(s[0]) {
      core := s[..NumberRun(s)];
      ReadNumberIsText(core);
    } else {
      core := ReadWordIsText(s);
    }
  }

  lemma ReadStringIsText(s: Bytes) returns (core: Bytes)
    requires s != [] && s[0] == '"' && ReadChars(s[1..]).Done?
    ensures s == core + ReadChars(s[1..]).rest && StringText(ReadChars(s[1..]).value, core)
  {
    var body := ReadCharsIsText(s[1..]);
    hide ReadChars, CharsText;
    core := "\"" + body + "\"";
    Bracketed("\"", body, "\"", ReadChars(s[1..]).rest);
    assert s == "\"" + s[1..];
  }

  lemma ReadWordIsText(s: Bytes) returns (core: Bytes)
    requires ReadWord(s).Done?
    ensures var r := ReadWord(s); s == core + r.rest && ValueText(r.value, core) && Depth(r.value) == 0
  {
    core := if "null" <= s then "null" else if "true" <= s then "true" else "false";
    assert s == core + s[|core|..];
  }

  /** Brackets with nothing but white space between them, or else items. */
  lemma ArrayStep(text: Bytes, depth: nat)
    ensures var s := SkipSpace(text);
      ReadArray(text, depth) == if s != [] && s[0] == ']' then Done(Arr([]), s[1..])
        else match ReadItems(text, depth) case Fail => Fail case Done(items, rest) => Done(Arr(items), rest)
  {
    var blank := SkippedIsBlank(text);
    ReadersSkip(text, SkipSpace(text), depth);
    hide SkipSpace, ReadItems;
  }

  lemma {:induction false} ReadArrayIsText(text: Bytes, depth: nat) returns (body: Bytes)
    requires ReadArray(text, depth).Done? && depth >= 1
    ensures var r := ReadArray(text, depth);
      r.value.Arr? && text == body + ("]" + r.rest) && ItemsText(r.value.items, body) && ItemsDepth(r.value.items) < depth
    decreases |text|, 4
  {
    ArrayStep(text, depth);
    hide SkipSpace, ReadItems, Blank, SpacedText, ReadArray;
    var s := SkipSpace(text);
    if s != [] && s[0] == ']' {
      body := SkippedIsBlank(text);
      assert s == "]" + s[1..];
    } else {
      body := ReadItemsIsText(text, depth);
    }
  }

  /** White space before and after the text of a value. */
  lemma ValueIsSpaced(j: Json, before: Bytes, core: Bytes, after: Bytes)
    requires Blank(before) && Blank(after) && ValueText(j, core)
    ensures SpacedText(j, before + core + after)
  {
  }

  /** One value with the white space after it, and what comes next. */
  lemma {:induction false} ReadSpacedIsText(text: Bytes, depth: nat) returns (t: Bytes)
    requires ReadValue(text, depth).Done? && depth >= 1
    ensures var r := ReadValue(text, depth);
      text == t + SkipSpace(r.rest) && SpacedText(r.value, t) && Depth(r.value) < depth
    decreases |text|, 2
  {
    var before, core := ReadValueIsText(text, depth);
    hide ReadValue, SpacedText, ValueText;
    var r := ReadValue(text, depth);
    var after := SkippedIsBlank(r.rest);
    hide SkipSpace, Blank;
    t := before + core + after;
    ValueIsSpaced(r.value, before, core, after);
    Around(before, core, after, SkipSpace(r.rest));
  }

  lemma OneItem(v: Json, t: Bytes)
    requires SpacedText(v, t)
    ensures ItemsText([v], t) && ItemsDepth([v]) == Depth(v)
  {
    hide SpacedText, Depth;
    assert [v][1..] == [];
  }

  lemma MoreItems(v: Json, t: Bytes, items: seq<Json>, more: Bytes)
    requires SpacedText(v, t) && items != [] && ItemsText(items, more)
    ensures ItemsText([v] + items, t + "," + more) && ItemsDepth([v] + items) == Max(Depth(v), ItemsDepth(items))
  {
    hide SpacedText, Depth;
    assert ([v] + items)[1..] == items;
  }

  lemma {:induction false} ReadItemsIsText(text: Bytes, depth: nat) returns (body: Bytes)
    requires ReadItems(text, depth).Done? && depth >= 1
    ensures var r := ReadItems(text, depth);
      r.value != [] && text == body + ("]" + r.rest) && ItemsText(r.value, body) && ItemsDepth(r.value) < depth
    decreases |text|, 3
  {
    hide SkipSpace, ReadValue, ItemsText, ItemsDepth, SpacedText, Depth;
    var first := ReadValue(text, depth);
    var t := ReadSpacedIsText(text, depth);
    var s := SkipSpace(first.rest);
    if s[0] == ']' {
      body := t;
      OneItem(first.value, t);
      assert s == "]" + s[1..];
    } else {
      var more := ReadItemsIsText(s[1..], depth);
      MoreItems(first.value, t, ReadItems(s[1..], depth).value, more);
      hide ReadItems;
      body := t + "," + more;
      Bracketed(t, ",", more, "]" + ReadItems(text, depth).rest);
      assert s == "," + s[1..];
    }
  }

  lemma ObjectStep(text: Bytes, depth: nat)
    ensures var s := SkipSpace(text);
      ReadObject(text, depth) == if s != [] && s[0] == '}' then Done(Obj([]), s[1..])
        else match ReadFields(text, depth) case Fail => Fail case Done(fields, rest) => Done(Obj(fields), rest)
  {
    var blank := SkippedIsBlank(text);
    ReadersSkip(text, SkipSpace(text), depth);
    hide SkipSpace, ReadFields;
  }

  lemma {:induction false} ReadObjectIsText(text: Bytes, depth: nat) returns (body: Bytes)
    requires ReadObject(text, depth).Done? && depth >= 1
    ensures var r := ReadObject(text, depth);
      r.value.Obj? && text == body + ("}" + r.rest) && FieldsText(r.value.fields, body) && FieldsDepth(r.value.fields) < depth
    decreases |text|, 4
  {
    ObjectStep(text, depth);
    hide SkipSpace, ReadFields, Blank, FieldText, ReadObject;
    var s := SkipSpace(text);
    if s != [] && s[0] == '}' {
      body := SkippedIsBlank(text);
      assert s == "}" + s[1..];
    } else {
      body := ReadFieldsIsText(text, depth);
    }
  }

  lemma ReadKeyIsText(text: Bytes) returns (key: Bytes)
    requires var s := SkipSpace(text); s != [] && s[0] == '"' && ReadChars(s[1..]).Done?
    ensures var r := ReadChars(SkipSpace(text)[1..]); text == key + SkipSpace(r.rest) && SpacedKey(r.value, key)
  {
    var s := SkipSpace(text);
    var r := ReadChars(s[1..]);
    var before := SkippedIsBlank(text);
    var core := ReadStringIsText(s);
    var after := SkippedIsBlank(r.rest);
    hide SkipSpace, ReadChars, StringText, Blank;
    key := before + core + after;
    KeyIsSpaced(r.value, before, core, after);
    hide SpacedKey;
    Around(before, core, after, SkipSpace(r.rest));
  }

  /** One field with the white space after it, and what comes next. */
  lemma {:induction false} ReadFieldIsText(text: Bytes, depth: nat) returns (t: Bytes)
    requires ReadField(text, depth).Done? && depth >= 1
    ensures var r := ReadField(text, depth);
      text == t + SkipSpace(r.rest) && FieldText(r.value, t) && Depth(r.value.value) < depth
    decreases |text|, 2
  {
    hide SkipSpace, ReadChars, ReadValue, SpacedKey, SpacedText, Depth;
    var key := ReadKeyIsText(text);
    var colon := SkipSpace(ReadChars(SkipSpace(text)[1..]).rest);
    var value := ReadSpacedIsText(colon[1..], depth);
    t := key + ":" + value;
    var r := ReadField(text, depth);
    assert colon == ":" + colon[1..];
    Bracketed(key, ":", value, SkipSpace(r.rest));
    FieldIsText(r.value, key, value);
    hide ReadField, FieldText;
  }

  lemma FieldIsText(f: Field, key: Bytes, value: Bytes)
    requires SpacedKey(f.key, key) && SpacedText(f.value, value)
    ensures FieldText(f, key + ":" + value)
  {
    hide SpacedKey, SpacedText;
  }

  lemma KeyIsSpaced(key: Bytes, before: Bytes, core: Bytes, after: Bytes)
    requires Blank(before) && Blank(after) && StringText(key, core)
    ensures SpacedKey(key, before + core + after)
  {
  }

  lemma OneField(f: Field, t: Bytes)
    requires FieldText(f, t)
    ensures FieldsText([f], t) && FieldsDepth([f]) == Depth(f.value)
  {
    hide FieldText, Depth;
    assert [f][1..] == [];
  }

  lemma MoreFields(f: Field, t: Bytes, fields: seq<Field>, more: Bytes)
    requires FieldText(f, t) && fields != [] && FieldsText(fields, more)
    ensures FieldsText([f] + fields, t + "," + more)
    ensures FieldsDepth([f] + fields) == Max(Depth(f.value), FieldsDepth(fields))
  {
    hide FieldText, Depth;
    assert ([f] + fields)[1..] == fields;
  }

  lemma {:induction false} ReadFieldsIsText(text: Bytes, depth: nat) returns (body: Bytes)
    requires ReadFields(text, depth).Done? && depth >= 1
    ensures var r := ReadFields(text, depth);
      r.value != [] && text == body + ("}" + r.rest) && FieldsText(r.value, body) && FieldsDepth(r.value) < depth
    decreases |text|, 3
  {
    hide SkipSpace, ReadField, FieldsText, FieldsDepth, FieldText, Depth;
    var first := ReadField(text, depth);
    var t := ReadFieldIsText(text, depth);
    var s := SkipSpace(first.rest);
    if s[0] == '}' {
      body := t;
      OneField(first.value, t);
      assert s == "}" + s[1..];
    } else {
      var more := ReadFieldsIsText(s[1..], depth);
      MoreFields(first.value, t, ReadFields(s[1..], depth).value, more);
      hide ReadFields;
      body := t + "," + more;
      Bracketed(t, ",", more, "}" + ReadFields(text, depth).rest);
      assert s == "," + s[1..];
    }
  }

  // ----- the reader is exact -----

  /** A text that denotes a value gives it, objects as maps, exactly when it is not nested too deeply. */
  lemma SpacedTextIsRead(j: Json, text: Bytes, depth: nat)
    requires SpacedText(j, text) && depth >= 1
    ensures ReadText(text, depth) == if Depth(j) < depth then Some(Normalize(j)) else None
  {
    hide SpacedText, SkipSpace, ReadValue, Depth;
    assert text + [] == text;
    SpacedReads(j, text, [], depth);
  }

  /**
   The reader gives a value exactly for the texts that denote it: a text reads as `v` if and only
   if it is the text, with any white space between its tokens, of a value that is `v` with objects
   as maps and that is nested less deeply than the limit.
   */
  lemma ReadTextIsExact(text: Bytes, depth: nat, v: Json)
    requires depth >= 1
    ensures ReadText(text, depth) == Some(v)
      <==> exists j :: SpacedText(j, text) && Depth(j) < depth && Normalize(j) == v
  {
    hide SpacedText, SkipSpace, ReadValue, Depth;
    if ReadText(text, depth) == Some(v) {
      var t := ReadSpacedIsText(text, depth);
      assert t + [] == t;
    }
    forall j | SpacedText(j, text) && Depth(j) < depth && Normalize(j) == v ensures ReadText(text, depth) == Some(v) {
      SpacedTextIsRead(j, text, depth);
    }
  }

  lemma SpacedIsNotEmpty(j: Json, text: Bytes)
    requires SpacedText(j, text)
    ensures text != []
  {
    var before: Bytes, core: Bytes, after: Bytes :|
      text == before + core + after && Blank(before) && Blank(after) && ValueText(j, core);
    TokenHead(j, core);
    hide ValueText;
  }

  // ----- the encoding is such a text -----

  lemma EscapeIsText(c: Byte)
    ensures Escape(c) != [] && CharText([c], Escape(c))
  {
    var e := Escape(c);
    if |e| == 6 {
      var code := c as int;
      assert HexDigit(0, e[2]) && HexDigit(0, e[3]) && HexDigit(code / 16, e[4]) && HexDigit(code % 16, e[5]);
      assert code == 0 * 0x1000 + 0 * 0x100 + code / 16 * 16 + code % 16;
      assert UnitText(code, e);
      assert EscapeText(code, e) && [c] == Utf8(code);
    }
  }

  lemma {:induction false} EscapedIsText(s: Bytes)
    ensures CharsText(s, EscapeAll(s))
  {
    if s != [] {
      EscapeIsText(s[0]);
      EscapedIsText(s[1..]);
      CharsGrow([s[0]], Escape(s[0]), s[1..], EscapeAll(s[1..]));
      assert s == [s[0]] + s[1..];
    }
  }

  lemma QuotedIsText(s: Bytes)
    ensures StringText(s, PrintStr(s))
  {
    EscapedIsText(s);
    hide CharsText;
  }

  lemma BareIsSpaced(j: Json, t: Bytes)
    requires ValueText(j, t)
    ensures SpacedText(j, t)
  {
    assert t == [] + t + [];
    ValueIsSpaced(j, [], t, []);
  }

  /** A printed value is its text without white space. */
  lemma {:induction false} PrintIsText(j: Json)
    requires Writable(j)
    ensures ValueText(j, Print(j)) && SpacedText(j, Print(j))
    decreases j, 1
  {
    hide SpacedText, ItemsText, FieldsText, StringText, FloatText, FloatLiteral;
    match j {
      case Float(literal) => FloatLiteralIsGrammar(literal);
      case Str(s) => QuotedIsText(s);
      case Arr(items) => PrintedItemsAreText(items);
      case Obj(fields) => PrintedFieldsAreText(fields);
      case _ =>
    }
    BareIsSpaced(j, Print(j));
  }

  lemma {:induction false} PrintedItemsAreText(items: seq<Json>)
    requires forall i :: 0 <= i < |items| ==> Writable(items[i])
    ensures ItemsText(items, PrintItems(items))
    decreases items, 0
  {
    if items != [] {
      PrintIsText(items[0]);
      PrintedItemsAreText(items[1..]);
      hide Print, SpacedText;
    }
  }

  lemma {:induction false} PrintedFieldsAreText(fields: seq<Field>)
    requires forall i :: 0 <= i < |fields| ==> Writable(fields[i].value)
    ensures FieldsText(fields, PrintFields(fields))
    decreases fields, 0
  {
    if fields != [] {
      PrintIsText(fields[0].value);
      PrintedFieldIsText(fields[0]);
      PrintedFieldsAreText(fields[1..]);
      hide PrintField, FieldText;
    }
  }

  lemma PrintedFieldIsText(f: Field)
    requires SpacedText(f.value, Print(f.value))
    ensures FieldText(f, PrintField(f))
  {
    QuotedIsText(f.key);
    assert PrintStr(f.key) == [] + PrintStr(f.key) + [];
    KeyIsSpaced(f.key, [], PrintStr(f.key), []);
    hide SpacedText, SpacedKey, StringText, PrintStr, Print;
  }

  lemma {:induction false} ReadsValue(j: Json, rest: Bytes, depth: nat)
    requires Writable(j) && Delimited(rest) && depth >= 1
    ensures ReadValue(Print(j) + rest, depth) == if Depth(j) < depth then Done(j, rest) else Fail
  {
    PrintIsText(j);
    TextReads(j, Print(j), rest, depth);
  }

  /** Reading what was printed gives the value back exactly when it is not nested too deeply. */
  lemma ReadTextInvertsPrint(j: Json, depth: nat)
    requires Writable(j) && depth >= 1
    ensures ReadText(Print(j), depth) == if Depth(j) < depth then Some(Normalize(j)) else None
  {
    PrintIsText(j);
    SpacedTextIsRead(j, Print(j), depth);
  }

  // ----- printed text -----

  /** A printed value has no control characters, so it has no newline. */
  predicate Visible(s: Bytes) { forall i :: 0 <= i < |s| ==> s[i] >= ' ' }

  lemma {:induction false} EscapedIsVisible(s: Bytes)
    ensures Visible(EscapeAll(s)) && Visible(PrintStr(s))
  {
    if s != [] {
      EscapedIsVisible(s[1..]);
      assert Visible(Escape(s[0]));
    }
  }

  lemma NumberIsVisible(j: Json, t: Bytes)
    requires IsNumber(j) && ValueText(j, t)
    ensures t != [] && Visible(t)
  {
    NumberReads(j, t);
    hide ValueText, ReadNumber;
  }

  lemma {:induction false} PrintedIsVisible(j: Json)
    requires Writable(j)
    ensures Print(j) != [] && Visible(Print(j))
    decreases j, 1
  {
    hide PrintInt, PrintItems, PrintFields, FloatLiteral, FloatText;
    match j {
      case Int(n) => NumberIsVisible(j, Print(j));
      case Float(literal) =>
        FloatLiteralIsGrammar(literal);
        NumberIsVisible(j, literal);
      case Str(s) => EscapedIsVisible(s);
      case Arr(items) => PrintedItemsAreVisible(items);
      case Obj(fields) => PrintedFieldsAreVisible(fields);
      case _ =>
    }
  }

  lemma {:induction false} PrintedItemsAreVisible(items: seq<Json>)
    requires forall i :: 0 <= i < |items| ==> Writable(items[i])
    ensures Visible(PrintItems(items))
    decreases items, 0
  {
    if items != [] {
      PrintedIsVisible(items[0]);
      PrintedItemsAreVisible(items[1..]);
    }
  }

  lemma {:induction false} PrintedFieldsAreVisible(fields: seq<Field>)
    requires forall i :: 0 <= i < |fields| ==> Writable(fields[i].value)
    ensures Visible(PrintFields(fields))
    decreases fields, 0
  {
    if fields != [] {
      EscapedIsVisible(fields[0].key);
      PrintedIsVisible(fields[0].value);
      PrintedFieldsAreVisible(fields[1..]);
    }
  }

  /** Two values with one encoding are one value, with the fields of each object in one order. */
  lemma PrintIsInjective(a: Json, b: Json)
    requires Writable(a) && Writable(b)
    requires Print(a) == Print(b)
    ensures a == b
  {
    var depth := 1 + Max(Depth(a), Depth(b));
    assert Print(a) + [] == Print(a) && Print(b) + [] == Print(b);
    ReadsValue(a, [], depth);
    ReadsValue(b, [], depth);
  }
}
