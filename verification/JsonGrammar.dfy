/**
 JSON text as RFC 8259 defines it: which texts denote which values, token by token, with white
 space before and after each token. The reader is proved against these relations.
 */
module JsonGrammar {
  import opened Bytes
  import opened Json

  predicate Blank(s: Bytes) {
    forall i :: 0 <= i < |s| ==> s[i] == ' ' || s[i] == '\t' || s[i] == '\n' || s[i] == '\r'
  }

  // ----- numbers -----

  predicate IsDigit(c: Byte) { '0' <= c <= '9' }

  predicate AllDigits(s: Bytes) { forall i :: 0 <= i < |s| ==> IsDigit(s[i]) }

  /** The digits of an integer part: at least one, and no needless leading zero. */
  predicate IntegerPart(s: Bytes) {
    s != [] && AllDigits(s) && (|s| == 1 || s[0] != '0')
  }

  predicate FractionText(s: Bytes) {
    |s| >= 2 && s[0] == '.' && AllDigits(s[1..])
  }

  predicate ExponentText(s: Bytes) {
    && |s| >= 2 && (s[0] == 'e' || s[0] == 'E')
    && (AllDigits(s[1..]) || (|s| >= 3 && (s[1] == '+' || s[1] == '-') && AllDigits(s[2..])))
  }

  /** A number with a fraction, an exponent, or both. */
  ghost predicate FloatText(s: Bytes) {
    exists sign: Bytes, whole: Bytes, fraction: Bytes, exponent: Bytes ::
      && s == sign + whole + fraction + exponent
      && (sign == [] || sign == "-") && IntegerPart(whole)
      && (fraction == [] || FractionText(fraction)) && (exponent == [] || ExponentText(exponent))
      && fraction + exponent != []
  }

  predicate InRange(n: int) { MIN_I64 <= n <= MAX_U64 }

  /** An integer out of range is a float, and so is a negative zero. */
  ghost predicate FloatDenotes(literal: Bytes, t: Bytes) {
    || (literal == t && (FloatText(t) || exists n: int :: !InRange(n) && t == PrintInt(n)))
    || (literal == "-0.0" && t == "-0")
  }

  // ----- strings -----

  /** A hex digit in either case. */
  predicate HexDigit(d: int, c: Byte) {
    0 <= d < 16 && (c == Digit(d) || (d >= 10 && c == (d + 55) as char))
  }

  /** The escape of a 16-bit code unit. */
  ghost predicate UnitText(unit: int, e: Bytes) {
    && |e| == 6 && e[0] == '\\' && e[1] == 'u'
    && exists a: int, b: int, c: int, d: int ::
         && HexDigit(a, e[2]) && HexDigit(b, e[3]) && HexDigit(c, e[4]) && HexDigit(d, e[5])
         && unit == a * 0x1000 + b * 0x100 + c * 16 + d
  }

  predicate HighSurrogate(unit: int) { 0xd800 <= unit < 0xdc00 }
  predicate LowSurrogate(unit: int) { 0xdc00 <= unit < 0xe000 }

  /** The code point of one escape that is no surrogate, or of a pair. */
  ghost predicate EscapeText(code: int, e: Bytes) {
    || (0 <= code < 0x1_0000 && UnitText(code, e) && !HighSurrogate(code) && !LowSurrogate(code))
    || (|e| == 12 && exists high: int, low: int ::
          && UnitText(high, e[..6]) && UnitText(low, e[6..]) && HighSurrogate(high) && LowSurrogate(low)
          && code == 0x1_0000 + (high - 0xd800) * 0x400 + (low - 0xdc00))
  }

  predicate ShortEscape(c: Byte, e: Byte) {
    || (e == c && (c == '"' || c == '\\' || c == '/'))
    || (e == 'b' && c == '\U{08}') || (e == 't' && c == '\t') || (e == 'n' && c == '\n')
    || (e == 'f' && c == '\U{0c}') || (e == 'r' && c == '\r')
  }

  /** One character of a string, in one of the ways to write it. */
  ghost predicate CharText(s: Bytes, e: Bytes) {
    || (|s| == 1 && e == s && s[0] >= ' ' && s[0] != '"' && s[0] != '\\')
    || (|s| == 1 && |e| == 2 && e[0] == '\\' && ShortEscape(s[0], e[1]))
    || exists code: int :: 0 <= code < 0x11_0000 && EscapeText(code, e) && s == Utf8(code)
  }

  /** The characters of a string, one after another. */
  ghost predicate CharsText(s: Bytes, t: Bytes)
    decreases |s|
  {
    if s == [] then t == []
    else exists k: nat, e: Bytes, more: Bytes ::
      1 <= k <= |s| && t == e + more && CharText(s[..k], e) && CharsText(s[k..], more)
  }

  ghost predicate StringText(s: Bytes, t: Bytes) {
    exists body: Bytes :: t == "\"" + body + "\"" && CharsText(s, body)
  }

  // ----- values -----

  /** The text of a value, from its first token to its last. */
  ghost predicate ValueText(j: Json, t: Bytes)
    decreases j, 0
  {
    match j
    case Null => t == "null"
    case Bool(b) => t == if b then "true" else "false"
    case Int(n) => InRange(n) && t == PrintInt(n)
    case Float(literal) => FloatDenotes(literal, t)
    case Str(s) => StringText(s, t)
    case Arr(items) => exists body: Bytes :: t == "[" + body + "]" && ItemsText(items, body)
    case Obj(fields) => exists body: Bytes :: t == "{" + body + "}" && FieldsText(fields, body)
  }

  /** The text of a value with white space around it. */
  ghost predicate SpacedText(j: Json, t: Bytes)
    decreases j, 1
  {
    exists before: Bytes, core: Bytes, after: Bytes ::
      t == before + core + after && Blank(before) && Blank(after) && ValueText(j, core)
  }

  ghost predicate ItemsText(items: seq<Json>, t: Bytes)
    decreases items
  {
    if items == [] then Blank(t)
    else if |items| == 1 then SpacedText(items[0], t)
    else exists first: Bytes, more: Bytes ::
      t == first + "," + more && SpacedText(items[0], first) && ItemsText(items[1..], more)
  }

  ghost predicate SpacedKey(key: Bytes, t: Bytes) {
    exists before: Bytes, core: Bytes, after: Bytes ::
      t == before + core + after && Blank(before) && Blank(after) && StringText(key, core)
  }

  ghost predicate FieldText(f: Field, t: Bytes)
    decreases f
  {
    exists key: Bytes, value: Bytes :: t == key + ":" + value && SpacedKey(f.key, key) && SpacedText(f.value, value)
  }

  ghost predicate FieldsText(fields: seq<Field>, t: Bytes)
    decreases fields
  {
    if fields == [] then Blank(t)
    else if |fields| == 1 then FieldText(fields[0], t)
    else exists first: Bytes, more: Bytes ::
      t == first + "," + more && FieldText(fields[0], first) && FieldsText(fields[1..], more)
  }
}
