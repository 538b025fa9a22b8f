/** Reading JSON text, and what a reader makes of written values: each object as a map. */
module JsonReader {
  import opened Bytes
  import opened Json
  import opened JsonGrammar

  /** How many levels of nesting the decoder of a message accepts, plus one. */
  const DEPTH_LIMIT: nat := 128

  datatype Read<+T> = Done(value: T, rest: Bytes) | Fail

  // ----- values that the encoding can carry -----

  function DigitRun(s: Bytes): (n: nat)
    ensures n <= |s|
  {
    if s == [] || !IsDigit(s[0]) then 0 else 1 + DigitRun(s[1..])
  }

  predicate Exponent(s: Bytes) {
    && s != [] && (s[0] == 'e' || s[0] == 'E')
    && var digits := if |s| > 1 && (s[1] == '+' || s[1] == '-') then s[2..] else s[1..];
       digits != [] && AllDigits(digits)
  }

  predicate Fraction(s: Bytes) {
    s != [] && s[0] == '.' && DigitRun(s[1..]) >= 1
  }

  predicate FloatTail(s: Bytes) {
    if Fraction(s) then
      var tail := s[1 + DigitRun(s[1..])..];
      tail == [] || Exponent(tail)
    else
      Exponent(s)
  }

  /** A JSON number with a fraction, an exponent, or both. */
  predicate FloatLiteral(literal: Bytes) {
    var s := Unsigned(literal);
    var whole := DigitRun(s);
    IntegerPart(s[..whole]) && FloatTail(s[whole..])
  }

  function Unsigned(literal: Bytes): Bytes {
    if literal != [] && literal[0] == '-' then literal[1..] else literal
  }

  /** A value that a Rust `Value` can hold: numbers in range, and objects in key order. */
  predicate Valid(j: Json)
    decreases j
  {
    match j
    case Int(n) => MIN_I64 <= n <= MAX_U64
    case Float(literal) => FloatLiteral(literal)
    case Arr(items) => forall i :: 0 <= i < |items| ==> Valid(items[i])
    case Obj(fields) => Sorted(fields) && ValidFields(fields)
    case _ => true
  }

  predicate ValidFields(fields: seq<Field>)
    decreases fields
  {
    forall i :: 0 <= i < |fields| ==> Valid(fields[i].value)
  }

  /** The same, without the key order: what a struct may write. */
  predicate Writable(j: Json)
    decreases j
  {
    match j
    case Int(n) => MIN_I64 <= n <= MAX_U64
    case Float(literal) => FloatLiteral(literal)
    case Arr(items) => forall i :: 0 <= i < |items| ==> Writable(items[i])
    case Obj(fields) => forall i :: 0 <= i < |fields| ==> Writable(fields[i].value)
    case _ => true
  }

  function Max(a: nat, b: nat): nat { if a < b then b else a }

  function Depth(j: Json): nat
    decreases j
  {
    match j
    case Arr(items) => 1 + ItemsDepth(items)
    case Obj(fields) => 1 + FieldsDepth(fields)
    case _ => 0
  }

  function ItemsDepth(items: seq<Json>): nat
    decreases items
  {
    if items == [] then 0 else Max(Depth(items[0]), ItemsDepth(items[1..]))
  }

  function FieldsDepth(fields: seq<Field>): nat
    decreases fields
  {
    if fields == [] then 0 else Max(Depth(fields[0].value), FieldsDepth(fields[1..]))
  }

  /** The value that a reader builds: each object as a map from keys to values. */
  function Normalize(j: Json): Json
    decreases j
  {
    match j
    case Arr(items) => Arr(NormalizeItems(items))
    case Obj(fields) => Obj(Extend([], NormalizeFields(fields)))
    case _ => j
  }

  function NormalizeItems(items: seq<Json>): seq<Json>
    decreases items
  {
    if items == [] then [] else [Normalize(items[0])] + NormalizeItems(items[1..])
  }

  function NormalizeFields(fields: seq<Field>): (r: seq<Field>)
    ensures |r| == |fields|
    decreases fields
  {
    if fields == [] then []
    else [Field(fields[0].key, Normalize(fields[0].value))] + NormalizeFields(fields[1..])
  }

  // ----- the reader -----

  predicate IsSpace(c: Byte) { c == ' ' || c == '\t' || c == '\n' || c == '\r' }

  function SkipSpace(s: Bytes): (r: Bytes)
    ensures |r| <= |s|
  {
    if s != [] && IsSpace(s[0]) then SkipSpace(s[1..]) else s
  }

  function HexValue(c: Byte): (r: Option<nat>)
    ensures r.Some? ==> r.value < 16
  {
    if '0' <= c <= '9' then Some(c as int - 48)
    else if 'a' <= c <= 'f' then Some(c as int - 87)
    else if 'A' <= c <= 'F' then Some(c as int - 55)
    else None
  }

  /** The 16-bit unit that a `\u` escape at the start of the text stands for. */
  function ReadUnit(s: Bytes): (r: Option<nat>)
    ensures r.Some? ==> r.value < 0x1_0000
  {
    if |s| < 6 || s[0] != '\\' || s[1] != 'u' then None
    else
      var a, b, c, d := HexValue(s[2]), HexValue(s[3]), HexValue(s[4]), HexValue(s[5]);
      if a.Some? && b.Some? && c.Some? && d.Some?
      then Some(a.value * 0x1000 + b.value * 0x100 + c.value * 16 + d.value)
      else None
  }

  /** The character of a `\u` escape, or of two that make a pair, and how long they are. */
  function ReadUnicode(s: Bytes): (r: Option<(Bytes, nat)>)
    ensures r.Some? ==> 6 <= r.value.1 <= |s|
  {
    match ReadUnit(s)
    case None => None
    case Some(unit) =>
      if LowSurrogate(unit) then None
      else if !HighSurrogate(unit) then Some((Utf8(unit), 6))
      else match ReadUnit(s[6..])
        case None => None
        case Some(low) =>
          if LowSurrogate(low) then Some((Utf8(0x1_0000 + (unit - 0xd800) * 0x400 + (low - 0xdc00)), 12)) else None
  }

  function SimpleEscape(c: Byte): Option<Byte> {
    if c == '"' || c == '\\' || c == '/' then Some(c)
    else if c == 'b' then Some('\U{08}')
    else if c == 't' then Some('\t')
    else if c == 'n' then Some('\n')
    else if c == 'f' then Some('\U{0c}')
    else if c == 'r' then Some('\r')
    else None
  }

  /** Read the characters of a string up to its closing quote. */
  function ReadChars(s: Bytes): (r: Read<Bytes>)
    ensures r.Done? ==> |r.rest| < |s|
    decreases |s|
  {
    if s == [] || s[0] < ' ' then Fail
    else if s[0] == '"' then Done([], s[1..])
    else if s[0] != '\\' then Prepend([s[0]], ReadChars(s[1..]))
    else if |s| == 1 then Fail
    else if s[1] == 'u' then
      match ReadUnicode(s) case None => Fail case Some((c, n)) => Prepend(c, ReadChars(s[n..]))
    else if SimpleEscape(s[1]) == None then Fail
    else Prepend([SimpleEscape(s[1]).value], ReadChars(s[2..]))
  }

  function Prepend(c: Bytes, r: Read<Bytes>): Read<Bytes> {
    if r.Fail? then Fail else Done(c + r.value, r.rest)
  }

  predicate NumberByte(c: Byte) {
    IsDigit(c) || c == '-' || c == '+' || c == '.' || c == 'e' || c == 'E'
  }

  function NumberRun(s: Bytes): (n: nat)
    ensures n <= |s|
    ensures s != [] && NumberByte(s[0]) ==> n > 0
  {
    if s == [] || !NumberByte(s[0]) then 0 else 1 + NumberRun(s[1..])
  }

  function ReadNat(digits: Bytes): nat
    requires AllDigits(digits)
  {
    if digits == [] then 0
    else ReadNat(digits[..|digits| - 1]) * 10 + (digits[|digits| - 1] as int - 48)
  }

  /** The number that an integer literal stands for. An integer out of range is a float. */
  function ReadInteger(literal: Bytes): Json
    requires IntegerPart(Unsigned(literal))
  {
    var size := ReadNat(Unsigned(literal));
    var n := if literal[0] == '-' then 0 - size else size;
    if literal[0] == '-' && n == 0 then Float("-0.0")
    else if MIN_I64 <= n <= MAX_U64 then Int(n)
    else Float(literal)
  }

  function ReadNumber(literal: Bytes): Option<Json> {
    if IntegerPart(Unsigned(literal)) then Some(ReadInteger(literal))
    else if FloatLiteral(literal) then Some(Float(literal))
    else None
  }

  function ReadNumberAt(s: Bytes): (r: Read<Json>)
    requires s != [] && NumberByte(s[0])
    ensures r.Done? ==> |r.rest| < |s|
  {
    var n := NumberRun(s);
    match ReadNumber(s[..n]) case None => Fail case Some(j) => Done(j, s[n..])
  }

  function ReadWord(s: Bytes): (r: Read<Json>)
    ensures r.Done? ==> |r.rest| < |s|
  {
    if "null" <= s then Done(Null, s[4..])
    else if "true" <= s then Done(Bool(true), s[4..])
    else if "false" <= s then Done(Bool(false), s[5..])
    else Fail
  }

  /** Read one value as it is written: the fields of an object stay in the order of the text. */
  function ReadValue(text: Bytes, depth: nat): (r: Read<Json>)
    ensures r.Done? ==> |r.rest| < |text|
    decreases |text|, 1
  {
    var s := SkipSpace(text);
    if s == [] then Fail
    else if s[0] == '"' then
      match ReadChars(s[1..]) case Fail => Fail case Done(t, rest) => Done(Str(t), rest)
    else if s[0] == '[' then
      if depth <= 1 then Fail else ReadArray(s[1..], depth - 1)
    else if s[0] == '{' then
      if depth <= 1 then Fail else ReadObject(s[1..], depth - 1)
    else if NumberByte(s[0]) then ReadNumberAt(s)
    else ReadWord(s)
  }

  function ReadArray(text: Bytes, depth: nat): (r: Read<Json>)
    ensures r.Done? ==> |r.rest| < |text|
    decreases |text|, 3
  {
    var s := SkipSpace(text);
    if s != [] && s[0] == ']' then Done(Arr([]), s[1..])
    else
      match ReadItems(s, depth) case Fail => Fail case Done(items, rest) => Done(Arr(items), rest)
  }

  function ReadObject(text: Bytes, depth: nat): (r: Read<Json>)
    ensures r.Done? ==> |r.rest| < |text|
    decreases |text|, 3
  {
    var s := SkipSpace(text);
    if s != [] && s[0] == '}' then Done(Obj([]), s[1..])
    else
      match ReadFields(s, depth) case Fail => Fail case Done(fs, rest) => Done(Obj(fs), rest)
  }

  /** Read one or more items and the bracket that closes them. */
  function ReadItems(text: Bytes, depth: nat): (r: Read<seq<Json>>)
    ensures r.Done? ==> |r.rest| < |text|
    decreases |text|, 2
  {
    var first := ReadValue(text, depth);
    if first.Fail? then Fail else
    var s := SkipSpace(first.rest);
    if s == [] then Fail
    else if s[0] == ']' then Done([first.value], s[1..])
    else if s[0] == ',' then
      match ReadItems(s[1..], depth) case Fail => Fail case Done(more, rest) => Done([first.value] + more, rest)
    else Fail
  }

  /** Read one or more fields and the brace that closes them. */
  function ReadFields(text: Bytes, depth: nat): (r: Read<seq<Field>>)
    ensures r.Done? ==> |r.rest| < |text|
    decreases |text|, 2
  {
    var first := ReadField(text, depth);
    if first.Fail? then Fail else
    var s := SkipSpace(first.rest);
    if s == [] then Fail
    else if s[0] == '}' then Done([first.value], s[1..])
    else if s[0] == ',' then
      match ReadFields(s[1..], depth) case Fail => Fail case Done(more, rest) => Done([first.value] + more, rest)
    else Fail
  }

  function ReadField(text: Bytes, depth: nat): (r: Read<Field>)
    ensures r.Done? ==> |r.rest| < |text|
    decreases |text|, 1
  {
    var s := SkipSpace(text);
    if s == [] || s[0] != '"' then Fail else
    match ReadChars(s[1..])
    case Fail => Fail
    case Done(key, afterKey) =>
      var t := SkipSpace(afterKey);
      if t == [] || t[0] != ':' then Fail else
      match ReadValue(t[1..], depth)
      case Fail => Fail
      case Done(value, rest) => Done(Field(key, value), rest)
  }

  /** Read one whole text: a value, and nothing but white space after it. Objects become maps. */
  function ReadText(text: Bytes, depth: nat): Option<Json> {
    match ReadValue(text, depth)
    case Fail => None
    case Done(j, rest) => if SkipSpace(rest) == [] then Some(Normalize(j)) else None
  }

  // ----- values that are as a reader builds them -----

  lemma {:induction false} ValidIsNormal(j: Json)
    requires Valid(j)
    ensures Normalize(j) == j && Writable(j)
    decreases j, 1
  {
    match j {
      case Arr(items) =>
        ValidItemsAreNormal(items);
      case Obj(fields) =>
        ValidFieldsAreNormal(fields);
        InsertionOrder(fields);
      case _ =>
    }
  }

  lemma {:induction false} ValidItemsAreNormal(items: seq<Json>)
    requires forall i :: 0 <= i < |items| ==> Valid(items[i])
    ensures NormalizeItems(items) == items
    ensures forall i :: 0 <= i < |items| ==> Writable(items[i])
    decreases items, 0
  {
    if items != [] {
      ValidIsNormal(items[0]);
      ValidItemsAreNormal(items[1..]);
      assert items == [items[0]] + items[1..];
    }
  }

  lemma {:induction false} ValidFieldsAreNormal(fields: seq<Field>)
    requires ValidFields(fields)
    ensures NormalizeFields(fields) == fields
    ensures forall i :: 0 <= i < |fields| ==> Writable(fields[i].value)
    decreases fields, 0
  {
    if fields != [] {
      ValidIsNormal(fields[0].value);
      ValidFieldsAreNormal(fields[1..]);
      assert fields == [fields[0]] + fields[1..];
    }
  }

  /** Fields that arrive in key order build the object that they came from. */
  lemma InsertionOrder(fields: seq<Field>)
    requires Sorted(fields)
    ensures Extend([], fields) == fields
  {
    SortedIsDistinct(fields);
    ExtendIsOverlay([], fields);
    SortedIsCanonical(Extend([], fields), fields);
  }

  // ----- what a reader makes of the fields of an object -----

  function NormalizeOption(j: Option<Json>): Option<Json> {
    match j case None => None case Some(v) => Some(Normalize(v))
  }

  lemma {:induction false} GetNormalized(fields: seq<Field>, key: Bytes)
    ensures Get(NormalizeFields(fields), key) == NormalizeOption(Get(fields, key))
  {
    if fields != [] {
      assert NormalizeFields(fields)[1..] == NormalizeFields(fields[1..]);
      GetNormalized(fields[1..], key);
    }
  }

  lemma {:induction false} NormalizedKeys(fields: seq<Field>)
    ensures forall i :: 0 <= i < |fields| ==> NormalizeFields(fields)[i].key == fields[i].key
  {
    if fields != [] {
      NormalizedKeys(fields[1..]);
    }
  }

  /** The object that a reader builds from written fields answers every key as the fields do. */
  lemma ObjectReads(fields: seq<Field>) returns (o: seq<Field>)
    requires DistinctKeys(fields)
    ensures Normalize(Obj(fields)) == Obj(o) && Sorted(o)
    ensures forall k :: Get(o, k) == NormalizeOption(Get(fields, k))
  {
    NormalizedKeys(fields);
    ExtendIsOverlay([], NormalizeFields(fields));
    o := Extend([], NormalizeFields(fields));
    forall k ensures Get(o, k) == NormalizeOption(Get(fields, k)) {
      GetNormalized(fields, k);
    }
  }

  lemma {:induction false} GetOfConcat(a: seq<Field>, b: seq<Field>, key: Bytes)
    ensures Get(a + b, key) == if Get(a, key).Some? then Get(a, key) else Get(b, key)
  {
    if a == [] {
      assert a + b == b;
    } else {
      assert (a + b)[1..] == a[1..] + b;
      GetOfConcat(a[1..], b, key);
    }
  }

  /** A reader forgets the order of fields with different keys. */
  lemma OrderIsForgotten(a: seq<Field>, b: seq<Field>)
    requires DistinctKeys(a + b)
    ensures DistinctKeys(b + a) && Normalize(Obj(a + b)) == Normalize(Obj(b + a))
  {
    var p, q := a + b, b + a;
    forall i, j | 0 <= i < j < |q| ensures q[i].key != q[j].key {
      var k := if i < |b| then |a| + i else i - |b|;
      var l := if j < |b| then |a| + j else j - |b|;
      assert p[k] == q[i] && p[l] == q[j];
    }
    var x := ObjectReads(p);
    var y := ObjectReads(q);
    forall key ensures Get(x, key) == Get(y, key) {
      GetOfConcat(a, b, key);
      GetOfConcat(b, a, key);
      DisjointKeys(a, b, key);
    }
    SortedIsCanonical(x, y);
  }

  lemma DisjointKeys(a: seq<Field>, b: seq<Field>, key: Bytes)
    requires DistinctKeys(a + b)
    ensures Get(a, key) == None || Get(b, key) == None
  {
    if Get(a, key).Some? {
      GetMember(a, key);
      var i :| 0 <= i < |a| && a[i].key == key;
      forall f | f in b ensures f.key != key {
        var j :| 0 <= j < |b| && b[j] == f;
        assert (a + b)[i] == a[i] && (a + b)[|a| + j] == f;
      }
      GetAbsent(b, key);
    }
  }

}
