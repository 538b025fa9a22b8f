/** Bytes, byte strings, and the order that Rust gives to strings. */
module Bytes {

  /**
   A byte, written as the character that has its code. The laws below hold for every
   character, and thus for the 256 that are bytes.
   */
  type Byte = char

  type Bytes = seq<Byte>

  const NEWLINE: Byte := '\n'

  datatype Option<+T> = None | Some(value: T)

  /** The strict order of strings: byte by byte, and a proper prefix first. */
  predicate Below(a: Bytes, b: Bytes) {
    if b == [] then false
    else if a == [] then true
    else if a[0] != b[0] then a[0] < b[0]
    else Below(a[1..], b[1..])
  }

  lemma {:induction false} BelowIsTransitive(a: Bytes, b: Bytes, c: Bytes)
    requires Below(a, b) && Below(b, c)
    ensures Below(a, c)
  {
    if a != [] && a[0] == b[0] && b[0] == c[0] {
      BelowIsTransitive(a[1..], b[1..], c[1..]);
    }
  }

  lemma {:induction false} BelowIsTrichotomous(a: Bytes, b: Bytes)
    ensures Below(a, b) || a == b || Below(b, a)
    ensures !(Below(a, b) && Below(b, a))
    ensures !Below(a, a)
  {
    if a != [] && b != [] && a[0] == b[0] {
      BelowIsTrichotomous(a[1..], b[1..]);
      assert a == [a[0]] + a[1..] && b == [b[0]] + b[1..];
    }
    if a != [] {
      BelowIsTrichotomous(a[1..], a[1..]);
    }
  }

  /** The pieces in order, one after another. */
  function Concat(pieces: seq<Bytes>): Bytes {
    if pieces == [] then [] else pieces[0] + Concat(pieces[1..])
  }

  /** The pieces in order, with `separator` between neighbours. */
  function Join(pieces: seq<Bytes>, separator: Bytes): Bytes {
    if pieces == [] then []
    else if |pieces| == 1 then pieces[0]
    else pieces[0] + separator + Join(pieces[1..], separator)
  }

  lemma {:induction false} ConcatAppends(a: seq<Bytes>, b: seq<Bytes>)
    ensures Concat(a + b) == Concat(a) + Concat(b)
  {
    if a == [] {
      assert a + b == b;
    } else {
      assert (a + b)[1..] == a[1..] + b;
      ConcatAppends(a[1..], b);
    }
  }

  lemma {:induction false} JoinAppends(a: seq<Bytes>, b: Bytes, separator: Bytes)
    ensures Join(a + [b], separator) == if a == [] then b else Join(a, separator) + separator + b
  {
    if a == [] {
      assert a + [b] == [b];
    } else {
      assert (a + [b])[1..] == a[1..] + [b];
      JoinAppends(a[1..], b, separator);
      if |a| == 1 {
        assert a[1..] == [];
      } else {
        assert Join(a + [b], separator) == a[0] + separator + (Join(a[1..], separator) + separator + b);
        assert Join(a, separator) == a[0] + separator + Join(a[1..], separator);
      }
    }
  }

  // ----- characters -----

  /** Section 3 of RFC 3629: the bytes of a code point. */
  function Utf8(code: int): Bytes
    requires 0 <= code < 0x11_0000
  {
    if code < 0x80 then [code as char]
    else if code < 0x800 then [(0xc0 + code / 0x40) as char, (0x80 + code % 0x40) as char]
    else if code < 0x1_0000 then
      [(0xe0 + code / 0x1000) as char, (0x80 + code / 0x40 % 0x40) as char, (0x80 + code % 0x40) as char]
    else
      [(0xf0 + code / 0x4_0000) as char, (0x80 + code / 0x1000 % 0x40) as char,
       (0x80 + code / 0x40 % 0x40) as char, (0x80 + code % 0x40) as char]
  }

  /** The code point that some bytes encode, by the table of RFC 3629. */
  function CodePoint(b: Bytes): int
    requires 1 <= |b| <= 4
  {
    if |b| == 1 then b[0] as int
    else if |b| == 2 then (b[0] as int - 0xc0) * 0x40 + (b[1] as int - 0x80)
    else if |b| == 3 then (b[0] as int - 0xe0) * 0x1000 + (b[1] as int - 0x80) * 0x40 + (b[2] as int - 0x80)
    else (b[0] as int - 0xf0) * 0x4_0000 + (b[1] as int - 0x80) * 0x1000 + (b[2] as int - 0x80) * 0x40 + (b[3] as int - 0x80)
  }

  /** The bytes of a code point: the first tells how many they are, the others are from 0x80 to 0xbf. */
  lemma Utf8Encodes(code: int)
    requires 0 <= code < 0x11_0000
    ensures var b := Utf8(code);
      && 1 <= |b| <= 4 && CodePoint(b) == code
      && (|b| == 1 <==> b[0] < '\U{80}')
      && (|b| == 2 <==> '\U{c2}' <= b[0] < '\U{e0}')
      && (|b| == 3 <==> '\U{e0}' <= b[0] < '\U{f0}')
      && (|b| == 4 <==> '\U{f0}' <= b[0])
      && forall i :: 0 < i < |b| ==> '\U{80}' <= b[i] < '\U{c0}'
  {
    Sextets(code);
  }

  lemma Sextets(code: nat)
    ensures code / 0x1000 * 0x1000 + code / 0x40 % 0x40 * 0x40 + code % 0x40 == code
    ensures code / 0x4_0000 * 0x4_0000 + code / 0x1000 % 0x40 * 0x1000 + code / 0x40 % 0x40 * 0x40 + code % 0x40 == code
  {
    Sextet(code);
    Sextet(code / 0x40);
    Sextet(code / 0x1000);
    assert code / 0x1000 == code / 0x40 / 0x40;
    assert code / 0x4_0000 == code / 0x1000 / 0x40;
  }

  lemma Sextet(n: nat)
    ensures n == n / 0x40 * 0x40 + n % 0x40
  {
  }

  // ----- lines -----

  predicate NoNewline(s: Bytes) { forall i :: 0 <= i < |s| ==> s[i] != NEWLINE }

  /** The index of the first newline, or the length of `s`. */
  function FirstNewline(s: Bytes): (n: nat)
    ensures n <= |s| && NoNewline(s[..n])
    ensures n < |s| ==> s[n] == NEWLINE
  {
    if s == [] || s[0] == NEWLINE then 0
    else
      var n := 1 + FirstNewline(s[1..]);
      assert forall i :: 0 < i < n ==> s[i] == s[1..][..n - 1][i - 1];
      n
  }

  /** The complete lines of a stream, without their newlines. */
  function Lines(stream: Bytes): seq<Bytes>
    decreases |stream|
  {
    var n := FirstNewline(stream);
    if n == |stream| then [] else [stream[..n]] + Lines(stream[n + 1..])
  }

  /** What follows the last newline. */
  function Tail(stream: Bytes): (t: Bytes)
    ensures |t| <= |stream| && NoNewline(t)
    decreases |stream|
  {
    var n := FirstNewline(stream);
    if n == |stream| then
      assert stream[..n] == stream;
      stream
    else Tail(stream[n + 1..])
  }

  lemma FirstNewlineAt(s: Bytes, n: nat)
    requires n < |s| && NoNewline(s[..n]) && s[n] == NEWLINE
    ensures FirstNewline(s) == n
  {
  }

  lemma NoFirstNewline(s: Bytes)
    requires NoNewline(s)
    ensures FirstNewline(s) == |s|
  {
  }

  lemma SplitFirst(stream: Bytes)
    requires FirstNewline(stream) < |stream|
    ensures var n := FirstNewline(stream);
      Lines(stream) == [stream[..n]] + Lines(stream[n + 1..]) && Tail(stream) == Tail(stream[n + 1..])
  {
    hide FirstNewline;
  }

  lemma SplitNone(stream: Bytes)
    requires FirstNewline(stream) == |stream|
    ensures Lines(stream) == [] && Tail(stream) == stream
  {
    hide FirstNewline;
  }
}
