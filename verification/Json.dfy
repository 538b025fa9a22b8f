/**
 JSON values, their objects as key-ordered field lists, and their compact encoding.

 An object is the list of fields that a `BTreeMap<String, Value>` yields, in key order.
 A float is its own literal: the value that the literal denotes is not modelled.
 */
module Json {
  import opened Bytes

  datatype Json =
    | Null
    | Bool(b: bool)
    | Int(n: int)
    | Float(literal: Bytes)
    | Str(s: Bytes)
    | Arr(items: seq<Json>)
    | Obj(fields: seq<Field>)

  datatype Field = Field(key: Bytes, value: Json)

  const MIN_I64 := -0x8000_0000_0000_0000
  const MAX_I64 := 0x7fff_ffff_ffff_ffff
  const MAX_U64 := 0xffff_ffff_ffff_ffff

  // ----- objects -----

  predicate Sorted(fs: seq<Field>) {
    forall i, j :: 0 <= i < j < |fs| ==> Below(fs[i].key, fs[j].key)
  }

  function Get(fs: seq<Field>, key: Bytes): Option<Json> {
    if fs == [] then None
    else if fs[0].key == key then Some(fs[0].value)
    else Get(fs[1..], key)
  }

  function Remove(fs: seq<Field>, key: Bytes): seq<Field> {
    if fs == [] then []
    else if fs[0].key == key then fs[1..]
    else [fs[0]] + Remove(fs[1..], key)
  }

  /** Set one field. A field with the same key gives way. */
  function Insert(fs: seq<Field>, key: Bytes, value: Json): seq<Field> {
    if fs == [] then [Field(key, value)]
    else if fs[0].key == key then [Field(key, value)] + fs[1..]
    else if Below(key, fs[0].key) then [Field(key, value)] + fs
    else [fs[0]] + Insert(fs[1..], key, value)
  }

  /** Set every field of `more`, in its order. */
  function Extend(fs: seq<Field>, more: seq<Field>): seq<Field>
    decreases more
  {
    if more == [] then fs
    else Extend(Insert(fs, more[0].key, more[0].value), more[1..])
  }

  lemma {:induction false} SortedTail(fs: seq<Field>)
    requires Sorted(fs) && fs != []
    ensures Sorted(fs[1..])
    ensures Get(fs[1..], fs[0].key) == None
  {
    forall f | f in fs[1..] ensures f.key != fs[0].key {
      BelowIsTrichotomous(fs[0].key, f.key);
    }
    GetAbsent(fs[1..], fs[0].key);
  }

  lemma {:induction false} GetAbsent(fs: seq<Field>, key: Bytes)
    ensures Get(fs, key) == None <==> forall f :: f in fs ==> f.key != key
  {
    if fs != [] {
      assert forall f :: f in fs <==> f == fs[0] || f in fs[1..];
      GetAbsent(fs[1..], key);
    }
  }

  lemma {:induction false} GetMember(fs: seq<Field>, key: Bytes)
    requires Get(fs, key).Some?
    ensures Field(key, Get(fs, key).value) in fs
  {
    if fs[0].key != key {
      GetMember(fs[1..], key);
    } else {
      assert fs[0] == Field(key, Get(fs, key).value);
    }
  }

  lemma {:induction false} GetBelowFirst(fs: seq<Field>, key: Bytes)
    requires Sorted(fs) && fs != [] && Below(key, fs[0].key)
    ensures Get(fs, key) == None
  {
    forall f | f in fs ensures f.key != key {
      var i :| 0 <= i < |fs| && fs[i] == f;
      if i > 0 {
        BelowIsTransitive(key, fs[0].key, f.key);
      }
      BelowIsTrichotomous(key, f.key);
    }
    GetAbsent(fs, key);
  }

  /** What an insertion changes: the one key, and the order holds. */
  lemma {:induction false} InsertIsUpdate(fs: seq<Field>, key: Bytes, value: Json)
    requires Sorted(fs)
    ensures Sorted(Insert(fs, key, value))
    ensures Get(Insert(fs, key, value), key) == Some(value)
    ensures forall k :: k != key ==> Get(Insert(fs, key, value), k) == Get(fs, k)
    ensures forall f :: f in Insert(fs, key, value) ==> f == Field(key, value) || f in fs
  {
    if fs != [] {
      var r := Insert(fs, key, value);
      BelowIsTrichotomous(key, fs[0].key);
      SortedTail(fs);
      if fs[0].key == key {
        assert r[1..] == fs[1..];
      } else if Below(key, fs[0].key) {
        assert r[1..] == fs;
        forall j | 0 < j < |fs| ensures Below(key, fs[j].key) {
          BelowIsTransitive(key, fs[0].key, fs[j].key);
        }
      } else {
        InsertIsUpdate(fs[1..], key, value);
        assert r[1..] == Insert(fs[1..], key, value);
        forall j | 0 < j < |r| ensures Below(r[0].key, r[j].key) {
          assert r[j] in r[1..];
        }
      }
    }
  }

  lemma {:induction false} RemoveIsErase(fs: seq<Field>, key: Bytes)
    requires Sorted(fs)
    ensures Sorted(Remove(fs, key))
    ensures Get(Remove(fs, key), key) == None
    ensures forall k :: k != key ==> Get(Remove(fs, key), k) == Get(fs, k)
    ensures forall f :: f in Remove(fs, key) ==> f in fs
  {
    if fs != [] {
      SortedTail(fs);
      var r := Remove(fs, key);
      if fs[0].key != key {
        RemoveIsErase(fs[1..], key);
        assert r[1..] == Remove(fs[1..], key);
        forall j | 0 < j < |r| ensures Below(r[0].key, r[j].key) {
          assert r[j] in Remove(fs[1..], key);
          assert r[j] in fs[1..];
        }
      }
    }
  }

  lemma {:induction false} RemoveAbsent(fs: seq<Field>, key: Bytes)
    requires Get(fs, key) == None
    ensures Remove(fs, key) == fs
  {
    if fs != [] {
      RemoveAbsent(fs[1..], key);
    }
  }

  /** Two ordered objects with the same fields are one object. */
  lemma {:induction false} SortedIsCanonical(a: seq<Field>, b: seq<Field>)
    requires Sorted(a) && Sorted(b)
    requires forall k :: Get(a, k) == Get(b, k)
    ensures a == b
  {
    if a != [] {
      assert Get(a, a[0].key) == Get(b, a[0].key);
    }
    if b != [] {
      assert Get(a, b[0].key) == Get(b, b[0].key);
    }
    if a != [] && b != [] {
      BelowIsTrichotomous(a[0].key, b[0].key);
      if Below(a[0].key, b[0].key) {
        GetBelowFirst(b, a[0].key);
        assert false;
      } else if Below(b[0].key, a[0].key) {
        GetBelowFirst(a, b[0].key);
        assert false;
      } else {
        var k := a[0].key;
        assert Get(a, k) == Some(a[0].value) && Get(b, k) == Some(b[0].value);
        SortedTail(a);
        SortedTail(b);
        forall k' ensures Get(a[1..], k') == Get(b[1..], k') {
          assert Get(a, k') == Get(b, k');
        }
        SortedIsCanonical(a[1..], b[1..]);
      }
    }
  }

  /** An extension takes the last value of each key of `more`, and keeps the rest. */
  lemma {:induction false} ExtendIsOverlay(fs: seq<Field>, more: seq<Field>)
    requires Sorted(fs) && DistinctKeys(more)
    ensures Sorted(Extend(fs, more))
    ensures forall k :: Get(Extend(fs, more), k) == if Get(more, k).Some? then Get(more, k) else Get(fs, k)
    decreases more
  {
    if more != [] {
      var next := Insert(fs, more[0].key, more[0].value);
      InsertIsUpdate(fs, more[0].key, more[0].value);
      DistinctTail(more);
      ExtendIsOverlay(next, more[1..]);
    }
  }

  predicate DistinctKeys(fs: seq<Field>) {
    forall i, j :: 0 <= i < j < |fs| ==> fs[i].key != fs[j].key
  }

  lemma {:induction false} DistinctTail(fs: seq<Field>)
    requires DistinctKeys(fs) && fs != []
    ensures DistinctKeys(fs[1..])
    ensures Get(fs[1..], fs[0].key) == None
  {
    GetAbsent(fs[1..], fs[0].key);
  }

  lemma {:induction false} GetAt(fs: seq<Field>, i: nat)
    requires DistinctKeys(fs) && i < |fs|
    ensures Get(fs, fs[i].key) == Some(fs[i].value)
  {
    if i > 0 {
      DistinctTail(fs);
      GetAt(fs[1..], i - 1);
      assert fs[1..][i - 1] == fs[i];
    }
  }

  lemma SortedIsDistinct(fs: seq<Field>)
    requires Sorted(fs)
    ensures DistinctKeys(fs)
  {
    forall i, j | 0 <= i < j < |fs| ensures fs[i].key != fs[j].key {
      BelowIsTrichotomous(fs[i].key, fs[j].key);
    }
  }

  // ----- encoding -----

  function Digit(d: int): Byte
    requires 0 <= d < 16
  {
    if d < 10 then (d + 48) as char else (d + 87) as char
  }

  function PrintNat(n: nat): Bytes {
    if n < 10 then [Digit(n)] else PrintNat(n / 10) + [Digit(n % 10)]
  }

  function PrintInt(n: int): Bytes {
    if n < 0 then "-" + PrintNat(-n) else PrintNat(n)
  }

  /** One byte of a string, escaped as section 7 of RFC 8259 requires. */
  function Escape(c: Byte): Bytes {
    if c == '"' then "\\\""
    else if c == '\\' then "\\\\"
    else if c == '\U{08}' then "\\b"
    else if c == '\t' then "\\t"
    else if c == '\n' then "\\n"
    else if c == '\U{0c}' then "\\f"
    else if c == '\r' then "\\r"
    else if c < ' ' then "\\u00" + [Digit(c as int / 16), Digit(c as int % 16)]
    else [c]
  }

  function EscapeAll(s: Bytes): Bytes {
    if s == [] then [] else Escape(s[0]) + EscapeAll(s[1..])
  }

  function PrintStr(s: Bytes): Bytes {
    "\"" + EscapeAll(s) + "\""
  }

  function Print(j: Json): Bytes
    decreases j
  {
    match j
    case Null => "null"
    case Bool(b) => if b then "true" else "false"
    case Int(n) => PrintInt(n)
    case Float(literal) => literal
    case Str(s) => PrintStr(s)
    case Arr(items) => "[" + PrintItems(items) + "]"
    case Obj(fields) => "{" + PrintFields(fields) + "}"
  }

  function PrintItems(items: seq<Json>): Bytes
    decreases items
  {
    if items == [] then []
    else if |items| == 1 then Print(items[0])
    else Print(items[0]) + "," + PrintItems(items[1..])
  }

  function PrintField(f: Field): Bytes
    decreases f
  {
    PrintStr(f.key) + ":" + Print(f.value)
  }

  function PrintFields(fields: seq<Field>): Bytes
    decreases fields
  {
    if fields == [] then []
    else if |fields| == 1 then PrintField(fields[0])
    else PrintField(fields[0]) + "," + PrintFields(fields[1..])
  }
}
