/**
 Hash maps inside a snapshot: the orders in which they are written, and which snapshots have a
 digest that does not depend on them.

 A struct is written with its declared fields in order, and then the entries of its flattened hash
 map in any order. A hash map on its own is a struct without declared fields.
 */
module HashOrder {
  import opened Bytes
  import opened Json
  import opened JsonReader
  import opened Digest

  datatype Tree = Fixed(value: Json) | Record(slots: seq<Slot>, extra: map<Bytes, Json>)

  datatype Slot = Slot(key: Bytes, value: Tree)

  function Lookup(extra: map<Bytes, Json>, key: Bytes): Option<Json> {
    if key in extra then Some(extra[key]) else None
  }

  /** The entries of a hash map, each once, in some order. */
  ghost predicate IsOrder(extra: map<Bytes, Json>, fields: seq<Field>) {
    DistinctKeys(fields) && forall k :: Get(fields, k) == Lookup(extra, k)
  }

  /** The value may be written so. */
  ghost predicate WrittenAs(t: Tree, j: Json)
    decreases t
  {
    match t
    case Fixed(value) => j == value
    case Record(slots, extra) =>
      && j.Obj? && |slots| <= |j.fields|
      && SlotsWritten(slots, j.fields[..|slots|]) && IsOrder(extra, j.fields[|slots|..])
  }

  ghost predicate SlotsWritten(slots: seq<Slot>, fields: seq<Field>)
    decreases slots
  {
    |fields| == |slots| &&
    forall i :: 0 <= i < |slots| ==> fields[i].key == slots[i].key && WrittenAs(slots[i].value, fields[i].value)
  }

  /** Every hash map in the value has one key at most. */
  predicate SingleKeys(t: Tree)
    decreases t
  {
    match t
    case Fixed(_) => true
    case Record(slots, extra) => |extra| <= 1 && forall i :: 0 <= i < |slots| ==> SingleKeys(slots[i].value)
  }

  predicate WritableTree(t: Tree)
    decreases t
  {
    match t
    case Fixed(value) => Writable(value)
    case Record(slots, extra) =>
      (forall k <- extra :: Writable(extra[k])) && forall i :: 0 <= i < |slots| ==> WritableTree(slots[i].value)
  }

  /** No key of a struct is written twice. */
  predicate DistinctTree(t: Tree)
    decreases t
  {
    match t
    case Fixed(_) => true
    case Record(slots, extra) =>
      && (forall i, j :: 0 <= i < j < |slots| ==> slots[i].key != slots[j].key)
      && (forall i :: 0 <= i < |slots| ==> slots[i].key !in extra && DistinctTree(slots[i].value))
  }

  // ----- the orders of one map -----

  lemma OrderCons(extra: map<Bytes, Json>, key: Bytes, rest: seq<Field>)
    requires key in extra && IsOrder(extra - {key}, rest)
    ensures IsOrder(extra, [Field(key, extra[key])] + rest)
  {
    var fields := [Field(key, extra[key])] + rest;
    assert fields[1..] == rest;
    assert Get(rest, key) == Lookup(extra - {key}, key) == None;
    GetAbsent(rest, key);
    forall k ensures Get(fields, k) == Lookup(extra, k) {
      assert Get(rest, k) == Lookup(extra - {key}, k);
    }
  }

  lemma {:induction false} OrderExists(extra: map<Bytes, Json>) returns (fields: seq<Field>)
    ensures IsOrder(extra, fields)
    decreases |extra|
  {
    if extra == map[] {
      return [];
    }
    var key :| key in extra;
    assert (extra - {key}).Keys == extra.Keys - {key};
    var rest := OrderExists(extra - {key});
    OrderCons(extra, key, rest);
    return [Field(key, extra[key])] + rest;
  }

  lemma OrderHasEntry(extra: map<Bytes, Json>, fields: seq<Field>, i: nat)
    requires IsOrder(extra, fields) && i < |fields|
    ensures fields[i].key in extra && extra[fields[i].key] == fields[i].value
  {
    GetAt(fields, i);
    assert Get(fields, fields[i].key) == Lookup(extra, fields[i].key);
  }

  lemma {:induction false} OrderCount(extra: map<Bytes, Json>, fields: seq<Field>)
    requires IsOrder(extra, fields)
    ensures |fields| == |extra|
    decreases |fields|
  {
    if fields == [] {
      assert forall k :: k in extra ==> Get(fields, k) == Lookup(extra, k);
      assert extra == map[];
    } else {
      var key, rest := fields[0].key, fields[1..];
      OrderHasEntry(extra, fields, 0);
      DistinctTail(fields);
      forall k ensures Get(rest, k) == Lookup(extra - {key}, k) {
        assert Get(fields, k) == Lookup(extra, k);
      }
      OrderCount(extra - {key}, rest);
      assert (extra - {key}).Keys == extra.Keys - {key};
    }
  }

  lemma OneOrder(extra: map<Bytes, Json>, a: seq<Field>, b: seq<Field>)
    requires |extra| <= 1 && IsOrder(extra, a) && IsOrder(extra, b)
    ensures a == b
  {
    OrderCount(extra, a);
    OrderCount(extra, b);
    if |extra| == 1 {
      OrderHasEntry(extra, a, 0);
      OrderHasEntry(extra, b, 0);
      assert |extra.Keys - {a[0].key}| == 0;
      assert b[0].key !in extra.Keys - {a[0].key};
      assert a == [a[0]] && b == [b[0]];
    }
  }

  lemma TwoOrders(extra: map<Bytes, Json>) returns (a: seq<Field>, b: seq<Field>)
    requires |extra| >= 2
    ensures IsOrder(extra, a) && IsOrder(extra, b) && a != b
  {
    var k :| k in extra;
    assert |extra.Keys - {k}| == |extra.Keys| - 1;
    var l :| l in extra.Keys - {k};
    var rest := OrderExists(extra - {k} - {l});
    assert extra - {l} - {k} == extra - {k} - {l};
    OrderCons(extra - {k}, l, rest);
    OrderCons(extra - {l}, k, rest);
    a := [Field(k, extra[k])] + ([Field(l, extra[l])] + rest);
    b := [Field(l, extra[l])] + ([Field(k, extra[k])] + rest);
    OrderCons(extra, k, [Field(l, extra[l])] + rest);
    OrderCons(extra, l, [Field(k, extra[k])] + rest);
    assert a[0].key != b[0].key;
  }

  // ----- the encodings of a value -----

  lemma Assemble(slots: seq<Slot>, extra: map<Bytes, Json>, declared: seq<Field>, others: seq<Field>)
    requires SlotsWritten(slots, declared) && IsOrder(extra, others)
    ensures WrittenAs(Record(slots, extra), Obj(declared + others))
  {
    hide SlotsWritten, IsOrder;
    SlotsCount(slots, declared);
    var fields := declared + others;
    assert fields[..|slots|] == declared && fields[|slots|..] == others;
  }

  lemma SlotsCount(slots: seq<Slot>, declared: seq<Field>)
    requires SlotsWritten(slots, declared)
    ensures |declared| == |slots|
  {
  }

  lemma {:induction false} EncodingExists(t: Tree) returns (j: Json)
    ensures WrittenAs(t, j)
    decreases t, 1
  {
    match t
    case Fixed(value) => return value;
    case Record(slots, extra) =>
      var declared := SlotsExist(slots);
      var others := OrderExists(extra);
      Assemble(slots, extra, declared, others);
      return Obj(declared + others);
  }

  lemma SlotsSnoc(slots: seq<Slot>, fields: seq<Field>, last: Json)
    requires slots != [] && SlotsWritten(slots[..|slots| - 1], fields) && WrittenAs(slots[|slots| - 1].value, last)
    ensures SlotsWritten(slots, fields + [Field(slots[|slots| - 1].key, last)])
  {
    hide WrittenAs;
    var front := slots[..|slots| - 1];
    assert forall i :: 0 <= i < |front| ==> front[i] == slots[i];
  }

  lemma {:induction false} SlotsExist(slots: seq<Slot>) returns (fields: seq<Field>)
    ensures SlotsWritten(slots, fields)
    decreases slots, 0
  {
    if slots == [] {
      return [];
    }
    var n := |slots| - 1;
    var front := SlotsExist(slots[..n]);
    var last := EncodingExists(slots[n].value);
    SlotsSnoc(slots, front, last);
    return front + [Field(slots[n].key, last)];
  }

  lemma {:induction false} SingleIsUnique(t: Tree, j: Json, k: Json)
    requires SingleKeys(t) && WrittenAs(t, j) && WrittenAs(t, k)
    ensures j == k
    decreases t
  {
    match t
    case Fixed(_) =>
    case Record(slots, extra) =>
      var n := |slots|;
      forall i | 0 <= i < n ensures j.fields[i] == k.fields[i] {
        assert j.fields[..n][i] == j.fields[i] && k.fields[..n][i] == k.fields[i];
        SingleIsUnique(slots[i].value, j.fields[i].value, k.fields[i].value);
      }
      OneOrder(extra, j.fields[n..], k.fields[n..]);
      assert j.fields == j.fields[..n] + j.fields[n..] && k.fields == k.fields[..n] + k.fields[n..];
      assert j.fields[..n] == k.fields[..n];
  }

  lemma SlotsReplaced(slots: seq<Slot>, fields: seq<Field>, i: nat, value: Json)
    requires i < |slots| && SlotsWritten(slots, fields) && WrittenAs(slots[i].value, value)
    ensures SlotsWritten(slots, fields[i := Field(slots[i].key, value)])
  {
    hide WrittenAs;
  }

  lemma {:induction false} SeveralAreTwo(t: Tree) returns (j: Json, k: Json)
    requires !SingleKeys(t)
    ensures WrittenAs(t, j) && WrittenAs(t, k) && j != k
    decreases t
  {
    var slots, extra := t.slots, t.extra;
    var declared := SlotsExist(slots);
    if |extra| >= 2 {
      var a, b := TwoOrders(extra);
      Assemble(slots, extra, declared, a);
      Assemble(slots, extra, declared, b);
      j, k := Obj(declared + a), Obj(declared + b);
      assert (declared + a)[|declared|..] == a && (declared + b)[|declared|..] == b;
    } else {
      var i :| 0 <= i < |slots| && !SingleKeys(slots[i].value);
      var x, y := SeveralAreTwo(slots[i].value);
      var others := OrderExists(extra);
      SlotsReplaced(slots, declared, i, x);
      SlotsReplaced(slots, declared, i, y);
      SlotsCount(slots, declared);
      hide WrittenAs, SlotsWritten, SingleKeys;
      var p, q := declared[i := Field(slots[i].key, x)], declared[i := Field(slots[i].key, y)];
      Assemble(slots, extra, p, others);
      Assemble(slots, extra, q, others);
      j, k := Obj(p + others), Obj(q + others);
      assert (p + others)[i].value == x && (q + others)[i].value == y;
    }
  }

  lemma {:induction false} WrittenIsWritable(t: Tree, j: Json)
    requires WritableTree(t) && WrittenAs(t, j)
    ensures Writable(j)
    decreases t
  {
    match t
    case Fixed(_) =>
    case Record(slots, extra) =>
      var n := |slots|;
      forall i | 0 <= i < |j.fields| ensures Writable(j.fields[i].value) {
        if i < n {
          assert j.fields[..n][i] == j.fields[i];
          WrittenIsWritable(slots[i].value, j.fields[i].value);
        } else {
          OrderHasEntry(extra, j.fields[n..], i - n);
          assert j.fields[n..][i - n] == j.fields[i];
        }
      }
  }

  // ----- all encodings are one value -----

  lemma WrittenKeysAreDistinct(slots: seq<Slot>, extra: map<Bytes, Json>, declared: seq<Field>, others: seq<Field>)
    requires DistinctTree(Record(slots, extra)) && SlotsWritten(slots, declared) && IsOrder(extra, others)
    ensures DistinctKeys(declared + others)
  {
    var all := declared + others;
    hide WrittenAs;
    forall i, j | 0 <= i < j < |all| ensures all[i].key != all[j].key {
      if i < |declared| <= j {
        OrderHasEntry(extra, others, j - |declared|);
      }
    }
  }

  lemma {:induction false} WrittenIsOneValue(t: Tree, j: Json, k: Json)
    requires DistinctTree(t) && WrittenAs(t, j) && WrittenAs(t, k)
    ensures Normalize(j) == Normalize(k)
    decreases t, 1
  {
    match t
    case Fixed(_) =>
    case Record(slots, extra) =>
      var n := |slots|;
      var p, q := j.fields[..n], k.fields[..n];
      var r, s := j.fields[n..], k.fields[n..];
      assert j.fields == p + r && k.fields == q + s;
      WrittenKeysAreDistinct(slots, extra, p, r);
      WrittenKeysAreDistinct(slots, extra, q, s);
      var x := ObjectReads(p + r);
      var y := ObjectReads(q + s);
      forall key ensures Get(x, key) == Get(y, key) {
        GetOfConcat(p, r, key);
        GetOfConcat(q, s, key);
        SlotsAreOneValue(slots, p, q, key);
        assert Get(r, key) == Lookup(extra, key) == Get(s, key);
      }
      SortedIsCanonical(x, y);
  }

  lemma {:induction false} SlotsAreOneValue(slots: seq<Slot>, p: seq<Field>, q: seq<Field>, key: Bytes)
    requires forall i :: 0 <= i < |slots| ==> DistinctTree(slots[i].value)
    requires SlotsWritten(slots, p) && SlotsWritten(slots, q)
    ensures Get(p, key).Some? == Get(q, key).Some?
    ensures NormalizeOption(Get(p, key)) == NormalizeOption(Get(q, key))
    decreases slots, 0
  {
    if slots != [] {
      WrittenIsOneValue(slots[0].value, p[0].value, q[0].value);
      SlotsTail(slots, p);
      SlotsTail(slots, q);
      SlotsAreOneValue(slots[1..], p[1..], q[1..], key);
    }
  }

  lemma SlotsTail(slots: seq<Slot>, fields: seq<Field>)
    requires slots != [] && SlotsWritten(slots, fields)
    ensures SlotsWritten(slots[1..], fields[1..])
  {
    hide WrittenAs;
    assert forall i :: 0 <= i < |slots| - 1 ==> slots[1..][i] == slots[i + 1] && fields[1..][i] == fields[i + 1];
  }

  // ----- the digest -----

  /** The bytes to hash when the initialize response is written so. */
  function BytesWith(api: Api, j: Json): Bytes {
    SurfaceBytes(api.(initialize := j))
  }

  /** With equal lists, the bytes are equal exactly when the responses are written in one field order. */
  lemma OrderDecidesBytes(api: Api, j: Json, k: Json)
    requires EncodesApi(api) && Writable(j) && Writable(k)
    ensures BytesWith(api, j) == BytesWith(api, k) <==> j == k
  {
    SurfaceBytesAreExact(api.(initialize := j), api.(initialize := k));
    hide SurfaceBytes, Encodes, Writable;
  }

  /**
   One snapshot has one digest, however its hash maps are written, if and only if every hash map in
   its initialize response has one key at most.
   */
  lemma DigestIsStableExactly(api: Api, t: Tree)
    requires EncodesApi(api) && WritableTree(t)
    ensures SingleKeys(t) <==>
      forall j, k :: WrittenAs(t, j) && WrittenAs(t, k) ==> BytesWith(api, j) == BytesWith(api, k)
  {
    hide EncodesApi, BytesWith;
    if SingleKeys(t) {
      forall j, k | WrittenAs(t, j) && WrittenAs(t, k) ensures BytesWith(api, j) == BytesWith(api, k) {
        SingleIsUnique(t, j, k);
      }
    } else {
      var j, k := SeveralAreTwo(t);
      WrittenIsWritable(t, j);
      WrittenIsWritable(t, k);
      OrderDecidesBytes(api, j, k);
    }
  }

  /** Two encodings of one snapshot that are one value to a reader, and have different bytes to hash. */
  ghost predicate Unstable(api: Api, t: Tree, j: Json, k: Json) {
    WrittenAs(t, j) && WrittenAs(t, k) && Normalize(j) == Normalize(k) && BytesWith(api, j) != BytesWith(api, k)
  }

  lemma SeveralKeysAreUnstable(api: Api, t: Tree) returns (j: Json, k: Json)
    requires EncodesApi(api) && WritableTree(t) && DistinctTree(t) && !SingleKeys(t)
    ensures Unstable(api, t, j, k)
  {
    hide EncodesApi, BytesWith, WritableTree, DistinctTree, SingleKeys, WrittenAs, Normalize, Writable;
    j, k := SeveralAreTwo(t);
    WrittenIsWritable(t, j);
    WrittenIsWritable(t, k);
    WrittenIsOneValue(t, j, k);
    OrderDecidesBytes(api, j, k);
  }

  /** An initialize response whose server advertises some experimental capabilities. */
  function ExperimentalResponse(version: Bytes, name: Bytes, experimental: map<Bytes, Json>): Tree {
    Record([Slot("protocolVersion", Fixed(Str(version))),
            Slot("capabilities", Record([Slot("experimental", Record([], experimental))], map[])),
            Slot("serverInfo", Fixed(Obj([Field("name", Str(name)), Field("version", Str("0.0.1"))])))],
           map[])
  }

  lemma ResponseIsTree(version: Bytes, name: Bytes, experimental: map<Bytes, Json>)
    requires forall k <- experimental :: Writable(experimental[k])
    ensures var t := ExperimentalResponse(version, name, experimental);
      WritableTree(t) && DistinctTree(t) && (SingleKeys(t) <==> |experimental| <= 1)
  {
    var t := ExperimentalResponse(version, name, experimental);
    var inner := t.slots[1].value;
    var maps := inner.slots[0].value;
    assert WritableTree(maps) && DistinctTree(maps) && (SingleKeys(maps) <==> |experimental| <= 1);
    assert WritableTree(inner) && DistinctTree(inner) && (SingleKeys(inner) <==> SingleKeys(maps));
    ServerInfoIsWritable(name);
    assert |t.slots[0].key| != |t.slots[1].key| && |t.slots[0].key| != |t.slots[2].key| && |t.slots[1].key| != |t.slots[2].key|;
    assert WritableTree(t.slots[0].value) && WritableTree(t.slots[2].value);
    assert SingleKeys(t) ==> SingleKeys(t.slots[1].value);
    hide Writable;
  }

  lemma ServerInfoIsWritable(name: Bytes)
    ensures Writable(Obj([Field("name", Str(name)), Field("version", Str("0.0.1"))]))
  {
    var fields := [Field("name", Str(name)), Field("version", Str("0.0.1"))];
    forall i | 0 <= i < |fields| ensures Writable(fields[i].value) {
    }
  }

  /** Two experimental capabilities are enough, whatever else the server advertises. */
  lemma TwoExperimentsAreUnstable(api: Api, version: Bytes, name: Bytes, k: Bytes, l: Bytes, v: Json, w: Json)
    requires EncodesApi(api) && k != l && Writable(v) && Writable(w)
    ensures exists i, j :: Unstable(api, ExperimentalResponse(version, name, map[k := v, l := w]), i, j)
  {
    var experimental := map[k := v, l := w];
    assert experimental.Keys == {k, l} && |{k, l}| == 2;
    ResponseIsTree(version, name, experimental);
    hide Unstable, ExperimentalResponse, EncodesApi;
    var i, j := SeveralKeysAreUnstable(api, ExperimentalResponse(version, name, experimental));
  }
}
