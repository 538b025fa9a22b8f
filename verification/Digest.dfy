/**
 The digest of an advertised surface: four stable sorts, one encoding, a hash, and hex digits.

 An entry is its sort key and the value that it encodes to, and the initialize response is the value
 that it encodes to this time: module HashOrder says how often that is one value. The hash is a
 parameter.
 */
module Digest {
  import opened Bytes
  import opened Json
  import opened JsonReader
  import opened JsonLaws

  datatype Entry = Entry(key: Bytes, body: Json)

  datatype Api = Api(
    initialize: Json, tools: seq<Entry>, resources: seq<Entry>, resourceTemplates: seq<Entry>, prompts: seq<Entry>)

  // ----- stable sorting -----

  predicate Ordered(es: seq<Entry>) {
    forall i, j :: 0 <= i < j < |es| ==> !Below(es[j].key, es[i].key)
  }

  /** The entries that have one key, in their order. */
  function WithKey(es: seq<Entry>, key: Bytes): seq<Entry> {
    if es == [] then []
    else WithKey(es[..|es| - 1], key) + if es[|es| - 1].key == key then [es[|es| - 1]] else []
  }

  /** Two lists agree on the order of the entries of each key. */
  ghost predicate SameGroups(a: seq<Entry>, b: seq<Entry>) {
    forall key :: WithKey(a, key) == WithKey(b, key)
  }

  lemma {:induction false} WithKeyAppends(a: seq<Entry>, b: seq<Entry>, key: Bytes)
    ensures WithKey(a + b, key) == WithKey(a, key) + WithKey(b, key)
  {
    if b == [] {
      assert a + b == a;
    } else {
      assert (a + b)[..|a + b| - 1] == a + b[..|b| - 1];
      WithKeyAppends(a, b[..|b| - 1], key);
    }
  }

  lemma {:induction false} WithKeyHolds(es: seq<Entry>, key: Bytes)
    ensures forall e :: e in WithKey(es, key) <==> e in es && e.key == key
  {
    if es != [] {
      var front, last := es[..|es| - 1], es[|es| - 1];
      WithKeyHolds(front, key);
      assert es == front + [last];
    }
  }

  lemma {:induction false} EmptyGroup(es: seq<Entry>, key: Bytes)
    requires forall e :: e in es ==> e.key != key
    ensures WithKey(es, key) == []
  {
    if es != [] {
      assert es[|es| - 1] in es;
      EmptyGroup(es[..|es| - 1], key);
    }
  }

  lemma GroupOfFront(es: seq<Entry>, key: Bytes)
    requires es != []
    ensures var front, last := es[..|es| - 1], es[|es| - 1];
      WithKey(es, key) == if last.key == key then WithKey(front, key) + [last] else WithKey(front, key)
  {
    assert forall group: seq<Entry> :: group + [] == group;
  }

  lemma WithKeyOfOne(e: Entry, key: Bytes)
    ensures WithKey([e], key) == if e.key == key then [e] else []
  {
    assert [e][..0] == [];
  }

  /** The place of an entry that comes last: after every entry whose key is not above it. */
  function Place(es: seq<Entry>, key: Bytes): (n: nat)
    ensures n <= |es|
    ensures n < |es| ==> Below(key, es[n].key)
    ensures n > 0 ==> !Below(key, es[n - 1].key)
  {
    if es == [] then 0
    else if !Below(key, es[|es| - 1].key) then |es|
    else Place(es[..|es| - 1], key)
  }

  lemma {:induction false} PlaceSkipsLarger(es: seq<Entry>, key: Bytes)
    ensures forall i :: Place(es, key) <= i < |es| ==> Below(key, es[i].key)
  {
    if es != [] && Below(key, es[|es| - 1].key) {
      PlaceSkipsLarger(es[..|es| - 1], key);
    }
  }

  /** One step of an insertion sort keeps the order, and puts the entry last in its group. */
  lemma InsertionIsStable(es: seq<Entry>, e: Entry)
    requires Ordered(es)
    ensures var n := Place(es, e.key); Ordered(es[..n] + [e] + es[n..]) && SameGroups(es[..n] + [e] + es[n..], es + [e])
  {
    var n := Place(es, e.key);
    PlaceSkipsLarger(es, e.key);
    forall i | 0 <= i < n ensures !Below(e.key, es[i].key) {
      NotBelowIsTransitive(es, i, n, e.key);
    }
    forall i | n <= i < |es| ensures !Below(es[i].key, e.key) {
      BelowIsTrichotomous(e.key, es[i].key);
    }
    BelowIsTrichotomous(e.key, e.key);
    forall key ensures WithKey(es[..n] + [e] + es[n..], key) == WithKey(es + [e], key) {
      InsertionKeepsGroup(es, n, e, key);
    }
  }

  lemma NotBelowIsTransitive(es: seq<Entry>, i: nat, n: nat, key: Bytes)
    requires Ordered(es) && i < n <= |es| && !Below(key, es[n - 1].key)
    ensures !Below(key, es[i].key)
  {
    if Below(key, es[i].key) && i < n - 1 {
      BelowIsTrichotomous(es[i].key, es[n - 1].key);
      if es[i].key != es[n - 1].key {
        BelowIsTransitive(key, es[i].key, es[n - 1].key);
      }
    }
  }

  lemma InsertionKeepsGroup(es: seq<Entry>, n: nat, e: Entry, key: Bytes)
    requires n <= |es| && forall i :: n <= i < |es| ==> Below(e.key, es[i].key)
    ensures WithKey(es[..n] + [e] + es[n..], key) == WithKey(es + [e], key)
  {
    var low, high := es[..n], es[n..];
    WithKeyAppends(low + [e], high, key);
    WithKeyAppends(low, [e], key);
    WithKeyAppends(es, [e], key);
    WithKeyAppends(low, high, key);
    assert low + high == es;
    WithKeyOfOne(e, key);
    if e.key == key {
      forall x | x in high ensures x.key != key {
        BelowIsTrichotomous(e.key, x.key);
      }
      EmptyGroup(high, key);
    }
    hide WithKey, Below;
    SwapWithEmpty(WithKey(low, key), WithKey([e], key), WithKey(high, key));
  }

  lemma SwapWithEmpty<T>(a: seq<T>, b: seq<T>, c: seq<T>)
    requires b == [] || c == []
    ensures a + b + c == a + c + b
  {
  }

  /** The stable sort by key. */
  function StableSort(items: seq<Entry>): seq<Entry> {
    if items == [] then []
    else
      var sorted, last := StableSort(items[..|items| - 1]), items[|items| - 1];
      sorted[..Place(sorted, last.key)] + [last] + sorted[Place(sorted, last.key)..]
  }

  /** Sorting orders the keys, and keeps the entries of each key in their old order. */
  lemma {:induction false} SortIsStable(items: seq<Entry>)
    ensures Ordered(StableSort(items)) && SameGroups(StableSort(items), items)
  {
    if items != [] {
      var front, last := items[..|items| - 1], items[|items| - 1];
      SortIsStable(front);
      InsertionIsStable(StableSort(front), last);
      GroupsExtend(StableSort(front), front, last);
      assert items == front + [last];
      hide Ordered, WithKey;
    }
  }

  /** The sort of the standard library, as an insertion sort: stable, and by key. */
  method SortByKey(items: seq<Entry>) returns (sorted: seq<Entry>)
    ensures sorted == StableSort(items)
  {
    sorted := [];
    var i := 0;
    assert items[..0] == [];
    while i < |items|
      invariant i <= |items| && sorted == StableSort(items[..i])
    {
      assert items[..i + 1][..i] == items[..i];
      var n := Place(sorted, items[i].key);
      sorted := sorted[..n] + [items[i]] + sorted[n..];
      i := i + 1;
    }
    assert items[..i] == items;
  }

  lemma GroupsExtend(a: seq<Entry>, b: seq<Entry>, e: Entry)
    requires SameGroups(a, b)
    ensures SameGroups(a + [e], b + [e])
  {
    forall key ensures WithKey(a + [e], key) == WithKey(b + [e], key) {
      WithKeyAppends(a, [e], key);
      WithKeyAppends(b, [e], key);
    }
  }

  // ----- one sorted list for each grouping -----

  lemma {:induction false} OrderedFront(es: seq<Entry>)
    requires Ordered(es) && es != []
    ensures Ordered(es[..|es| - 1])
  {
  }

  lemma LastIsLargest(a: seq<Entry>, b: seq<Entry>)
    requires Ordered(a) && Ordered(b) && SameGroups(a, b) && a != [] && b != []
    ensures !Below(b[|b| - 1].key, a[|a| - 1].key)
  {
    var last := a[|a| - 1];
    WithKeyHolds(a, last.key);
    WithKeyHolds(b, last.key);
    assert last in WithKey(a, last.key) && last in WithKey(b, last.key);
    var i :| 0 <= i < |b| && b[i] == last;
    BelowIsTrichotomous(last.key, last.key);
  }

  lemma SameEmptiness(a: seq<Entry>, b: seq<Entry>)
    requires SameGroups(a, b) && a == []
    ensures b == []
  {
    if b != [] {
      GroupOfFront(b, b[|b| - 1].key);
    }
  }

  /** Two ordered lists that agree on every group are one list. */
  lemma {:induction false} SortedIsUnique(a: seq<Entry>, b: seq<Entry>)
    requires Ordered(a) && Ordered(b) && SameGroups(a, b)
    ensures a == b
    decreases |a|
  {
    if a == [] {
      SameEmptiness(a, b);
    } else if b == [] {
      SameEmptiness(b, a);
    } else {
      LastIsLargest(a, b);
      LastIsLargest(b, a);
      var x, y := a[|a| - 1], b[|b| - 1];
      BelowIsTrichotomous(x.key, y.key);
      var p, q := a[..|a| - 1], b[..|b| - 1];
      GroupOfFront(a, x.key);
      GroupOfFront(b, x.key);
      OrderedFront(a);
      OrderedFront(b);
      hide WithKey, Below, Ordered;
      LastOf(WithKey(p, x.key), x, WithKey(q, x.key), y);
      forall key ensures WithKey(p, key) == WithKey(q, key) {
        assert WithKey(a, key) == WithKey(b, key);
        GroupOfFront(a, key);
        GroupOfFront(b, key);
      }
      SortedIsUnique(p, q);
      assert a == p + [x] && b == q + [y];
    }
  }

  lemma LastOf<T>(a: seq<T>, x: T, b: seq<T>, y: T)
    requires a + [x] == b + [y]
    ensures a == b && x == y
  {
    assert |a + [x]| == |b + [y]|;
    assert (a + [x])[..|a|] == a && (b + [y])[..|b|] == b;
    assert (a + [x])[|a|] == x && (b + [y])[|b|] == y;
  }

  predicate DistinctSortKeys(es: seq<Entry>) {
    forall i, j :: 0 <= i < j < |es| ==> es[i].key != es[j].key
  }

  lemma {:induction false} DistinctGroup(es: seq<Entry>, key: Bytes)
    requires DistinctSortKeys(es)
    ensures |WithKey(es, key)| <= 1
  {
    if es != [] {
      var front := es[..|es| - 1];
      DistinctGroup(front, key);
      if es[|es| - 1].key == key {
        EmptyGroup(front, key);
      }
    }
  }

  /** With distinct keys, any permutation has the same groups. */
  lemma PermutationKeepsGroups(a: seq<Entry>, b: seq<Entry>)
    requires multiset(a) == multiset(b) && DistinctSortKeys(a) && DistinctSortKeys(b)
    ensures SameGroups(a, b)
  {
    forall key ensures WithKey(a, key) == WithKey(b, key) {
      WithKeyHolds(a, key);
      WithKeyHolds(b, key);
      DistinctGroup(a, key);
      DistinctGroup(b, key);
      assert forall e :: e in a <==> e in multiset(a);
      assert forall e :: e in b <==> e in multiset(b);
      if WithKey(a, key) != [] {
        assert WithKey(a, key)[0] in WithKey(b, key);
      }
      if WithKey(b, key) != [] {
        assert WithKey(b, key)[0] in WithKey(a, key);
      }
    }
  }

  // ----- the encoded surface -----

  function Bodies(es: seq<Entry>): (bodies: seq<Json>)
    ensures |bodies| == |es| && forall i :: 0 <= i < |es| ==> bodies[i] == es[i].body
  {
    if es == [] then [] else [es[0].body] + Bodies(es[1..])
  }

  /** The surface as it is encoded: the fields of the struct in their order. */
  function Surface(api: Api): Json {
    Obj([Field("initialize", api.initialize),
         Field("tools", Arr(Bodies(api.tools))),
         Field("resources", Arr(Bodies(api.resources))),
         Field("resourceTemplates", Arr(Bodies(api.resourceTemplates))),
         Field("prompts", Arr(Bodies(api.prompts)))])
  }

  /** Entries of one type: each encodes to an object that has the sort key in one of its fields. */
  predicate Encodes(es: seq<Entry>, keyField: Bytes) {
    forall i :: 0 <= i < |es| ==>
      Writable(es[i].body) && es[i].body.Obj? && Get(es[i].body.fields, keyField) == Some(Str(es[i].key))
  }

  predicate EncodesApi(api: Api) {
    && Writable(api.initialize) && Encodes(api.tools, "name") && Encodes(api.resources, "uri")
    && Encodes(api.resourceTemplates, "uriTemplate") && Encodes(api.prompts, "name")
  }

  /** The lists are sorted and hold the entries of `api`, stably. */
  ghost predicate IsCanonical(canonical: Api, api: Api) {
    && canonical.initialize == api.initialize
    && Ordered(canonical.tools) && SameGroups(canonical.tools, api.tools)
    && Ordered(canonical.resources) && SameGroups(canonical.resources, api.resources)
    && Ordered(canonical.resourceTemplates) && SameGroups(canonical.resourceTemplates, api.resourceTemplates)
    && Ordered(canonical.prompts) && SameGroups(canonical.prompts, api.prompts)
  }

  /** Each list sorted by its key. */
  function Canonical(api: Api): Api {
    Api(api.initialize, StableSort(api.tools), StableSort(api.resources), StableSort(api.resourceTemplates), StableSort(api.prompts))
  }

  lemma CanonicalIsSorted(api: Api)
    ensures IsCanonical(Canonical(api), api)
  {
    SortIsStable(api.tools);
    SortIsStable(api.resources);
    SortIsStable(api.resourceTemplates);
    SortIsStable(api.prompts);
    hide Ordered, SameGroups, StableSort;
  }

  /** Two surfaces differ at most in the order of entries that have different keys. */
  ghost predicate SameSurface(a: Api, b: Api) {
    && a.initialize == b.initialize && SameGroups(a.tools, b.tools) && SameGroups(a.resources, b.resources)
    && SameGroups(a.resourceTemplates, b.resourceTemplates) && SameGroups(a.prompts, b.prompts)
  }

  lemma ListsAgree(a: seq<Entry>, b: seq<Entry>, keyField: Bytes)
    requires Encodes(a, keyField) && Encodes(b, keyField) && Bodies(a) == Bodies(b)
    ensures a == b
  {
    assert |Bodies(a)| == |a| && |Bodies(b)| == |b|;
    forall i | 0 <= i < |a| ensures a[i] == b[i] {
      assert Bodies(a)[i] == a[i].body && Bodies(b)[i] == b[i].body;
    }
  }

  lemma BodiesAreWritable(es: seq<Entry>, keyField: Bytes)
    requires Encodes(es, keyField)
    ensures Writable(Arr(Bodies(es)))
  {
  }

  lemma SurfaceIsWritable(api: Api)
    requires EncodesApi(api)
    ensures Writable(Surface(api))
  {
    BodiesAreWritable(api.tools, "name");
    BodiesAreWritable(api.resources, "uri");
    BodiesAreWritable(api.resourceTemplates, "uriTemplate");
    BodiesAreWritable(api.prompts, "name");
    hide Encodes, Bodies;
    var fields := Surface(api).fields;
    forall i | 0 <= i < |fields| ensures Writable(fields[i].value) {
    }
  }

  /** Two surfaces with one encoding are one surface. */
  lemma EncodingIsExact(a: Api, b: Api)
    requires EncodesApi(a) && EncodesApi(b)
    requires Print(Surface(a)) == Print(Surface(b))
    ensures a == b
  {
    SurfaceIsWritable(a);
    SurfaceIsWritable(b);
    PrintIsInjective(Surface(a), Surface(b));
    hide Encodes, Bodies, Print, Writable;
    var f, g := Surface(a).fields, Surface(b).fields;
    assert f[0] == g[0] && f[1] == g[1] && f[2] == g[2] && f[3] == g[3] && f[4] == g[4];
    ListsAgree(a.tools, b.tools, "name");
    ListsAgree(a.resources, b.resources, "uri");
    ListsAgree(a.resourceTemplates, b.resourceTemplates, "uriTemplate");
    ListsAgree(a.prompts, b.prompts, "name");
  }

  // ----- hex digits -----

  predicate IsByte(c: Byte) { c as int < 256 }

  predicate AllBytes(s: Bytes) { forall i :: 0 <= i < |s| ==> IsByte(s[i]) }

  function Hex(s: Bytes): (hex: Bytes)
    requires AllBytes(s)
    ensures |hex| == 2 * |s|
  {
    if s == [] then []
    else
      var last := s[|s| - 1] as int;
      Hex(s[..|s| - 1]) + [Digit(last / 16), Digit(last % 16)]
  }

  method HexEncode(bytes: Bytes) returns (hex: Bytes)
    requires AllBytes(bytes)
    ensures hex == Hex(bytes) && |hex| == 2 * |bytes|
  {
    hex := [];
    var i := 0;
    while i < |bytes|
      invariant i <= |bytes| && hex == Hex(bytes[..i])
    {
      assert bytes[..i + 1][..i] == bytes[..i];
      hex := hex + [Digit(bytes[i] as int / 16)];
      hex := hex + [Digit(bytes[i] as int % 16)];
      i := i + 1;
    }
    assert bytes[..i] == bytes;
  }

  /** Two lower-case digits for each byte: read in base 16, the first before the second, they are the byte. */
  lemma {:induction false} HexDenotesBytes(s: Bytes)
    requires AllBytes(s)
    ensures forall i :: 0 <= i < |Hex(s)| ==> '0' <= Hex(s)[i] <= '9' || 'a' <= Hex(s)[i] <= 'f'
    ensures forall i :: 0 <= i < |s| ==>
      HexValue(Hex(s)[2 * i]).value * 16 + HexValue(Hex(s)[2 * i + 1]).value == s[i] as int
  {
    if s != [] {
      var front := s[..|s| - 1];
      HexDenotesBytes(front);
      DigitDenotes(s[|s| - 1] as int / 16);
      DigitDenotes(s[|s| - 1] as int % 16);
      hide HexValue, Digit;
      assert Hex(s)[..2 * |front|] == Hex(front);
      forall i | 0 <= i < |s| ensures HexValue(Hex(s)[2 * i]).value * 16 + HexValue(Hex(s)[2 * i + 1]).value == s[i] as int {
        if i < |front| {
          assert Hex(s)[2 * i] == Hex(front)[2 * i] && Hex(s)[2 * i + 1] == Hex(front)[2 * i + 1];
          assert front[i] == s[i];
        }
      }
    }
  }

  lemma DigitDenotes(d: int)
    requires 0 <= d < 16
    ensures HexValue(Digit(d)) == Some(d) && ('0' <= Digit(d) <= '9' || 'a' <= Digit(d) <= 'f')
  {
  }

  lemma HexIsInjective(a: Bytes, b: Bytes)
    requires AllBytes(a) && AllBytes(b) && Hex(a) == Hex(b)
    ensures a == b
  {
    HexDenotesBytes(a);
    HexDenotesBytes(b);
    assert |a| == |b|;
    forall i | 0 <= i < |a| ensures a[i] == b[i] {
      assert a[i] as int == b[i] as int;
    }
  }

  // ----- the digest -----

  /** The bytes that the digest hashes. */
  function SurfaceBytes(api: Api): Bytes {
    Print(Surface(Canonical(api)))
  }

  method SurfaceDigest(api: Api, sha: Bytes -> Bytes) returns (digest: Bytes)
    requires AllBytes(sha(SurfaceBytes(api)))
    ensures digest == Hex(sha(SurfaceBytes(api)))
  {
    var tools := SortByKey(api.tools);
    var resources := SortByKey(api.resources);
    var resourceTemplates := SortByKey(api.resourceTemplates);
    var prompts := SortByKey(api.prompts);
    var surface := Api(api.initialize, tools, resources, resourceTemplates, prompts);
    var bytes := Print(Surface(surface));
    digest := HexEncode(sha(bytes));
  }

  // ----- the bytes that are hashed -----

  /** The text of a list: its values in order, with commas between them. */
  function ListText(es: seq<Entry>): Bytes {
    "[" + Join(seq(|es|, i requires 0 <= i < |es| => Print(es[i].body)), ",") + "]"
  }

  lemma {:induction false} ItemsAreJoined(es: seq<Entry>)
    ensures PrintItems(Bodies(es)) == Join(seq(|es|, i requires 0 <= i < |es| => Print(es[i].body)), ",")
  {
    if es != [] {
      ItemsAreJoined(es[1..]);
      hide Print;
      var texts := seq(|es|, i requires 0 <= i < |es| => Print(es[i].body));
      assert texts[1..] == seq(|es[1..]|, i requires 0 <= i < |es[1..]| => Print(es[1..][i].body));
    }
  }

  lemma {:induction false} PlainKey(key: Bytes)
    requires IsPlain(key)
    ensures EscapeAll(key) == key && PrintStr(key) == "\"" + key + "\""
  {
    if key != [] {
      PlainKey(key[1..]);
    }
  }

  /** A field as text: its key in quotes, a colon, and its value. */
  function Keyed(key: Bytes, value: Bytes): Bytes { "\"" + key + "\":" + value }

  predicate IsPlain(key: Bytes) { forall i :: 0 <= i < |key| ==> 'A' <= key[i] <= 'z' && key[i] != '\\' }

  lemma FieldIsText(key: Bytes, value: Json)
    requires IsPlain(key)
    ensures PrintField(Field(key, value)) == Keyed(key, Print(value))
  {
    PlainKey(key);
    hide PrintStr, EscapeAll, Print;
    assert "\"" + key + "\"" + ":" == "\"" + key + "\":";
  }

  lemma ListIsText(es: seq<Entry>)
    ensures Print(Arr(Bodies(es))) == ListText(es)
  {
    ItemsAreJoined(es);
    hide PrintItems, Bodies;
  }

  lemma {:induction false} FieldsAreJoined(f: seq<Field>)
    ensures PrintFields(f) == Join(seq(|f|, i requires 0 <= i < |f| => PrintField(f[i])), ",")
  {
    if f != [] {
      FieldsAreJoined(f[1..]);
      hide PrintField;
      var texts := seq(|f|, i requires 0 <= i < |f| => PrintField(f[i]));
      assert texts[1..] == seq(|f[1..]|, i requires 0 <= i < |f[1..]| => PrintField(f[1..][i]));
    }
  }

  lemma KeysArePlain()
    ensures IsPlain("initialize") && IsPlain("tools") && IsPlain("resources") && IsPlain("resourceTemplates") && IsPlain("prompts")
  {
  }

  lemma FieldListIsText(key: Bytes, es: seq<Entry>)
    requires IsPlain(key)
    ensures PrintField(Field(key, Arr(Bodies(es)))) == Keyed(key, ListText(es))
  {
    FieldIsText(key, Arr(Bodies(es)));
    ListIsText(es);
    hide PrintField, Keyed, Print, ListText, Bodies;
  }

  lemma FiveAreJoined(f: seq<Field>)
    requires |f| == 5
    ensures Print(Obj(f)) == "{" + Join([PrintField(f[0]), PrintField(f[1]), PrintField(f[2]), PrintField(f[3]), PrintField(f[4])], ",") + "}"
  {
    FieldsAreJoined(f);
    hide PrintField, Join, PrintFields;
    assert seq(|f|, i requires 0 <= i < |f| => PrintField(f[i]))
      == [PrintField(f[0]), PrintField(f[1]), PrintField(f[2]), PrintField(f[3]), PrintField(f[4])];
  }

  /** The bytes to hash, written out: the five fields in camel case, and each list sorted. */
  lemma SurfaceBytesAreText(api: Api)
    ensures SurfaceBytes(api) == "{" + Join([
        Keyed("initialize", Print(api.initialize)),
        Keyed("tools", ListText(StableSort(api.tools))),
        Keyed("resources", ListText(StableSort(api.resources))),
        Keyed("resourceTemplates", ListText(StableSort(api.resourceTemplates))),
        Keyed("prompts", ListText(StableSort(api.prompts)))], ",") + "}"
  {
    KeysArePlain();
    hide IsPlain, PrintField, Keyed, ListText, StableSort, Bodies, Join, Print;
    FiveAreJoined(Surface(Canonical(api)).fields);
    FieldIsText("initialize", api.initialize);
    FieldListIsText("tools", StableSort(api.tools));
    FieldListIsText("resources", StableSort(api.resources));
    FieldListIsText("resourceTemplates", StableSort(api.resourceTemplates));
    FieldListIsText("prompts", StableSort(api.prompts));
  }

  lemma CanonicalIsUnique(p: Api, a: Api, q: Api, b: Api)
    requires IsCanonical(p, a) && IsCanonical(q, b)
    ensures p == q <==> SameSurface(a, b)
  {
    hide Ordered, WithKey;
    if SameSurface(a, b) {
      SortedIsUnique(p.tools, q.tools);
      SortedIsUnique(p.resources, q.resources);
      SortedIsUnique(p.resourceTemplates, q.resourceTemplates);
      SortedIsUnique(p.prompts, q.prompts);
    }
  }

  lemma SortedHolds(sorted: seq<Entry>, items: seq<Entry>)
    requires SameGroups(sorted, items)
    ensures forall e :: e in sorted <==> e in items
  {
    forall e ensures e in sorted <==> e in items {
      WithKeyHolds(sorted, e.key);
      WithKeyHolds(items, e.key);
      assert WithKey(sorted, e.key) == WithKey(items, e.key);
    }
  }

  lemma SortedEncodes(sorted: seq<Entry>, items: seq<Entry>, keyField: Bytes)
    requires SameGroups(sorted, items) && Encodes(items, keyField)
    ensures Encodes(sorted, keyField)
  {
    SortedHolds(sorted, items);
    forall i | 0 <= i < |sorted|
      ensures Writable(sorted[i].body) && sorted[i].body.Obj? && Get(sorted[i].body.fields, keyField) == Some(Str(sorted[i].key))
    {
      assert sorted[i] in items;
    }
  }

  lemma CanonicalEncodes(canonical: Api, api: Api)
    requires IsCanonical(canonical, api) && EncodesApi(api)
    ensures EncodesApi(canonical)
  {
    hide Ordered, Encodes, Writable;
    SortedEncodes(canonical.tools, api.tools, "name");
    SortedEncodes(canonical.resources, api.resources, "uri");
    SortedEncodes(canonical.resourceTemplates, api.resourceTemplates, "uriTemplate");
    SortedEncodes(canonical.prompts, api.prompts, "name");
  }

  /** The bytes to hash are equal exactly when the encoded surfaces differ at most in the order of entries with different keys. */
  lemma SurfaceBytesAreExact(a: Api, b: Api)
    requires EncodesApi(a) && EncodesApi(b)
    ensures SurfaceBytes(a) == SurfaceBytes(b) <==> SameSurface(a, b)
  {
    hide EncodesApi, IsCanonical, SameSurface, Print, Surface, Canonical;
    CanonicalIsSorted(a);
    CanonicalIsSorted(b);
    var p, q := Canonical(a), Canonical(b);
    CanonicalIsUnique(p, a, q, b);
    CanonicalEncodes(p, a);
    CanonicalEncodes(q, b);
    if Print(Surface(p)) == Print(Surface(q)) {
      EncodingIsExact(p, q);
    }
  }

  /** While the hash does not collide on the two encodings, equal digests mean equal encoded surfaces, and only they do. */
  lemma DigestIsExact(a: Api, b: Api, sha: Bytes -> Bytes)
    requires EncodesApi(a) && EncodesApi(b)
    requires AllBytes(sha(SurfaceBytes(a))) && AllBytes(sha(SurfaceBytes(b)))
    requires sha(SurfaceBytes(a)) == sha(SurfaceBytes(b)) ==> SurfaceBytes(a) == SurfaceBytes(b)
    ensures Hex(sha(SurfaceBytes(a))) == Hex(sha(SurfaceBytes(b))) <==> SameSurface(a, b)
  {
    hide EncodesApi, SameSurface, SurfaceBytes, Hex;
    SurfaceBytesAreExact(a, b);
    if Hex(sha(SurfaceBytes(a))) == Hex(sha(SurfaceBytes(b))) {
      HexIsInjective(sha(SurfaceBytes(a)), sha(SurfaceBytes(b)));
    }
  }

  predicate Permuted(a: seq<Entry>, b: seq<Entry>) {
    multiset(a) == multiset(b) && DistinctSortKeys(a) && DistinctSortKeys(b)
  }

  /** With distinct sort keys, no permutation of the lists changes the digest. */
  lemma PermutationKeepsDigest(a: Api, b: Api)
    requires a.initialize == b.initialize
    requires Permuted(a.tools, b.tools) && Permuted(a.resources, b.resources)
    requires Permuted(a.resourceTemplates, b.resourceTemplates) && Permuted(a.prompts, b.prompts)
    ensures SurfaceBytes(a) == SurfaceBytes(b)
  {
    hide IsCanonical, DistinctSortKeys, SameGroups, Print, Surface, Canonical;
    PermutationKeepsGroups(a.tools, b.tools);
    PermutationKeepsGroups(a.resources, b.resources);
    PermutationKeepsGroups(a.resourceTemplates, b.resourceTemplates);
    PermutationKeepsGroups(a.prompts, b.prompts);
    CanonicalIsSorted(a);
    CanonicalIsSorted(b);
    CanonicalIsUnique(Canonical(a), a, Canonical(b), b);
  }

  /** Two different tools with one name: swapping them changes the bytes to hash, whatever else is advertised. */
  lemma DuplicateNamesDependOnOrder(api: Api, more: seq<Entry>, x: Entry, y: Entry)
    requires EncodesApi(api) && Encodes(more + [x, y], "name")
    requires x.key == y.key && x != y
    ensures SurfaceBytes(api.(tools := more + [x, y])) != SurfaceBytes(api.(tools := more + [y, x]))
  {
    SwapEncodes(more, x, y, "name");
    SwapChangesGroup(more, x, y);
    hide Encodes, SameGroups, SurfaceBytes;
    SurfaceBytesAreExact(api.(tools := more + [x, y]), api.(tools := more + [y, x]));
  }

  lemma SwapEncodes(more: seq<Entry>, x: Entry, y: Entry, keyField: Bytes)
    requires Encodes(more + [x, y], keyField)
    ensures Encodes(more + [y, x], keyField)
  {
    hide Writable, Get;
    var n, before, after := |more|, more + [x, y], more + [y, x];
    assert before[n] == x && before[n + 1] == y;
    forall i | 0 <= i < |after|
      ensures Writable(after[i].body) && after[i].body.Obj? && Get(after[i].body.fields, keyField) == Some(Str(after[i].key))
    {
      assert after[i] == before[if i == n then n + 1 else if i == n + 1 then n else i];
    }
  }

  lemma SwapChangesGroup(more: seq<Entry>, x: Entry, y: Entry)
    requires x.key == y.key && x != y
    ensures !SameGroups(more + [x, y], more + [y, x])
  {
    GroupOfTwo(more, x, y);
    GroupOfTwo(more, y, x);
    var group := WithKey(more, x.key);
    assert (group + [x, y])[|group|] == x && (group + [y, x])[|group|] == y;
    hide WithKey;
    assert WithKey(more + [x, y], x.key) != WithKey(more + [y, x], x.key);
  }

  lemma GroupOfTwo(more: seq<Entry>, x: Entry, y: Entry)
    requires x.key == y.key
    ensures WithKey(more + [x, y], x.key) == WithKey(more, x.key) + [x, y]
  {
    WithKeyAppends(more, [x, y], x.key);
    assert [x, y] == [x] + [y];
    WithKeyAppends([x], [y], x.key);
    WithKeyOfOne(x, x.key);
    WithKeyOfOne(y, x.key);
    hide WithKey;
  }

  /** A tool with the default input schema, a description, and a name. */
  function DescribedTool(name: Bytes, description: Bytes): Entry {
    Entry(name, Obj([Field("inputSchema", Obj([Field("type", Str("object"))])),
                     Field("description", Str(description)), Field("name", Str(name))]))
  }

  lemma DescribedToolsEncode(name: Bytes, p: Bytes, q: Bytes)
    ensures Encodes([] + [DescribedTool(name, p), DescribedTool(name, q)], "name")
  {
    DescribedToolIsWritable(name, p);
    DescribedToolIsWritable(name, q);
    hide DescribedTool, Writable, Get;
  }

  lemma DescribedToolIsWritable(name: Bytes, description: Bytes)
    ensures var tool := DescribedTool(name, description);
      Writable(tool.body) && tool.key == name && tool.body.Obj? && Get(tool.body.fields, "name") == Some(Str(name))
  {
    var fields := DescribedTool(name, description).body.fields;
    assert Writable(Obj([Field("type", Str("object"))]));
    forall i | 0 <= i < |fields| ensures Writable(fields[i].value) {
    }
    assert |fields[0].key| != |fields[2].key| && |fields[1].key| != |fields[2].key|;
    assert fields[1..][1..][0] == fields[2];
    assert Get(fields, "name") == Get(fields[1..], "name") == Get(fields[1..][1..], "name");
  }

  /** Such a pair: two tools with one name that differ in their descriptions. */
  lemma TwoDescriptionsDependOnOrder(api: Api, name: Bytes, p: Bytes, q: Bytes)
    requires EncodesApi(api) && p != q
    ensures SurfaceBytes(api.(tools := [DescribedTool(name, p), DescribedTool(name, q)]))
         != SurfaceBytes(api.(tools := [DescribedTool(name, q), DescribedTool(name, p)]))
  {
    var x, y := DescribedTool(name, p), DescribedTool(name, q);
    assert x.body.fields[1] != y.body.fields[1];
    DescribedToolsEncode(name, p, q);
    hide EncodesApi, Encodes, SurfaceBytes, DescribedTool;
    assert [] + [x, y] == [x, y] && [] + [y, x] == [y, x];
    DuplicateNamesDependOnOrder(api, [], x, y);
  }
}
