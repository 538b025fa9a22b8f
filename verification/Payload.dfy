/** Payload limits: the writer that counts the bytes of an encoding and keeps none. */
module Payload {
  import opened Bytes
  import opened Json

  /** The limit that a custom request has until another is set: 1 MiB. */
  const CUSTOM_PAYLOAD_LIMIT: nat := 1024 * 1024

  datatype Checked = WithinLimit | PayloadTooLarge(methodName: Bytes, size: nat, limit: nat)

  class Counter {
    var size: nat
    /** The bytes that went by. */
    ghost var written: Bytes

    ghost predicate Valid()
      reads this
    {
      size == |written|
    }

    constructor ()
      ensures Valid() && written == []
    {
      size := 0;
      written := [];
    }

    method Write(chunk: Bytes)
      requires Valid()
      modifies this
      ensures Valid() && written == old(written) + chunk
    {
      size := size + |chunk|;
      written := written + chunk;
    }
  }

  predicate PlainRun(s: Bytes, start: nat, end: nat)
    requires end <= |s|
  {
    forall k :: start <= k < end ==> Escape(s[k]) == [s[k]]
  }

  /** Write the plain bytes from `start` to `end`, if there are any, as one chunk. */
  method WriteRun(w: Counter, s: Bytes, start: nat, end: nat)
    requires w.Valid() && start <= end <= |s| && PlainRun(s, start, end)
    modifies w
    ensures w.Valid()
    ensures EscapeAll(s[..end]) == EscapeAll(s[..start]) + s[start..end]
    ensures w.written == old(w.written) + s[start..end]
  {
    EscapePlain(s, start, end);
    if start < end {
      w.Write(s[start..end]);
    }
  }

  lemma {:induction false} EscapePlain(s: Bytes, start: nat, end: nat)
    requires start <= end <= |s| && PlainRun(s, start, end)
    ensures EscapeAll(s[..end]) == EscapeAll(s[..start]) + s[start..end]
    decreases end
  {
    if start < end {
      EscapePlain(s, start, end - 1);
      assert s[..end] == s[..end - 1] + [s[end - 1]];
      EscapeOneMore(s[..end - 1], s[end - 1]);
      assert s[start..end] == s[start..end - 1] + [s[end - 1]];
    }
  }

  /** Write a string: each run of plain bytes is one chunk, and each escape is one chunk. */
  method WriteString(w: Counter, s: Bytes)
    requires w.Valid()
    modifies w
    ensures w.Valid() && w.written == old(w.written) + PrintStr(s)
  {
    hide EscapeAll, Escape;
    w.Write("\"");
    ghost var before := w.written;
    var start := 0;
    EscapeNothing();
    for i := 0 to |s|
      invariant start <= i && w.Valid() && PlainRun(s, start, i)
      invariant w.written == before + EscapeAll(s[..start])
    {
      if Escape(s[i]) != [s[i]] {
        WriteRun(w, s, start, i);
        assert w.written == before + EscapeAll(s[..i]);
        w.Write(Escape(s[i]));
        assert s[..i + 1] == s[..i] + [s[i]];
        EscapeOneMore(s[..i], s[i]);
        start := i + 1;
      }
    }
    WriteRun(w, s, start, |s|);
    assert s[..|s|] == s;
    w.Write("\"");
    assert w.written == before + (EscapeAll(s) + "\"");
  }

  lemma EscapeNothing()
    ensures EscapeAll([]) == []
  {
  }

  lemma {:induction false} EscapeOneMore(s: Bytes, c: Byte)
    ensures EscapeAll(s + [c]) == EscapeAll(s) + Escape(c)
  {
    if s == [] {
      assert s + [c] == [c];
    } else {
      assert (s + [c])[1..] == s[1..] + [c];
      EscapeOneMore(s[1..], c);
    }
  }

  method WriteValue(w: Counter, j: Json)
    requires w.Valid()
    modifies w
    ensures w.Valid() && w.written == old(w.written) + Print(j)
    decreases j, 1
  {
    hide PrintStr, PrintItems, PrintFields;
    match j {
      case Str(s) =>
        WriteString(w, s);
      case Arr(items) =>
        w.Write("[");
        WriteItems(w, items);
        w.Write("]");
      case Obj(fields) =>
        w.Write("{");
        WriteFields(w, fields);
        w.Write("}");
      case _ =>
        w.Write(Print(j));
    }
  }

  method WriteItems(w: Counter, items: seq<Json>)
    requires w.Valid()
    modifies w
    ensures w.Valid() && w.written == old(w.written) + PrintItems(items)
    decreases items, 0
  {
    hide Print;
    for i := 0 to |items|
      invariant w.Valid() && w.written == old(w.written) + PrintItems(items[..i])
    {
      if i > 0 {
        w.Write(",");
      }
      WriteValue(w, items[i]);
      assert items[..i + 1] == items[..i] + [items[i]];
      PrintOneMoreItem(items[..i], items[i]);
    }
    assert items[..|items|] == items;
  }

  lemma {:induction false} PrintOneMoreItem(items: seq<Json>, last: Json)
    ensures PrintItems(items + [last]) == PrintItems(items) + (if items == [] then [] else ",") + Print(last)
  {
    if items != [] {
      assert (items + [last])[1..] == items[1..] + [last];
      PrintOneMoreItem(items[1..], last);
    }
  }

  method WriteFields(w: Counter, fields: seq<Field>)
    requires w.Valid()
    modifies w
    ensures w.Valid() && w.written == old(w.written) + PrintFields(fields)
    decreases fields, 0
  {
    hide PrintField;
    for i := 0 to |fields|
      invariant w.Valid() && w.written == old(w.written) + PrintFields(fields[..i])
    {
      if i > 0 {
        w.Write(",");
      }
      WriteField(w, fields[i]);
      assert fields[..i + 1] == fields[..i] + [fields[i]];
      PrintOneMoreField(fields[..i], fields[i]);
    }
    assert fields[..|fields|] == fields;
  }

  method WriteField(w: Counter, f: Field)
    requires w.Valid()
    modifies w
    ensures w.Valid() && w.written == old(w.written) + PrintField(f)
    decreases f, 0
  {
    hide PrintStr, Print;
    WriteString(w, f.key);
    w.Write(":");
    WriteValue(w, f.value);
  }

  lemma {:induction false} PrintOneMoreField(fields: seq<Field>, last: Field)
    ensures PrintFields(fields + [last]) == PrintFields(fields) + (if fields == [] then [] else ",") + PrintField(last)
  {
    if fields != [] {
      assert (fields + [last])[1..] == fields[1..] + [last];
      PrintOneMoreField(fields[1..], last);
    }
  }

  /** The length of the encoding, without building it. */
  method EncodedLen(value: Json) returns (n: nat)
    ensures n == |Print(value)|
  {
    var counter := new Counter();
    WriteValue(counter, value);
    return counter.size;
  }

  method CheckPayload(methodName: Bytes, payload: Json, limit: nat) returns (r: Checked)
    ensures r.WithinLimit? <==> |Print(payload)| <= limit
    ensures r.PayloadTooLarge? ==> r == PayloadTooLarge(methodName, |Print(payload)|, limit)
    ensures r == Check(methodName, payload, limit)
  {
    var size := EncodedLen(payload);
    if size > limit {
      return PayloadTooLarge(methodName, size, limit);
    }
    return WithinLimit;
  }

  /** The verdict on a payload, by the length of its built encoding. */
  function Check(methodName: Bytes, payload: Json, limit: nat): Checked {
    var size := |Print(payload)|;
    if size > limit then PayloadTooLarge(methodName, size, limit) else WithinLimit
  }
}
