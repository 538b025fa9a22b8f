/**
 JSON-RPC messages, the JSON objects that carry them, and the format that the codec uses.

 Writing follows the field order of each struct: the `_meta` of a result comes last, because it is
 added to the declared fields. Reading follows the order in which the untagged enums try their
 variants.
 */
module Message {
  import opened Bytes
  import opened Json
  import opened JsonGrammar
  import opened JsonReader
  import opened JsonLaws
  import Codec

  /** A request ID or a progress token: a string or a 64-bit number. */
  datatype Ident = Text(text: Bytes) | Number(number: int)

  type RequestId = Ident
  type ProgressToken = Ident

  datatype RequestMeta = RequestMeta(progressToken: Option<ProgressToken>, other: seq<Field>)
  datatype RequestParams = RequestParams(meta: Option<RequestMeta>, other: seq<Field>)
  datatype NotificationParams = NotificationParams(meta: Option<seq<Field>>, other: seq<Field>)
  datatype ErrorObject = ErrorObject(code: int, message: Bytes, data: Option<Json>)

  datatype JSONRPCMessage =
    | Request(jsonrpc: Bytes, id: RequestId, methodName: Bytes, params: Option<RequestParams>)
    | Notification(jsonrpc: Bytes, methodName: Bytes, noteParams: Option<NotificationParams>)
    | ResultResponse(jsonrpc: Bytes, id: RequestId, meta: Option<seq<Field>>, other: seq<Field>)
    | ErrorResponse(jsonrpc: Bytes, errorId: Option<RequestId>, error: ErrorObject)

  const VERSION: Bytes := "2.0"
  const META: Bytes := "_meta"
  const PROGRESS_TOKEN: Bytes := "progressToken"

  // ----- writing -----

  function IdentJson(id: Ident): Json {
    match id case Text(text) => Str(text) case Number(n) => Int(n)
  }

  /** A field that is skipped when there is no value. */
  function Optional(key: Bytes, value: Option<Json>): seq<Field> {
    match value case None => [] case Some(v) => [Field(key, v)]
  }

  function MetaFields(meta: RequestMeta): seq<Field> {
    Optional(PROGRESS_TOKEN, match meta.progressToken case None => None case Some(t) => Some(IdentJson(t))) + meta.other
  }

  function RequestParamsJson(params: RequestParams): Json {
    Obj(Optional(META, match params.meta case None => None case Some(m) => Some(Obj(MetaFields(m)))) + params.other)
  }

  function MapOption(meta: Option<seq<Field>>): Option<Json> {
    match meta case None => None case Some(m) => Some(Obj(m))
  }

  /** The params of a notification: `_meta` is declared before the other fields. */
  function NoteParamsJson(meta: Option<seq<Field>>, other: seq<Field>): Json {
    Obj(Optional(META, MapOption(meta)) + other)
  }

  /** A result: `_meta` is added after the other fields. */
  function ResultJson(meta: Option<seq<Field>>, other: seq<Field>): Json {
    Obj(other + Optional(META, MapOption(meta)))
  }

  function ErrorJson(error: ErrorObject): Json {
    Obj([Field("code", Int(error.code)), Field("message", Str(error.message))] + Optional("data", error.data))
  }

  function MessageFields(m: JSONRPCMessage): seq<Field> {
    match m
    case Request(jsonrpc, id, methodName, params) =>
      [Field("jsonrpc", Str(jsonrpc)), Field("id", IdentJson(id)), Field("method", Str(methodName))]
      + Optional("params", match params case None => None case Some(p) => Some(RequestParamsJson(p)))
    case Notification(jsonrpc, methodName, params) =>
      [Field("jsonrpc", Str(jsonrpc)), Field("method", Str(methodName))]
      + Optional("params", match params case None => None case Some(p) => Some(NoteParamsJson(p.meta, p.other)))
    case ResultResponse(jsonrpc, id, meta, other) =>
      [Field("jsonrpc", Str(jsonrpc)), Field("id", IdentJson(id)), Field("result", ResultJson(meta, other))]
    case ErrorResponse(jsonrpc, id, error) =>
      [Field("jsonrpc", Str(jsonrpc))]
      + Optional("id", match id case None => None case Some(i) => Some(IdentJson(i)))
      + [Field("error", ErrorJson(error))]
  }

  function MessageJson(m: JSONRPCMessage): Json { Obj(MessageFields(m)) }

  // ----- reading -----

  function ReadIdent(j: Json): Option<Ident> {
    match j
    case Str(text) => Some(Text(text))
    case Int(n) => if n <= MAX_I64 then Some(Number(n)) else None
    case _ => None
  }

  function ReadString(j: Option<Json>): Option<Bytes> {
    match j case Some(Str(s)) => Some(s) case _ => None
  }

  function ReadMap(j: Json): Option<seq<Field>> {
    match j case Obj(fields) => Some(fields) case _ => None
  }

  /** A field that may be missing or null, and must otherwise read as its type. */
  function ReadOptional<T>(j: Option<Json>, read: Json -> Option<T>): Option<Option<T>> {
    match j
    case None => Some(None)
    case Some(Null) => Some(None)
    case Some(v) => match read(v) case None => None case Some(t) => Some(Some(t))
  }

  function ReadMeta(j: Json): Option<RequestMeta> {
    match j
    case Obj(fields) =>
      (match ReadOptional(Get(fields, PROGRESS_TOKEN), ReadIdent)
       case None => None
       case Some(token) => Some(RequestMeta(token, Remove(fields, PROGRESS_TOKEN))))
    case _ => None
  }

  function ReadRequestParams(j: Json): Option<RequestParams> {
    match j
    case Obj(fields) =>
      (match ReadOptional(Get(fields, META), ReadMeta)
       case None => None
       case Some(meta) => Some(RequestParams(meta, Remove(fields, META))))
    case _ => None
  }

  function ReadWithMeta(j: Json): Option<NotificationParams> {
    match j
    case Obj(fields) =>
      (match ReadOptional(Get(fields, META), ReadMap)
       case None => None
       case Some(meta) => Some(NotificationParams(meta, Remove(fields, META))))
    case _ => None
  }

  function ReadError(j: Option<Json>): Option<ErrorObject> {
    match j
    case Some(Obj(fields)) =>
      (match (Get(fields, "code"), ReadString(Get(fields, "message")), ReadOptional(Get(fields, "data"), AnyValue))
       case (Some(Int(code)), Some(message), Some(data)) =>
         if InI32(code) then Some(ErrorObject(code, message, data)) else None
       case _ => None)
    case _ => None
  }

  function AnyValue(j: Json): Option<Json> { Some(j) }

  predicate InI32(n: int) { -0x8000_0000 <= n <= 0x7fff_ffff }

  function ReadRequest(fields: seq<Field>): Option<JSONRPCMessage> {
    match (ReadString(Get(fields, "jsonrpc")), Get(fields, "id"), ReadString(Get(fields, "method")),
           ReadOptional(Get(fields, "params"), ReadRequestParams))
    case (Some(jsonrpc), Some(idJson), Some(methodName), Some(params)) =>
      (match ReadIdent(idJson) case None => None case Some(id) => Some(Request(jsonrpc, id, methodName, params)))
    case _ => None
  }

  function ReadNotification(fields: seq<Field>): Option<JSONRPCMessage> {
    match (ReadString(Get(fields, "jsonrpc")), ReadString(Get(fields, "method")),
           ReadOptional(Get(fields, "params"), ReadWithMeta))
    case (Some(jsonrpc), Some(methodName), Some(params)) => Some(Notification(jsonrpc, methodName, params))
    case _ => None
  }

  function ReadResult(fields: seq<Field>): Option<JSONRPCMessage> {
    match (ReadString(Get(fields, "jsonrpc")), Get(fields, "id"), Get(fields, "result"))
    case (Some(jsonrpc), Some(idJson), Some(result)) =>
      (match (ReadIdent(idJson), ReadWithMeta(result))
       case (Some(id), Some(body)) => Some(ResultResponse(jsonrpc, id, body.meta, body.other))
       case _ => None)
    case _ => None
  }

  function ReadErrorResponse(fields: seq<Field>): Option<JSONRPCMessage> {
    match (ReadString(Get(fields, "jsonrpc")), ReadOptional(Get(fields, "id"), ReadIdent), ReadError(Get(fields, "error")))
    case (Some(jsonrpc), Some(id), Some(error)) => Some(ErrorResponse(jsonrpc, id, error))
    case _ => None
  }

  /** The first variant that accepts the object. */
  function ReadMessage(j: Json): Option<JSONRPCMessage> {
    match j
    case Obj(fields) =>
      if ReadRequest(fields).Some? then ReadRequest(fields)
      else if ReadNotification(fields).Some? then ReadNotification(fields)
      else if ReadResult(fields).Some? then ReadResult(fields)
      else ReadErrorResponse(fields)
    case _ => None
  }

  // ----- the format of the codec -----

  function Render(m: JSONRPCMessage): Bytes { Print(MessageJson(m)) }

  function Parse(line: Bytes): Codec.Parsed<JSONRPCMessage> {
    match ReadText(line, DEPTH_LIMIT)
    case None => Codec.Failure("the line is not JSON text")
    case Some(j) =>
      match ReadMessage(j)
      case None => Codec.Failure("data did not match any variant of untagged enum JSONRPCMessage")
      case Some(m) => Codec.Success(m)
  }

  const JSON_RPC: Codec.Format<JSONRPCMessage> := Codec.Format(Render, Parse)

  // ----- the messages that the program builds -----

  predicate IdentTyped(id: Ident) { id.Number? ==> MIN_I64 <= id.number <= MAX_I64 }

  predicate MapTyped(fields: seq<Field>) { Sorted(fields) && ValidFields(fields) }

  /** A struct with a flattened map: the map does not repeat a field of the struct. */
  predicate RestTyped(fields: seq<Field>, key: Bytes) { MapTyped(fields) && Get(fields, key) == None }

  lemma RemovedIsTyped(fields: seq<Field>, key: Bytes)
    requires MapTyped(fields)
    ensures RestTyped(Remove(fields, key), key)
  {
    RemoveIsErase(fields, key);
  }

  lemma {:induction false} ExtendIsValid(fs: seq<Field>, more: seq<Field>)
    requires MapTyped(fs) && ValidFields(more)
    ensures MapTyped(Extend(fs, more))
    decreases more
  {
    if more != [] {
      InsertIsUpdate(fs, more[0].key, more[0].value);
      var next := Insert(fs, more[0].key, more[0].value);
      forall i | 0 <= i < |next| ensures Valid(next[i].value) {
        assert next[i] in next;
      }
      ExtendIsValid(next, more[1..]);
    }
  }

  predicate MetaTyped(meta: RequestMeta) {
    && (meta.progressToken.Some? ==> IdentTyped(meta.progressToken.value))
    && RestTyped(meta.other, PROGRESS_TOKEN)
  }

  predicate RequestParamsTyped(p: RequestParams) {
    (p.meta.Some? ==> MetaTyped(p.meta.value)) && RestTyped(p.other, META)
  }

  /**
   The body of a notification or a result. It may have its `_meta` among the other fields, as a
   response to a value with metadata has, but then not in both places.
   */
  predicate BodyTyped(meta: Option<seq<Field>>, other: seq<Field>) {
    MapTyped(other) && (meta.Some? ==> MapTyped(meta.value) && Get(other, META) == None)
  }

  predicate Typed(m: JSONRPCMessage) {
    match m
    case Request(_, id, _, params) => IdentTyped(id) && (params.Some? ==> RequestParamsTyped(params.value))
    case Notification(_, _, params) => params.Some? ==> BodyTyped(params.value.meta, params.value.other)
    case ResultResponse(_, id, meta, other) => IdentTyped(id) && BodyTyped(meta, other)
    case ErrorResponse(_, id, error) =>
      && (id.Some? ==> IdentTyped(id.value)) && InI32(error.code)
      && (error.data.Some? ==> Valid(error.data.value))
  }

  // ----- reading inverts writing -----

  lemma {:induction false} ValidLookup(fields: seq<Field>, key: Bytes)
    requires ValidFields(fields)
    ensures NormalizeOption(Get(fields, key)) == Get(fields, key)
  {
    if fields != [] {
      ValidIsNormal(fields[0].value);
      ValidLookup(fields[1..], key);
    }
  }

  /** A struct with one optional field and a flattened map reads back as both. */
  lemma FlattenedReads(key: Bytes, value: Option<Json>, rest: seq<Field>) returns (o: seq<Field>)
    requires RestTyped(rest, key)
    ensures Normalize(Obj(Optional(key, value) + rest)) == Obj(o)
    ensures Sorted(o) && Get(o, key) == NormalizeOption(value) && Remove(o, key) == rest
  {
    var fields := Optional(key, value) + rest;
    SortedIsDistinct(rest);
    GetAbsent(rest, key);
    assert DistinctKeys(fields);
    o := ObjectReads(fields);
    RemoveIsErase(o, key);
    GetOfConcat(Optional(key, value), rest, key);
    forall k ensures Get(Remove(o, key), k) == Get(rest, k) {
      GetOfConcat(Optional(key, value), rest, k);
      ValidLookup(rest, k);
    }
    SortedIsCanonical(Remove(o, key), rest);
  }

  lemma MetaReads(meta: RequestMeta)
    requires MetaTyped(meta)
    ensures ReadMeta(Normalize(Obj(MetaFields(meta)))) == Some(meta)
  {
    var token := match meta.progressToken case None => None case Some(t) => Some(IdentJson(t));
    var o := FlattenedReads(PROGRESS_TOKEN, token, meta.other);
  }

  lemma RequestParamsRead(p: RequestParams)
    requires RequestParamsTyped(p)
    ensures ReadRequestParams(Normalize(RequestParamsJson(p))) == Some(p)
  {
    var meta := match p.meta case None => None case Some(m) => Some(Obj(MetaFields(m)));
    var o := FlattenedReads(META, meta, p.other);
    if p.meta.Some? {
      MetaReads(p.meta.value);
    }
  }

  /** A `_meta` that reads as optional metadata: absent, null, or an object. */
  predicate MetaReadable(fields: seq<Field>) {
    match Get(fields, META) case None => true case Some(meta) => meta.Null? || meta.Obj?
  }

  predicate BodyReadable(meta: Option<seq<Field>>, other: seq<Field>) {
    meta.Some? || MetaReadable(other)
  }

  /** What a reader makes of a body: a `_meta` among the other fields is its metadata. */
  function BodyAsRead(meta: Option<seq<Field>>, other: seq<Field>): NotificationParams {
    if meta.Some? || Get(other, META) == None then NotificationParams(meta, other)
    else NotificationParams(ReadMap(Get(other, META).value), Remove(other, META))
  }

  lemma BodiesAreOne(meta: Option<seq<Field>>, other: seq<Field>)
    requires BodyTyped(meta, other)
    ensures Normalize(ResultJson(meta, other)) == Normalize(NoteParamsJson(meta, other))
  {
    var first := Optional(META, MapOption(meta));
    SortedIsDistinct(other);
    GetAbsent(other, META);
    OrderIsForgotten(first, other);
  }

  lemma NoteParamsRead(meta: Option<seq<Field>>, other: seq<Field>)
    requires BodyTyped(meta, other)
    ensures ReadWithMeta(Normalize(NoteParamsJson(meta, other)))
         == if BodyReadable(meta, other) then Some(BodyAsRead(meta, other)) else None
  {
    if meta == None {
      assert [] + other == other;
      ValidIsNormal(Obj(other));
      if Get(other, META) == None {
        RemoveAbsent(other, META);
      }
    } else {
      var o := FlattenedReads(META, MapOption(meta), other);
      ValidIsNormal(Obj(meta.value));
    }
  }

  lemma BodyReads(meta: Option<seq<Field>>, other: seq<Field>)
    requires BodyTyped(meta, other)
    ensures var r := if BodyReadable(meta, other) then Some(BodyAsRead(meta, other)) else None;
      && ReadWithMeta(Normalize(NoteParamsJson(meta, other))) == r
      && ReadWithMeta(Normalize(ResultJson(meta, other))) == r
  {
    NoteParamsRead(meta, other);
    BodiesAreOne(meta, other);
    hide Normalize, ReadWithMeta, BodyReadable, BodyAsRead;
  }

  /** The keys of the message structs are pairwise different. */
  lemma KeysDiffer()
    ensures "jsonrpc" != "id" && "jsonrpc" != "method" && "jsonrpc" != "params"
    ensures "jsonrpc" != "result" && "jsonrpc" != "error"
    ensures "id" != "method" && "id" != "params" && "id" != "result" && "id" != "error"
    ensures "method" != "params" && "method" != "result" && "method" != "error"
    ensures "params" != "result" && "params" != "error" && "result" != "error"
  {
    assert "method"[0] == 'm' && "params"[0] == 'p' && "result"[0] == 'r';
  }

  lemma RequestFieldsDiffer(m: JSONRPCMessage)
    requires m.Request?
    ensures DistinctKeys(MessageFields(m))
    ensures m.params == None ==> Get(MessageFields(m), "params") == None
  {
    hide RequestParamsJson;
    KeysDiffer();
    GetAbsent(MessageFields(m), "params");
    hide Get;
  }

  lemma RequestFields(m: JSONRPCMessage) returns (o: seq<Field>)
    requires m.Request?
    ensures Normalize(MessageJson(m)) == Obj(o)
    ensures Get(o, "jsonrpc") == Some(Str(m.jsonrpc))
    ensures Get(o, "id") == Some(IdentJson(m.id))
    ensures Get(o, "method") == Some(Str(m.methodName))
    ensures Get(o, "params") == match m.params case None => None case Some(p) => Some(Normalize(RequestParamsJson(p)))
  {
    hide RequestParamsJson;
    var fields := MessageFields(m);
    RequestFieldsDiffer(m);
    hide DistinctKeys, Get;
    o := ObjectReads(fields);
    GetAt(fields, 0);
    GetAt(fields, 1);
    GetAt(fields, 2);
    if m.params.Some? {
      GetAt(fields, 3);
    }
  }

  lemma RequestReads(m: JSONRPCMessage)
    requires Typed(m) && m.Request?
    ensures ReadMessage(Normalize(MessageJson(m))) == Some(m)
  {
    var o := RequestFields(m);
    if m.params.Some? {
      RequestParamsRead(m.params.value);
    }
    hide Get, Normalize, MessageFields, RequestParamsJson, ReadRequestParams;
  }

  lemma NoteFieldsDiffer(m: JSONRPCMessage)
    requires m.Notification?
    ensures DistinctKeys(MessageFields(m))
    ensures Get(MessageFields(m), "id") == None && Get(MessageFields(m), "result") == None
    ensures Get(MessageFields(m), "error") == None
    ensures m.noteParams == None ==> Get(MessageFields(m), "params") == None
  {
    hide NoteParamsJson;
    var fields := MessageFields(m);
    KeysDiffer();
    GetAbsent(fields, "id");
    GetAbsent(fields, "result");
    GetAbsent(fields, "error");
    GetAbsent(fields, "params");
    hide Get;
  }

  lemma NotificationFields(m: JSONRPCMessage) returns (o: seq<Field>)
    requires m.Notification?
    ensures Normalize(MessageJson(m)) == Obj(o)
    ensures Get(o, "jsonrpc") == Some(Str(m.jsonrpc))
    ensures Get(o, "id") == None && Get(o, "result") == None && Get(o, "error") == None
    ensures Get(o, "method") == Some(Str(m.methodName))
    ensures Get(o, "params")
         == match m.noteParams case None => None case Some(p) => Some(Normalize(NoteParamsJson(p.meta, p.other)))
  {
    hide NoteParamsJson;
    var fields := MessageFields(m);
    NoteFieldsDiffer(m);
    hide DistinctKeys, Get;
    o := ObjectReads(fields);
    GetAt(fields, 0);
    GetAt(fields, 1);
    if m.noteParams.Some? {
      GetAt(fields, 2);
    }
  }

  lemma NotificationReads(m: JSONRPCMessage)
    requires Typed(m) && m.Notification?
    ensures ReadMessage(Normalize(MessageJson(m))) == AsRead(m)
  {
    var o := NotificationFields(m);
    if m.noteParams.Some? {
      BodyReads(m.noteParams.value.meta, m.noteParams.value.other);
    }
    hide Get, Normalize, MessageFields, NoteParamsJson, ReadWithMeta, BodyReadable, BodyAsRead;
  }

  lemma ResultFields(m: JSONRPCMessage) returns (o: seq<Field>)
    requires m.ResultResponse?
    ensures Normalize(MessageJson(m)) == Obj(o)
    ensures Get(o, "jsonrpc") == Some(Str(m.jsonrpc))
    ensures Get(o, "id") == Some(IdentJson(m.id))
    ensures Get(o, "method") == None && Get(o, "error") == None
    ensures Get(o, "result") == Some(Normalize(ResultJson(m.meta, m.other)))
  {
    hide ResultJson;
    var fields := MessageFields(m);
    KeysDiffer();
    GetAbsent(fields, "method");
    GetAbsent(fields, "error");
    assert DistinctKeys(fields);
    hide DistinctKeys, Get;
    o := ObjectReads(fields);
    GetAt(fields, 0);
    GetAt(fields, 1);
    GetAt(fields, 2);
  }

  lemma ResultReads(m: JSONRPCMessage)
    requires Typed(m) && m.ResultResponse?
    ensures ReadMessage(Normalize(MessageJson(m))) == AsRead(m)
  {
    var o := ResultFields(m);
    BodyReads(m.meta, m.other);
    hide Get, Normalize, MessageFields, ResultJson, ReadWithMeta, BodyReadable, BodyAsRead;
  }

  /** What a reader makes of an error object: a null `data` reads as no data. */
  function ErrorAsRead(error: ErrorObject): ErrorObject {
    if error.data == Some(Null) then error.(data := None) else error
  }

  /** What a reader makes of a message: nothing if a body has a `_meta` that does not read. */
  function AsRead(m: JSONRPCMessage): Option<JSONRPCMessage> {
    match m
    case Request(_, _, _, _) => Some(m)
    case Notification(_, _, None) => Some(m)
    case Notification(_, _, Some(p)) =>
      if BodyReadable(p.meta, p.other) then Some(m.(noteParams := Some(BodyAsRead(p.meta, p.other)))) else None
    case ResultResponse(_, _, meta, other) =>
      if BodyReadable(meta, other)
      then Some(m.(meta := BodyAsRead(meta, other).meta, other := BodyAsRead(meta, other).other)) else None
    case ErrorResponse(_, _, error) => Some(m.(error := ErrorAsRead(error)))
  }

  /** The metadata of a body is in its place, and error data is not null. */
  predicate Plain(m: JSONRPCMessage) {
    match m
    case Request(_, _, _, _) => true
    case Notification(_, _, params) => params.Some? ==> Get(params.value.other, META) == None
    case ResultResponse(_, _, _, other) => Get(other, META) == None
    case ErrorResponse(_, _, error) => error.data != Some(Null)
  }

  lemma PlainIsReadAsItself(m: JSONRPCMessage)
    requires Typed(m)
    ensures AsRead(m) == Some(m) <==> Plain(m)
  {
    var other := match m case Notification(_, _, Some(p)) => p.other case ResultResponse(_, _, _, other) => other case _ => [];
    if Get(other, META).Some? {
      RemoveIsErase(other, META);
    }
  }

  lemma ErrorObjectReads(error: ErrorObject)
    requires InI32(error.code) && (error.data.Some? ==> Valid(error.data.value))
    ensures ReadError(Some(Normalize(ErrorJson(error)))) == Some(ErrorAsRead(error))
  {
    var fields := [Field("code", Int(error.code)), Field("message", Str(error.message))] + Optional("data", error.data);
    assert "code" != "message" && "message" != "data";
    assert "code"[0] == 'c' && "data"[0] == 'd';
    var o := ObjectReads(fields);
    GetAt(fields, 0);
    GetAt(fields, 1);
    if error.data == None {
      GetAbsent(fields, "data");
    } else {
      GetAt(fields, 2);
      ValidIsNormal(error.data.value);
    }
  }

  lemma ErrorFieldsDiffer(m: JSONRPCMessage)
    requires m.ErrorResponse?
    ensures DistinctKeys(MessageFields(m))
    ensures Get(MessageFields(m), "method") == None && Get(MessageFields(m), "result") == None
    ensures m.errorId == None ==> Get(MessageFields(m), "id") == None
  {
    hide ErrorJson;
    var fields := MessageFields(m);
    KeysDiffer();
    GetAbsent(fields, "method");
    GetAbsent(fields, "result");
    GetAbsent(fields, "id");
    hide Get;
  }

  lemma ErrorResponseFields(m: JSONRPCMessage) returns (o: seq<Field>)
    requires m.ErrorResponse?
    ensures Normalize(MessageJson(m)) == Obj(o)
    ensures Get(o, "jsonrpc") == Some(Str(m.jsonrpc))
    ensures Get(o, "id") == match m.errorId case None => None case Some(i) => Some(IdentJson(i))
    ensures Get(o, "method") == None && Get(o, "result") == None
    ensures Get(o, "error") == Some(Normalize(ErrorJson(m.error)))
  {
    hide ErrorJson;
    var fields := MessageFields(m);
    ErrorFieldsDiffer(m);
    hide DistinctKeys, Get;
    o := ObjectReads(fields);
    GetAt(fields, 0);
    GetAt(fields, 1);
    if m.errorId.Some? {
      GetAt(fields, 2);
    }
  }

  lemma ErrorResponseReads(m: JSONRPCMessage)
    requires Typed(m) && m.ErrorResponse?
    ensures ReadMessage(Normalize(MessageJson(m))) == AsRead(m)
  {
    var o := ErrorResponseFields(m);
    ErrorObjectReads(m.error);
    hide Get, Normalize, MessageFields, ErrorJson, ReadError;
  }

  lemma MessageReads(m: JSONRPCMessage)
    requires Typed(m)
    ensures ReadMessage(Normalize(MessageJson(m))) == AsRead(m)
  {
    match m {
      case Request(_, _, _, _) => RequestReads(m);
      case Notification(_, _, _) => NotificationReads(m);
      case ResultResponse(_, _, _, _) => ResultReads(m);
      case ErrorResponse(_, _, _) => ErrorResponseReads(m);
    }
  }

  lemma MapIsWritable(fields: seq<Field>)
    requires MapTyped(fields)
    ensures forall i :: 0 <= i < |fields| ==> Writable(fields[i].value)
  {
    ValidFieldsAreNormal(fields);
  }

  lemma RequestParamsWritable(p: RequestParams)
    requires RequestParamsTyped(p)
    ensures Writable(RequestParamsJson(p))
  {
    MapIsWritable(p.other);
    if p.meta.Some? {
      MapIsWritable(p.meta.value.other);
      assert Writable(Obj(MetaFields(p.meta.value)));
    }
  }

  lemma BodyIsWritable(meta: Option<seq<Field>>, other: seq<Field>)
    requires BodyTyped(meta, other)
    ensures Writable(NoteParamsJson(meta, other)) && Writable(ResultJson(meta, other))
  {
    MapIsWritable(other);
    if meta.Some? {
      MapIsWritable(meta.value);
      assert Writable(Obj(meta.value));
    }
  }

  lemma ErrorIsWritable(error: ErrorObject)
    requires InI32(error.code) && (error.data.Some? ==> Valid(error.data.value))
    ensures Writable(ErrorJson(error))
  {
    if error.data.Some? {
      ValidIsNormal(error.data.value);
    }
    hide Valid, Normalize;
  }

  lemma IdentIsWritable(id: Ident)
    requires IdentTyped(id)
    ensures Writable(IdentJson(id))
  {
  }

  lemma MessageIsWritable(m: JSONRPCMessage)
    requires Typed(m)
    ensures Writable(MessageJson(m))
  {
    hide NoteParamsJson, ResultJson, RequestParamsJson, ErrorJson, IdentJson;
    match m {
      case Request(_, id, _, params) =>
        IdentIsWritable(id);
        if params.Some? {
          RequestParamsWritable(params.value);
        }
      case Notification(_, _, params) =>
        if params.Some? {
          BodyIsWritable(params.value.meta, params.value.other);
        }
      case ResultResponse(_, id, meta, other) =>
        IdentIsWritable(id);
        BodyIsWritable(meta, other);
      case ErrorResponse(_, id, error) =>
        if id.Some? {
          IdentIsWritable(id.value);
        }
        ErrorIsWritable(error);
    }
  }

  /**
   The text of a message is one line of visible characters. It is read as the message exactly when
   the message is nested less deeply than the reader accepts and is plain. It is read at all
   exactly when it is not nested too deeply and its `_meta` can be read.
   */
  lemma ParseInvertsRender(m: JSONRPCMessage)
    requires Typed(m)
    ensures Render(m) != [] && NoNewline(Render(m))
    ensures Parse(Render(m)) == Codec.Success(m) <==> Depth(MessageJson(m)) < DEPTH_LIMIT && Plain(m)
    ensures match Parse(Render(m))
      case Success(r) => Depth(MessageJson(m)) < DEPTH_LIMIT && AsRead(m) == Some(r)
      case Failure(_) => Depth(MessageJson(m)) >= DEPTH_LIMIT || AsRead(m) == None
  {
    MessageIsWritable(m);
    PrintedIsVisible(MessageJson(m));
    ReadTextInvertsPrint(MessageJson(m), DEPTH_LIMIT);
    MessageReads(m);
    PlainIsReadAsItself(m);
    hide MessageJson, ReadMessage, AsRead, Plain, Typed, Print, Depth, Normalize, Writable;
  }

  // ----- texts that another program wrote -----

  /** What a line is when it is the text of a value, with any white space between its tokens. */
  lemma SpacedLineParses(j: Json, line: Bytes)
    requires SpacedText(j, line)
    ensures match Parse(line)
      case Success(m) => Depth(j) < DEPTH_LIMIT && ReadMessage(Normalize(j)) == Some(m)
      case Failure(_) => Depth(j) >= DEPTH_LIMIT || ReadMessage(Normalize(j)) == None
  {
    SpacedTextIsRead(j, line, DEPTH_LIMIT);
    hide SpacedText, ReadText, Depth, Normalize, ReadMessage;
  }

  /** A line is a message exactly if it is such a text of a value that reads as the message. */
  lemma ParseIsExact(line: Bytes, m: JSONRPCMessage)
    ensures Parse(line) == Codec.Success(m)
      <==> exists j :: SpacedText(j, line) && Depth(j) < DEPTH_LIMIT && ReadMessage(Normalize(j)) == Some(m)
  {
    hide SpacedText, ReadText, Depth, Normalize, ReadMessage;
    if Parse(line) == Codec.Success(m) {
      ReadTextIsExact(line, DEPTH_LIMIT, ReadText(line, DEPTH_LIMIT).value);
    }
    forall j | SpacedText(j, line) && Depth(j) < DEPTH_LIMIT && ReadMessage(Normalize(j)) == Some(m)
      ensures Parse(line) == Codec.Success(m)
    {
      SpacedLineParses(j, line);
    }
  }

  // ----- objects that another program wrote -----

  /** The object names a method, and its version is text. */
  predicate NamesMethod(fields: seq<Field>) {
    ReadString(Get(fields, "jsonrpc")).Some? && ReadString(Get(fields, "method")).Some?
  }

  /** The object has an identifier that reads. */
  predicate IdReads(fields: seq<Field>) {
    match Get(fields, "id") case None => false case Some(id) => ReadIdent(id).Some?
  }

  predicate ReadsAsRequestParams(fields: seq<Field>) {
    match Get(fields, "params")
    case None => true
    case Some(Null) => true
    case Some(Obj(params)) =>
      (match Get(params, META)
       case None => true
       case Some(Null) => true
       case Some(Obj(meta)) =>
         (match Get(meta, PROGRESS_TOKEN) case None => true case Some(t) => t.Null? || ReadIdent(t).Some?)
       case _ => false)
    case _ => false
  }

  predicate ReadsAsNoteParams(fields: seq<Field>) {
    match Get(fields, "params")
    case None => true
    case Some(Null) => true
    case Some(Obj(params)) => MetaReadable(params)
    case _ => false
  }

  /**
   What the reader makes of any object that names a method. It is a request exactly when its
   identifier and its request params read. Otherwise it is a notification exactly when its
   notification params read, so a request with an identifier or a progress token that does not read
   is never answered.
   */
  lemma MethodObjectsAreClassified(fields: seq<Field>)
    requires NamesMethod(fields)
    ensures var r, isRequest := ReadMessage(Obj(fields)), IdReads(fields) && ReadsAsRequestParams(fields);
      && (r.Some? && r.value.Request? <==> isRequest)
      && (r.Some? && r.value.Notification? <==> !isRequest && ReadsAsNoteParams(fields))
      && (r.Some? && (r.value.Request? || r.value.Notification?) ==>
            Str(r.value.methodName) == Get(fields, "method").value)
  {
    RequestParamsReadWhen(fields);
    NoteParamsReadWhen(fields);
    hide Get, ReadRequestParams, ReadWithMeta, ReadsAsRequestParams, ReadsAsNoteParams;
  }

  lemma RequestParamsReadWhen(fields: seq<Field>)
    ensures ReadOptional(Get(fields, "params"), ReadRequestParams).Some? <==> ReadsAsRequestParams(fields)
  {
    hide Get;
  }

  lemma NoteParamsReadWhen(fields: seq<Field>)
    ensures ReadOptional(Get(fields, "params"), ReadWithMeta).Some? <==> ReadsAsNoteParams(fields)
  {
    hide Get;
  }

  /** A call whose identifier is not an integer is read as a notification, and so is not answered. */
  lemma OddIdentifierIsNoRequest(fields: seq<Field>)
    requires NamesMethod(fields) && ReadsAsNoteParams(fields)
    requires Get(fields, "id") == Some(Null) || Get(fields, "id") == Some(Float("1.5"))
    ensures ReadMessage(Obj(fields)).Some? && ReadMessage(Obj(fields)).value.Notification?
  {
    MethodObjectsAreClassified(fields);
    hide Get, ReadMessage, NamesMethod, ReadsAsNoteParams;
  }

  // ----- which objects are read as what -----

  predicate HasIdent(j: Option<Json>, id: Ident) { j == Some(IdentJson(id)) && (id.Number? ==> id.number <= MAX_I64) }

  predicate Missing(j: Option<Json>) { j == None || j == Some(Null) }

  predicate HasOptionalIdent(j: Option<Json>, id: Option<Ident>) {
    match id case None => Missing(j) case Some(i) => HasIdent(j, i)
  }

  predicate HasOptionalMap(j: Option<Json>, map': Option<seq<Field>>) {
    match map' case None => Missing(j) case Some(fields) => j == Some(Obj(fields))
  }

  predicate HasRequestMeta(j: Option<Json>, meta: Option<RequestMeta>) {
    match meta
    case None => Missing(j)
    case Some(m) =>
      && j.Some? && j.value.Obj? && HasOptionalIdent(Get(j.value.fields, PROGRESS_TOKEN), m.progressToken)
      && m.other == Remove(j.value.fields, PROGRESS_TOKEN)
  }

  predicate HasRequestParams(j: Option<Json>, params: Option<RequestParams>) {
    match params
    case None => Missing(j)
    case Some(p) =>
      && j.Some? && j.value.Obj? && HasRequestMeta(Get(j.value.fields, META), p.meta)
      && p.other == Remove(j.value.fields, META)
  }

  /** The body of a notification or a result: its metadata, and its other fields. */
  predicate HasBody(j: Option<Json>, meta: Option<seq<Field>>, other: seq<Field>) {
    j.Some? && j.value.Obj? && HasOptionalMap(Get(j.value.fields, META), meta) && other == Remove(j.value.fields, META)
  }

  predicate HasError(j: Option<Json>, error: ErrorObject) {
    && j.Some? && j.value.Obj? && -0x8000_0000 <= error.code < 0x8000_0000
    && Get(j.value.fields, "code") == Some(Int(error.code)) && Get(j.value.fields, "message") == Some(Str(error.message))
    && match error.data
       case None => Missing(Get(j.value.fields, "data"))
       case Some(data) => data != Null && Get(j.value.fields, "data") == Some(data)
  }

  /** The object has the fields of the message. Other fields do not matter. */
  predicate Says(o: seq<Field>, m: JSONRPCMessage) {
    && Get(o, "jsonrpc") == Some(Str(m.jsonrpc))
    && match m
       case Request(_, id, methodName, params) =>
         && HasIdent(Get(o, "id"), id) && Get(o, "method") == Some(Str(methodName))
         && HasRequestParams(Get(o, "params"), params)
       case Notification(_, methodName, params) =>
         && Get(o, "method") == Some(Str(methodName))
         && (match params case None => Missing(Get(o, "params")) case Some(p) => HasBody(Get(o, "params"), p.meta, p.other))
       case ResultResponse(_, id, meta, other) => HasIdent(Get(o, "id"), id) && HasBody(Get(o, "result"), meta, other)
       case ErrorResponse(_, id, error) => HasOptionalIdent(Get(o, "id"), id) && HasError(Get(o, "error"), error)
  }

  /** The order in which the reader tries the shapes. */
  function Rank(m: JSONRPCMessage): nat {
    match m
    case Request(_, _, _, _) => 0
    case Notification(_, _, _) => 1
    case ResultResponse(_, _, _, _) => 2
    case ErrorResponse(_, _, _) => 3
  }

  lemma IdentIsSaid(j: Option<Json>, id: Option<Ident>)
    ensures ReadOptional(j, ReadIdent) == Some(id) <==> HasOptionalIdent(j, id)
  {
  }

  lemma MetaIsSaid(j: Option<Json>, meta: Option<RequestMeta>)
    ensures ReadOptional(j, ReadMeta) == Some(meta) <==> HasRequestMeta(j, meta)
  {
    if j.Some? && j.value.Obj? && meta.Some? {
      IdentIsSaid(Get(j.value.fields, PROGRESS_TOKEN), meta.value.progressToken);
    }
    hide Get, Remove, ReadIdent, HasOptionalIdent;
  }

  lemma ParamsAreSaid(j: Option<Json>, params: Option<RequestParams>)
    ensures ReadOptional(j, ReadRequestParams) == Some(params) <==> HasRequestParams(j, params)
  {
    if j.Some? && j.value.Obj? && params.Some? {
      MetaIsSaid(Get(j.value.fields, META), params.value.meta);
    }
    hide Get, Remove, ReadMeta, HasRequestMeta;
  }

  lemma RequestIsSaid(o: seq<Field>, m: JSONRPCMessage)
    ensures ReadRequest(o) == Some(m) <==> m.Request? && Says(o, m)
  {
    if m.Request? {
      ParamsAreSaid(Get(o, "params"), m.params);
    }
    hide Get, Remove, ReadRequestParams, HasRequestParams;
  }

  lemma NotificationIsSaid(o: seq<Field>, m: JSONRPCMessage)
    ensures ReadNotification(o) == Some(m) <==> m.Notification? && Says(o, m)
  {
    hide Get, Remove;
  }

  lemma ResultIsSaid(o: seq<Field>, m: JSONRPCMessage)
    ensures ReadResult(o) == Some(m) <==> m.ResultResponse? && Says(o, m)
  {
    hide Get, Remove;
  }

  lemma ErrorIsSaid(o: seq<Field>, m: JSONRPCMessage)
    ensures ReadErrorResponse(o) == Some(m) <==> m.ErrorResponse? && Says(o, m)
  {
    hide Get, Remove;
  }

  /**
   An object is read as a message exactly if it has the fields of the message and not those of any
   message of an earlier shape. Anything but an object is no message.
   */
  lemma ReadMessageIsExact(j: Json, m: JSONRPCMessage)
    ensures ReadMessage(j) == Some(m)
      <==> j.Obj? && Says(j.fields, m) && forall other :: Rank(other) < Rank(m) ==> !Says(j.fields, other)
  {
    if j.Obj? {
      var o := j.fields;
      forall other
        ensures Says(o, other) <==>
          ReadRequest(o) == Some(other) || ReadNotification(o) == Some(other)
          || ReadResult(o) == Some(other) || ReadErrorResponse(o) == Some(other)
        ensures ReadRequest(o) == Some(other) ==> other.Request?
        ensures ReadNotification(o) == Some(other) ==> other.Notification?
        ensures ReadResult(o) == Some(other) ==> other.ResultResponse?
        ensures ReadErrorResponse(o) == Some(other) ==> other.ErrorResponse?
      {
        RequestIsSaid(o, other);
        NotificationIsSaid(o, other);
        ResultIsSaid(o, other);
        ErrorIsSaid(o, other);
      }
      hide Says, ReadRequest, ReadNotification, ReadResult, ReadErrorResponse;
    }
  }
}
