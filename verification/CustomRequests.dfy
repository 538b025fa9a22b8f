/**
 Custom requests from a server to its client: how the server checks and sends one, how the client
 routes and checks it, and why the two checks agree.
 */
module CustomRequests {
  import opened Bytes
  import opened Json
  import opened JsonReader
  import opened Message
  import opened Payload
  import opened Params

  datatype CustomRequest = CustomRequest(
    methodName: Bytes, params: Option<seq<Field>>, timeout: Option<nat>, payloadLimit: nat)

  datatype Created = Created(request: CustomRequest) | InvalidRequest(methodName: Bytes) | InvalidParams(methodName: Bytes)

  /** The method and the params of a request, without the envelope. */
  datatype RequestBody = RequestBody(methodName: Bytes, params: Option<RequestParams>)

  datatype Prepared =
    | Prepared(body: RequestBody, timeout: Option<nat>, payloadLimit: nat)
    | OverLimit(error: Checked)

  /** How the client answers one request: which handler method it calls, and with what. */
  datatype Routed =
    | Standard(methodName: Bytes, tagged: seq<Field>)
    | Custom(methodName: Bytes, params: Option<Json>)
    | Rejected(error: Checked)

  predicate IsServerRequestMethod(name: Bytes) {
    || name == "ping" || name == "sampling/createMessage" || name == "roots/list"
    || name == "elicitation/create" || name == "tasks/get" || name == "tasks/result"
    || name == "tasks/list" || name == "tasks/cancel"
  }

  /** The requests that a server may send, as the schema tags them. */
  datatype ServerRequest =
    | Ping | CreateMessage | ListRoots | Elicit | GetTask | GetTaskPayload | ListTasks | CancelTask

  function RequestTag(r: ServerRequest): Bytes {
    match r
    case Ping => "ping"
    case CreateMessage => "sampling/createMessage"
    case ListRoots => "roots/list"
    case Elicit => "elicitation/create"
    case GetTask => "tasks/get"
    case GetTaskPayload => "tasks/result"
    case ListTasks => "tasks/list"
    case CancelTask => "tasks/cancel"
  }

  ghost predicate InSchema(name: Bytes) { exists r :: RequestTag(r) == name }

  /** The table of method names that routes is the table of the schema. */
  lemma StandardIsTagged(name: Bytes)
    ensures IsServerRequestMethod(name) <==> InSchema(name)
  {
    if IsServerRequestMethod(name) {
      var r :=
        if name == "ping" then Ping else if name == "sampling/createMessage" then CreateMessage
        else if name == "roots/list" then ListRoots else if name == "elicitation/create" then Elicit
        else if name == "tasks/get" then GetTask else if name == "tasks/result" then GetTaskPayload
        else if name == "tasks/list" then ListTasks else CancelTask;
      assert RequestTag(r) == name;
    }
  }

  function New(name: Bytes, params: Json): Created {
    if IsServerRequestMethod(name) then InvalidRequest(name)
    else match params
      case Obj(fields) => Created(CustomRequest(name, Some(fields), None, CUSTOM_PAYLOAD_LIMIT))
      case Null => Created(CustomRequest(name, None, None, CUSTOM_PAYLOAD_LIMIT))
      case _ => InvalidParams(name)
  }

  /** Check the params against the limit of the sender, and split the request. */
  method Prepare(request: CustomRequest) returns (r: Prepared)
    ensures r.Prepared? <==> FitsIn(request.params, request.payloadLimit)
    ensures r.Prepared? ==>
      r == Prepared(RequestBody(request.methodName, SentParams(request)), request.timeout, request.payloadLimit)
    ensures r.OverLimit? ==>
      r.error == PayloadTooLarge(request.methodName, |Print(Obj(request.params.value))|, request.payloadLimit)
    ensures r == PrepareResult(request)
  {
    if request.params.Some? {
      var checked := CheckPayload(request.methodName, Obj(request.params.value), request.payloadLimit);
      if checked.PayloadTooLarge? {
        return OverLimit(checked);
      }
    }
    var params: Option<RequestParams> := None;
    if request.params.Some? {
      params := SplitParams(request.params.value);
    }
    return Prepared(RequestBody(request.methodName, params), request.timeout, request.payloadLimit);
  }

  /** There are no params, or their encoding has no more bytes than the limit. */
  predicate FitsIn(params: Option<seq<Field>>, limit: nat) {
    params.Some? ==> |Print(Obj(params.value))| <= limit
  }

  function SentParams(request: CustomRequest): Option<RequestParams> {
    match request.params case None => None case Some(fields) => Split(fields)
  }

  function PrepareResult(request: CustomRequest): Prepared {
    var checked := match request.params
      case None => WithinLimit
      case Some(fields) => Check(request.methodName, Obj(fields), request.payloadLimit);
    if checked.PayloadTooLarge? then OverLimit(checked)
    else Prepared(RequestBody(request.methodName, SentParams(request)), request.timeout, request.payloadLimit)
  }

  /** The object that a method-tagged request deserializes from. */
  function Tagged(name: Bytes, params: Option<RequestParams>): seq<Field> {
    var object' := Insert([], "method", Str(name));
    match params case None => object' case Some(p) => Extend(object', Fold(p))
  }

  /** Route one request to the handler, and check a custom request against the limit of the handler. */
  method HandleServerRequest(body: RequestBody, requestLimit: nat) returns (r: Routed)
    ensures r.Standard? <==> InSchema(body.methodName)
    ensures r.Standard? ==> r == Standard(body.methodName, Tagged(body.methodName, body.params))
    ensures r.Rejected? <==> !InSchema(body.methodName) && !FitsIn(Rebuilt(body), requestLimit)
    ensures r.Rejected? ==>
      r.error == PayloadTooLarge(body.methodName, |Print(Obj(Rebuilt(body).value))|, requestLimit)
    ensures r.Custom? ==>
      r == Custom(body.methodName, if Rebuilt(body) == None then None else Some(Obj(Rebuilt(body).value)))
    ensures r == Route(body, requestLimit)
  {
    StandardIsTagged(body.methodName);
    if IsServerRequestMethod(body.methodName) {
      return Standard(body.methodName, Tagged(body.methodName, body.params));
    }
    if body.params == None {
      return Custom(body.methodName, None);
    }
    var params := ParamsObject(body.params.value);
    var checked := CheckPayload(body.methodName, Obj(params), requestLimit);
    if checked.PayloadTooLarge? {
      return Rejected(checked);
    }
    return Custom(body.methodName, Some(Obj(params)));
  }

  /** The params object that the receiver puts together again. */
  function Rebuilt(body: RequestBody): Option<seq<Field>> {
    match body.params case None => None case Some(p) => Some(Fold(p))
  }

  function Route(body: RequestBody, requestLimit: nat): Routed {
    if IsServerRequestMethod(body.methodName) then Standard(body.methodName, Tagged(body.methodName, body.params))
    else match body.params
      case None => Custom(body.methodName, None)
      case Some(p) =>
        var checked := Check(body.methodName, Obj(Fold(p)), requestLimit);
        if checked.PayloadTooLarge? then Rejected(checked) else Custom(body.methodName, Some(Obj(Fold(p))))
  }

  // ----- sizes -----

  /** The encoded size of the fields, with one byte of separator for each. */
  function Weight(fields: seq<Field>): nat {
    if fields == [] then 0 else |PrintField(fields[0])| + 1 + Weight(fields[1..])
  }

  lemma {:induction false} WeightIsSize(fields: seq<Field>)
    ensures |Print(Obj(fields))| == 2 + if fields == [] then 0 else Weight(fields) - 1
  {
    hide PrintField;
    if |fields| > 1 {
      WeightIsSize(fields[1..]);
    } else if fields != [] {
      assert fields[1..] == [];
    }
  }

  lemma {:induction false} WeightOfRemove(fields: seq<Field>, key: Bytes)
    ensures Weight(fields) == Weight(Remove(fields, key))
      + match Get(fields, key) case None => 0 case Some(v) => |PrintField(Field(key, v))| + 1
  {
    hide PrintField;
    if fields != [] {
      if fields[0].key == key {
        assert fields[0] == Field(key, fields[0].value);
      } else {
        WeightOfRemove(fields[1..], key);
        assert Remove(fields, key)[1..] == Remove(fields[1..], key);
      }
    }
  }

  lemma FieldSize(key: Bytes, value: Json)
    ensures |PrintField(Field(key, value))| == |PrintStr(key)| + 1 + |Print(value)|
  {
  }

  /** Valid metadata in map form is no larger than the object that it was read from. */
  lemma MetaShrinks(value: Json)
    requires Valid(value) && ReadMeta(value).Some?
    ensures |Print(MetaValue(ReadMeta(value).value))| <= |Print(value)|
    ensures Get(value.fields, PROGRESS_TOKEN) == Some(Null) ==>
      |Print(MetaValue(ReadMeta(value).value))| < |Print(value)|
  {
    MetaValueKept(value);
    if Get(value.fields, PROGRESS_TOKEN) == Some(Null) {
      WeightOfRemove(value.fields, PROGRESS_TOKEN);
      WeightIsSize(value.fields);
      WeightIsSize(Remove(value.fields, PROGRESS_TOKEN));
      FieldSize(PROGRESS_TOKEN, Null);
    }
  }

  /** The object that the receiver rebuilds is no larger than the sender's, and smaller if it differs. */
  lemma NormalShrinks(fields: seq<Field>)
    requires MapTyped(fields)
    ensures |Print(Obj(Normal(fields)))| <= |Print(Obj(fields))|
    ensures |Print(Obj(Normal(fields)))| == |Print(Obj(fields))| <==> Normal(fields) == fields
  {
    hide Print, PrintField, Normal;
    var rest := Remove(fields, META);
    RemoveIsErase(fields, META);
    FoldAfterSplit(fields);
    RemoveIsErase(Normal(fields), META);
    forall k ensures Get(Remove(Normal(fields), META), k) == Get(rest, k) {
    }
    SortedIsCanonical(Remove(Normal(fields), META), rest);
    WeightOfRemove(fields, META);
    WeightOfRemove(Normal(fields), META);
    WeightIsSize(fields);
    WeightIsSize(Normal(fields));
    MetaWeight(fields);
    if Get(fields, META).Some? {
      FieldSize(META, Get(fields, META).value);
    }
  }

  lemma MetaWeight(fields: seq<Field>)
    requires MapTyped(fields)
    ensures Get(fields, META) == None ==> Get(Normal(fields), META) == None
    ensures Get(fields, META).Some? && Get(Normal(fields), META).Some? ==>
      var before, after := Get(fields, META).value, Get(Normal(fields), META).value;
      && |PrintField(Field(META, after))| <= |PrintField(Field(META, before))|
      && (!MetaKept(fields) ==> |PrintField(Field(META, after))| < |PrintField(Field(META, before))|)
  {
    RemoveIsErase(fields, META);
    if Split(fields).Some? {
      var params := Split(fields).value;
      SplitIsTyped(fields);
      if params.meta.Some? {
        InsertIsUpdate(params.other, META, MetaValue(params.meta.value));
        GetMember(fields, META);
        MetaShrinks(Get(fields, META).value);
        FieldSize(META, Get(fields, META).value);
        FieldSize(META, MetaValue(params.meta.value));
      }
    }
  }

  // ----- the two checks agree -----

  /** Which requests can be made: outside the schema, with an object or nothing as params. */
  lemma VendorRequestsAreCreated(name: Bytes, params: Json)
    ensures var c := New(name, params);
      && (c.Created? <==> !InSchema(name) && (params.Obj? || params.Null?))
      && (c.InvalidRequest? <==> InSchema(name))
      && (c.Created? ==>
            && c.request.methodName == name && c.request.timeout == None && c.request.payloadLimit == 0x10_0000
            && match c.request.params case None => params == Null case Some(fields) => params == Obj(fields))
      && (!c.Created? ==> c.methodName == name)
  {
    StandardIsTagged(name);
  }

  /**
   A request whose params fit in the limit of the sender is sent, and any other is not. A receiver
   whose limit is not smaller passes what was sent to the custom handler, with its params normalized.
   */
  lemma ChecksAgree(name: Bytes, params: Json, payloadLimit: nat, timeout: Option<nat>, requestLimit: nat)
    requires Valid(params) && !InSchema(name) && (params.Obj? || params.Null?)
    ensures New(name, params).Created?
    ensures var request := New(name, params).request.(payloadLimit := payloadLimit, timeout := timeout);
      var sent := PrepareResult(request);
      && (sent.Prepared? <==> (params.Obj? ==> |Print(params)| <= payloadLimit))
      && (sent.Prepared? ==> sent.body.methodName == name && sent.body.params == SentParams(request))
      && (sent.Prepared? && payloadLimit <= requestLimit ==>
            Route(sent.body, requestLimit)
              == Custom(name, if SentParams(request) == None then None else Some(Obj(Normal(params.fields)))))
  {
    VendorRequestsAreCreated(name, params);
    hide IsServerRequestMethod, InSchema;
    if params.Obj? {
      NormalShrinks(params.fields);
    }
  }

  /** The limit of the receiver applies to the params that it rebuilds, which may pass where the sender's fail. */
  lemma ReceiverMeasuresNormal(name: Bytes, fields: seq<Field>, requestLimit: nat)
    requires MapTyped(fields) && !IsServerRequestMethod(name) && Split(fields).Some?
    ensures Route(RequestBody(name, Split(fields)), requestLimit).Rejected?
       <==> |Print(Obj(Normal(fields)))| > requestLimit
    ensures !MetaKept(fields) ==>
      Check(name, Obj(fields), |Print(Obj(Normal(fields)))|).PayloadTooLarge?
  {
    NormalShrinks(fields);
    FoldAfterSplit(fields);
  }

  /** The wire gives the receiver the request that the sender split, exactly when it is not nested too deeply. */
  lemma ParamsCrossTheWire(id: RequestId, name: Bytes, fields: seq<Field>)
    requires MapTyped(fields) && IdentTyped(id)
    ensures var m := Request(VERSION, id, name, Split(fields));
      match Parse(Render(m))
      case Success(r) => Depth(MessageJson(m)) < DEPTH_LIMIT && r == m
      case Failure(_) => Depth(MessageJson(m)) >= DEPTH_LIMIT
  {
    if Split(fields).Some? {
      SplitIsTyped(fields);
    }
    hide Split;
    ParseInvertsRender(Request(VERSION, id, name, Split(fields)));
  }

  /** The message that carries a request that passed the sender's check. */
  function Sent(id: RequestId, body: RequestBody): JSONRPCMessage {
    Request(VERSION, id, body.methodName, body.params)
  }

  /**
   From the sender's check through the text to the receiver's check: a request whose params fit in
   the limit is sent and read as it was sent unless it is nested too deeply, and a receiver whose
   limit is not smaller passes it to its handler with the normalized params.
   */
  lemma AcceptedRequestsArrive(
    id: RequestId, name: Bytes, params: Json, payloadLimit: nat, timeout: Option<nat>, requestLimit: nat)
    requires IdentTyped(id) && Valid(params) && !InSchema(name) && (params.Obj? || params.Null?)
    requires params.Obj? ==> |Print(params)| <= payloadLimit
    ensures New(name, params).Created?
    ensures var request := New(name, params).request.(payloadLimit := payloadLimit, timeout := timeout);
      && PrepareResult(request).Prepared?
      && var m := Sent(id, PrepareResult(request).body);
         match Parse(Render(m))
         case Failure(_) => Depth(MessageJson(m)) >= DEPTH_LIMIT
         case Success(r) =>
           && Depth(MessageJson(m)) < DEPTH_LIMIT && r == m
           && (payloadLimit <= requestLimit ==>
                 Route(RequestBody(r.methodName, r.params), requestLimit)
                   == Custom(name, if SentParams(request) == None then None else Some(Obj(Normal(params.fields)))))
  {
    ChecksAgree(name, params, payloadLimit, timeout, requestLimit);
    if params.Obj? {
      ParamsCrossTheWire(id, name, params.fields);
    } else {
      ParamsCrossTheWire(id, name, []);
    }
    assert Split([]) == None;
    hide Route, Parse, Render, MessageJson, Depth, Split, Normal, Print;
  }

  /** The tag of a standard request is its method unless the params carry another `method`. */
  lemma TagIsMethod(name: Bytes, params: Option<RequestParams>)
    requires params.Some? ==> RequestParamsTyped(params.value)
    ensures Get(Tagged(name, params), "method") == Some(Str(name))
       <==> (params.Some? && Get(params.value.other, "method").Some? ==>
              Get(params.value.other, "method") == Some(Str(name)))
    ensures params.Some? ==> forall k :: k != "method" ==> Get(Tagged(name, params), k) == Get(Fold(params.value), k)
  {
    InsertIsUpdate([], "method", Str(name));
    if params.Some? {
      SplitInvertsFold(params.value);
      SortedIsDistinct(Fold(params.value));
      ExtendIsOverlay(Insert([], "method", Str(name)), Fold(params.value));
      if params.value.meta.Some? {
        InsertIsUpdate(params.value.other, META, MetaValue(params.value.meta.value));
      }
      assert "method" != META;
    }
  }
}
