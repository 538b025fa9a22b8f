/** How an outcome becomes a response, and what the requester gets back from it. */
module Responses {
  import opened Bytes
  import opened Json
  import opened JsonReader
  import opened Message

  /** What a handler returns: a value, or an error as its error object. */
  datatype Outcome = Returned(value: Json) | Raised(error: ErrorObject)

  /** An object is the body of the response. Any other value is its one field. */
  function ResultObject(value: Json): seq<Field> {
    match value case Obj(fields) => fields case _ => [Field("result", value)]
  }

  /** The response to a request. A `_meta` of the value stays among its fields. */
  function JsonrpcResponse(id: RequestId, outcome: Outcome): JSONRPCMessage {
    match outcome
    case Returned(value) => ResultResponse(VERSION, id, None, ResultObject(value))
    case Raised(error) => ErrorResponse(VERSION, Some(id), error)
  }

  /** The object that the requester deserializes its result from: `_meta` goes back in. */
  function ResultValue(m: JSONRPCMessage): seq<Field>
    requires m.ResultResponse?
  {
    match m.meta case None => m.other case Some(meta) => Insert(m.other, META, Obj(meta))
  }

  predicate OutcomeTyped(outcome: Outcome) {
    match outcome
    case Returned(value) => Valid(value)
    case Raised(error) => InI32(error.code) && (error.data.Some? ==> Valid(error.data.value))
  }

  lemma ResponseIsTyped(id: RequestId, outcome: Outcome)
    requires IdentTyped(id) && OutcomeTyped(outcome)
    ensures Typed(JsonrpcResponse(id, outcome))
  {
    match outcome {
      case Returned(Obj(fields)) => assert MapTyped(fields);
      case Returned(value) => assert MapTyped([Field("result", value)]);
      case Raised(_) =>
    }
  }

  /** Putting back what was removed gives the object that was there. */
  lemma InsertRemoved(fields: seq<Field>, key: Bytes)
    requires Sorted(fields) && Get(fields, key).Some?
    ensures Insert(Remove(fields, key), key, Get(fields, key).value) == fields
  {
    RemoveIsErase(fields, key);
    InsertIsUpdate(Remove(fields, key), key, Get(fields, key).value);
    hide Insert, Remove, Sorted;
    SortedIsCanonical(Insert(Remove(fields, key), key, Get(fields, key).value), fields);
  }

  /** A result object as the requester gets it: a null `_meta` is gone. */
  function Restored(fields: seq<Field>): seq<Field> {
    if Get(fields, META) == Some(Null) then Remove(fields, META) else fields
  }

  lemma ReadBodyRestores(id: RequestId, fields: seq<Field>)
    requires MapTyped(fields) && MetaReadable(fields)
    ensures var body := BodyAsRead(None, fields);
      ResultValue(ResultResponse(VERSION, id, body.meta, body.other)) == Restored(fields)
  {
    hide Insert, Remove;
    match Get(fields, META) {
      case Some(Obj(_)) => InsertRemoved(fields, META);
      case _ =>
    }
  }

  /**
   What the requester makes of a response: the identifier, and the object that was returned, or a
   value of another kind as the one field of an object, or the error.
   */
  predicate Carries(id: RequestId, outcome: Outcome, r: JSONRPCMessage) {
    match outcome
    case Returned(value) =>
      && r.ResultResponse? && r.id == id && r.jsonrpc == "2.0"
      && ResultValue(r) == (match value case Obj(fields) => Restored(fields) case _ => [Field("result", value)])
    case Raised(error) => r == ErrorResponse("2.0", Some(id), ErrorAsRead(error))
  }

  /** The response is not too deep, and a result has a `_meta` that can be read. */
  predicate Readable(id: RequestId, outcome: Outcome) {
    && Depth(MessageJson(JsonrpcResponse(id, outcome))) < DEPTH_LIMIT
    && (outcome.Returned? ==> MetaReadable(ResultObject(outcome.value)))
  }

  lemma ScalarIsRestored(outcome: Outcome)
    ensures outcome.Returned? ==>
      Restored(ResultObject(outcome.value))
        == match outcome.value case Obj(fields) => Restored(fields) case _ => [Field("result", outcome.value)]
  {
    assert |"result"| != |META|;
    if outcome.Returned? && !outcome.value.Obj? {
      assert Get([Field("result", outcome.value)], META) == Get([], META) == None;
    }
  }

  lemma ResponseAsRead(id: RequestId, outcome: Outcome)
    requires IdentTyped(id) && OutcomeTyped(outcome)
    ensures match AsRead(JsonrpcResponse(id, outcome))
      case Some(r) => Carries(id, outcome, r) && (outcome.Returned? ==> MetaReadable(ResultObject(outcome.value)))
      case None => outcome.Returned? && !MetaReadable(ResultObject(outcome.value))
  {
    ResponseIsTyped(id, outcome);
    if outcome.Returned? && MetaReadable(ResultObject(outcome.value)) {
      ReadBodyRestores(id, ResultObject(outcome.value));
    }
    ScalarIsRestored(outcome);
    hide ResultValue, Restored, ResultObject, MetaReadable, BodyAsRead;
  }

  /**
   A response carries the identifier of its request, and the value or the error of its handler. It
   is readable exactly when it is not nested too deeply and the `_meta` of its result is an object,
   null, or absent.
   */
  lemma ResponseCarriesResult(id: RequestId, outcome: Outcome)
    requires IdentTyped(id) && OutcomeTyped(outcome)
    ensures match Parse(Render(JsonrpcResponse(id, outcome)))
      case Success(r) => Readable(id, outcome) && Carries(id, outcome, r)
      case Failure(_) => !Readable(id, outcome)
  {
    ResponseIsTyped(id, outcome);
    ParseInvertsRender(JsonrpcResponse(id, outcome));
    ResponseAsRead(id, outcome);
    hide Parse, Render, AsRead, Carries, MetaReadable, JsonrpcResponse, MessageJson, Depth;
  }
}
