/**
 Typed notifications, the JSON-RPC notifications that carry them, and the round trip.

 The two notification enums of the source share three variants. They are one type here, with a
 predicate for each enum.
 */
module Notifications {
  import opened Bytes
  import opened Json
  import opened JsonGrammar
  import opened JsonReader
  import opened JsonLaws
  import opened Message

  /** A 64-bit float: finite, as the literal it prints as, or an infinity or not a number. */
  datatype F64 = Finite(literal: Bytes) | NonFinite

  datatype LoggingLevel = Debug | Info | Notice | Warning | Error | Critical | Alert | Emergency

  datatype TaskStatus = Working | InputRequired | Completed | Failed | TaskCancelled

  datatype Task = Task(
    taskId: Bytes, status: TaskStatus, statusMessage: Option<Bytes>, createdAt: Bytes, lastUpdatedAt: Bytes,
    ttl: Option<nat>, pollInterval: Option<nat>)

  type Meta = Option<seq<Field>>

  datatype TypedNotification =
    | Cancelled(requestId: Option<RequestId>, reason: Option<Bytes>, meta: Meta)
    | Progress(token: ProgressToken, progress: F64, total: Option<F64>, message: Option<Bytes>, meta: Meta)
    | LoggingMessage(level: LoggingLevel, logger: Option<Bytes>, data: Json, meta: Meta)
    | ResourceUpdated(uri: Bytes, meta: Meta)
    | ResourceListChanged(meta: Meta)
    | ToolListChanged(meta: Meta)
    | PromptListChanged(meta: Meta)
    | ElicitationComplete(elicitationId: Bytes)
    | TaskStatusChanged(task: Task, meta: Meta)
    | Initialized(meta: Meta)
    | RootsListChanged(meta: Meta)

  datatype Side = Server | Client

  /** The variants of each enum. */
  predicate Sends(side: Side, n: TypedNotification) {
    match n
    case Cancelled(_, _, _) => true
    case Progress(_, _, _, _, _) => true
    case TaskStatusChanged(_, _) => true
    case Initialized(_) => side == Client
    case RootsListChanged(_) => side == Client
    case _ => side == Server
  }

  datatype TypedResult = Typed(notification: TypedNotification) | MethodNotFound | InvalidParams

  // ----- the two tables of method names -----

  /** The method name that the notification trait reports. */
  function MethodName(n: TypedNotification): Bytes {
    match n
    case ToolListChanged(_) => "notifications/tools/list_changed"
    case ResourceListChanged(_) => "notifications/resources/list_changed"
    case PromptListChanged(_) => "notifications/prompts/list_changed"
    case ElicitationComplete(_) => "notifications/elicitation/complete"
    case TaskStatusChanged(_, _) => "notifications/tasks/status"
    case ResourceUpdated(_, _) => "notifications/resources/updated"
    case LoggingMessage(_, _, _, _) => "notifications/message"
    case Progress(_, _, _, _, _) => "notifications/progress"
    case Cancelled(_, _, _) => "notifications/cancelled"
    case Initialized(_) => "notifications/initialized"
    case RootsListChanged(_) => "notifications/roots/list_changed"
  }

  /** The serde tags of the variants. */
  datatype Tag =
    | CancelledTag | ProgressTag | MessageTag | UpdatedTag | ResourcesTag | ToolsTag | PromptsTag
    | ElicitationTag | TaskTag | InitializedTag | RootsTag

  function TagText(t: Tag): Bytes {
    match t
    case CancelledTag => "notifications/cancelled"
    case ProgressTag => "notifications/progress"
    case MessageTag => "notifications/message"
    case UpdatedTag => "notifications/resources/updated"
    case ResourcesTag => "notifications/resources/list_changed"
    case ToolsTag => "notifications/tools/list_changed"
    case PromptsTag => "notifications/prompts/list_changed"
    case ElicitationTag => "notifications/elicitation/complete"
    case TaskTag => "notifications/tasks/status"
    case InitializedTag => "notifications/initialized"
    case RootsTag => "notifications/roots/list_changed"
  }

  function TagOf(n: TypedNotification): Tag {
    match n
    case Cancelled(_, _, _) => CancelledTag
    case Progress(_, _, _, _, _) => ProgressTag
    case LoggingMessage(_, _, _, _) => MessageTag
    case ResourceUpdated(_, _) => UpdatedTag
    case ResourceListChanged(_) => ResourcesTag
    case ToolListChanged(_) => ToolsTag
    case PromptListChanged(_) => PromptsTag
    case ElicitationComplete(_) => ElicitationTag
    case TaskStatusChanged(_, _) => TaskTag
    case Initialized(_) => InitializedTag
    case RootsListChanged(_) => RootsTag
  }

  predicate Knows(side: Side, t: Tag) {
    match t
    case CancelledTag => true
    case ProgressTag => true
    case TaskTag => true
    case InitializedTag => side == Client
    case RootsTag => side == Client
    case _ => side == Server
  }

  /** The variant of an enum that a method names. */
  function FindTag(side: Side, name: Bytes): Option<Tag> {
    if name == TagText(CancelledTag) then Some(CancelledTag)
    else if name == TagText(ProgressTag) then Some(ProgressTag)
    else if name == TagText(TaskTag) then Some(TaskTag)
    else if side == Client then
      if name == TagText(InitializedTag) then Some(InitializedTag)
      else if name == TagText(RootsTag) then Some(RootsTag)
      else None
    else if name == TagText(MessageTag) then Some(MessageTag)
    else if name == TagText(UpdatedTag) then Some(UpdatedTag)
    else if name == TagText(ResourcesTag) then Some(ResourcesTag)
    else if name == TagText(ToolsTag) then Some(ToolsTag)
    else if name == TagText(PromptsTag) then Some(PromptsTag)
    else if name == TagText(ElicitationTag) then Some(ElicitationTag)
    else None
  }

  // ----- writing -----

  /** One field of a struct, which is skipped when it has no value. */
  datatype Slot = Slot(key: Bytes, value: Option<Json>)

  function Written(slots: seq<Slot>): seq<Field> {
    if slots == [] then [] else Optional(slots[0].key, slots[0].value) + Written(slots[1..])
  }

  function StrOf(s: Option<Bytes>): Option<Json> { match s case None => None case Some(t) => Some(Str(t)) }
  function IdentOf(i: Option<Ident>): Option<Json> { match i case None => None case Some(t) => Some(IdentJson(t)) }
  function IntOf(i: Option<nat>): Option<Json> { match i case None => None case Some(n) => Some(Int(n)) }
  function MapOf(m: Meta): Option<Json> { match m case None => None case Some(f) => Some(Obj(f)) }

  /** A float that is not finite has no JSON form and is written as null. */
  function F64Json(x: F64): Json { match x case Finite(literal) => Float(literal) case NonFinite => Null }
  function F64Of(x: Option<F64>): Option<Json> { match x case None => None case Some(f) => Some(F64Json(f)) }

  function LevelText(l: LoggingLevel): Bytes {
    match l
    case Debug => "debug" case Info => "info" case Notice => "notice" case Warning => "warning"
    case Error => "error" case Critical => "critical" case Alert => "alert" case Emergency => "emergency"
  }

  function StatusText(s: TaskStatus): Bytes {
    match s
    case Working => "working" case InputRequired => "input_required" case Completed => "completed"
    case Failed => "failed" case TaskCancelled => "cancelled"
  }

  function Slots(n: TypedNotification): seq<Slot> {
    match n
    case Cancelled(id, reason, meta) =>
      [Slot("requestId", IdentOf(id)), Slot("reason", StrOf(reason)), Slot(META, MapOf(meta))]
    case Progress(token, progress, total, message, meta) =>
      [Slot(PROGRESS_TOKEN, Some(IdentJson(token))), Slot("progress", Some(F64Json(progress))),
       Slot("total", F64Of(total)), Slot("message", StrOf(message)), Slot(META, MapOf(meta))]
    case LoggingMessage(level, logger, data, meta) =>
      [Slot("level", Some(Str(LevelText(level)))), Slot("logger", StrOf(logger)), Slot("data", Some(data)),
       Slot(META, MapOf(meta))]
    case ResourceUpdated(uri, meta) => [Slot("uri", Some(Str(uri))), Slot(META, MapOf(meta))]
    case ElicitationComplete(id) => [Slot("elicitationId", Some(Str(id)))]
    case TaskStatusChanged(t, meta) =>
      [Slot("taskId", Some(Str(t.taskId))), Slot("status", Some(Str(StatusText(t.status)))),
       Slot("statusMessage", StrOf(t.statusMessage)), Slot("createdAt", Some(Str(t.createdAt))),
       Slot("lastUpdatedAt", Some(Str(t.lastUpdatedAt))),
       Slot("ttl", Some(match t.ttl case None => Null case Some(ms) => Int(ms))),
       Slot("pollInterval", IntOf(t.pollInterval)), Slot(META, MapOf(meta))]
    case _ => [Slot(META, MapOf(n.meta))]
  }

  /** The object that the notification serializes to: its tag and its fields, by key. */
  function Serialized(n: TypedNotification): seq<Field> {
    Extend([], [Field("method", Str(TagText(TagOf(n))))] + Written(Slots(n)))
  }

  /** The JSON-RPC notification that carries a serialized object: its metadata has its own place. */
  function Envelope(name: Bytes, fields: seq<Field>): (m: JSONRPCMessage)
    ensures m.Notification? && m.methodName == name
  {
    var rest := Remove(fields, "method");
    var meta := match Get(rest, META) case Some(Obj(m)) => Some(m) case _ => None;
    var other := Remove(rest, META);
    Notification(VERSION, name, if other == [] && meta == None then None else Some(NotificationParams(meta, other)))
  }

  function MetaOf(n: TypedNotification): Meta { if n.ElicitationComplete? then None else n.meta }

  /**
   The metadata of a notification has its own place in the params, and every other slot is a field
   there. A notification without any value has no params.
   */
  ghost predicate HasPlaces(n: TypedNotification, params: Option<NotificationParams>) {
    match params
    case None => forall i :: 0 <= i < |Slots(n)| ==> Slots(n)[i].value == None
    case Some(p) =>
      && (exists i :: 0 <= i < |Slots(n)| && Slots(n)[i].value.Some?)
      && p.meta == MetaOf(n) && Get(p.other, META) == None
      && (forall i :: 0 <= i < |Slots(n)| && Slots(n)[i].key != META ==> Get(p.other, Slots(n)[i].key) == Slots(n)[i].value)
      && (forall k :: !HasSlot(Slots(n), k) ==> Get(p.other, k) == None)
  }

  /** What is left of an object without its tag and its metadata. */
  lemma OtherReads(o: seq<Field>)
    requires Sorted(o)
    ensures var other := Remove(Remove(o, "method"), META);
      && (other != [] <==> exists k :: Get(other, k).Some?)
      && (forall k :: Get(other, k) == if k == "method" || k == META then None else Get(o, k))
    ensures Get(Remove(o, "method"), META) == Get(o, META)
  {
    assert |"method"| != |META|;
    RemoveIsErase(o, "method");
    RemoveIsErase(Remove(o, "method"), META);
    var other := Remove(Remove(o, "method"), META);
    if other != [] {
      assert Get(other, other[0].key).Some?;
    }
    hide Remove;
  }

  /** Some value is left, or the metadata is there, exactly when some slot has a value. */
  lemma SomeSlotHasValue(o: seq<Field>, slots: seq<Slot>)
    requires Sorted(o) && !HasSlot(slots, "method")
    requires forall i :: 0 <= i < |slots| ==> Get(o, slots[i].key) == slots[i].value
    requires forall k :: k != "method" && !HasSlot(slots, k) ==> Get(o, k) == None
    ensures Remove(Remove(o, "method"), META) != [] || Get(o, META).Some?
       <==> exists i :: 0 <= i < |slots| && slots[i].value.Some?
  {
    OtherReads(o);
    var other := Remove(Remove(o, "method"), META);
    hide Remove, Sorted;
    if i :| 0 <= i < |slots| && slots[i].value.Some? {
      assert HasSlot(slots, slots[i].key);
      assert Get(o, slots[i].key).Some? && slots[i].key != "method";
      assert slots[i].key != META ==> Get(other, slots[i].key).Some?;
    }
    if k :| Get(o, k).Some? && k != "method" {
      assert HasSlot(slots, k);
    }
    hide Get;
  }

  /** The fields of the params: everything but the tag and the metadata. */
  function Others(n: TypedNotification): seq<Field> { Remove(Remove(Serialized(n), "method"), META) }

  lemma EnvelopeParams(n: TypedNotification)
    ensures Envelope(MethodName(n), Serialized(n)).noteParams
         == if Others(n) == [] && MetaOf(n) == None then None else Some(NotificationParams(MetaOf(n), Others(n)))
  {
    MetaIsKept(n);
    hide Serialized, MethodName, Remove, Get;
  }

  lemma MetaIsKept(n: TypedNotification)
    ensures Get(Remove(Serialized(n), "method"), META) == MapOf(MetaOf(n))
  {
    SerializedReads(n);
    MetaSlot(n);
    OtherReads(Serialized(n));
    hide Serialized, Slots, Sorted, Remove, Get, HasSlot;
  }

  lemma OthersRead(n: TypedNotification)
    ensures Get(Others(n), META) == None
    ensures forall i :: 0 <= i < |Slots(n)| && Slots(n)[i].key != META ==> Get(Others(n), Slots(n)[i].key) == Slots(n)[i].value
    ensures forall k :: !HasSlot(Slots(n), k) ==> Get(Others(n), k) == None
  {
    var o, slots := Serialized(n), Slots(n);
    SerializedReads(n);
    SlotsAreDistinct(n);
    OtherReads(o);
    hide Serialized, Slots, Sorted, Get, Remove, DistinctSlots;
    forall i | 0 <= i < |slots| && slots[i].key != META ensures Get(Others(n), slots[i].key) == slots[i].value {
      assert HasSlot(slots, slots[i].key);
    }
    hide HasSlot;
  }

  lemma OthersExist(n: TypedNotification)
    ensures Others(n) != [] || MetaOf(n).Some? <==> exists i :: 0 <= i < |Slots(n)| && Slots(n)[i].value.Some?
  {
    SerializedReads(n);
    SlotsAreDistinct(n);
    MetaSlot(n);
    SomeSlotHasValue(Serialized(n), Slots(n));
    hide Serialized, Slots, Sorted, Get, Remove, DistinctSlots, HasSlot;
  }

  lemma EnvelopeHasPlaces(n: TypedNotification)
    ensures HasPlaces(n, Envelope(MethodName(n), Serialized(n)).noteParams)
  {
    EnvelopeParams(n);
    OthersRead(n);
    OthersExist(n);
    hide Envelope, Serialized, MethodName, Slots, Others, MetaOf, Get, HasSlot;
  }

  lemma MetaSlot(n: TypedNotification)
    ensures Get(Serialized(n), META) == MapOf(MetaOf(n))
    ensures n.ElicitationComplete? ==> !HasSlot(Slots(n), META)
    ensures !n.ElicitationComplete? ==> Slots(n)[|Slots(n)| - 1] == Slot(META, MapOf(n.meta)) && |Slots(n)| > 0
  {
    SerializedReads(n);
    var slots := Slots(n);
    if n.ElicitationComplete? {
      assert |slots[0].key| != |META| && |"method"| != |META|;
    } else {
      assert slots[|slots| - 1] == Slot(META, MapOf(n.meta));
    }
  }

  /** Serialize, and move the tag and the metadata to their places in the envelope. */
  method CreateJsonrpcNotification(n: TypedNotification) returns (r: JSONRPCMessage)
    ensures r.Notification? && r.jsonrpc == "2.0" && r.methodName == MethodName(n)
    ensures HasPlaces(n, r.noteParams)
    ensures r == Envelope(MethodName(n), Serialized(n))
  {
    EnvelopeHasPlaces(n);
    hide HasPlaces, Serialized, MethodName;
    var fields := Serialized(n);
    fields := Remove(fields, "method");
    var meta: Option<seq<Field>> := None;
    match Get(fields, META) {
      case Some(Obj(m)) => meta := Some(m);
      case _ =>
    }
    fields := Remove(fields, META);
    if fields == [] && meta == None {
      return Notification(VERSION, MethodName(n), None);
    }
    return Notification(VERSION, MethodName(n), Some(NotificationParams(meta, fields)));
  }

  // ----- reading -----

  function ReadF64(j: Json): Option<F64> {
    match j
    case Float(literal) => Some(Finite(literal))
    case Int(n) => Some(Finite(PrintInt(n) + ".0"))
    case _ => None
  }

  function ReadStr(j: Json): Option<Bytes> { match j case Str(s) => Some(s) case _ => None }

  function ReadU64(j: Json): Option<nat> { match j case Int(n) => if n >= 0 then Some(n) else None case _ => None }

  function ReadLevel(j: Json): Option<LoggingLevel> {
    match j
    case Str(s) =>
      if s == "debug" then Some(Debug) else if s == "info" then Some(Info)
      else if s == "notice" then Some(Notice) else if s == "warning" then Some(Warning)
      else if s == "error" then Some(Error) else if s == "critical" then Some(Critical)
      else if s == "alert" then Some(Alert) else if s == "emergency" then Some(Emergency) else None
    case _ => None
  }

  function ReadStatus(j: Json): Option<TaskStatus> {
    match j
    case Str(s) =>
      if s == "working" then Some(Working) else if s == "input_required" then Some(InputRequired)
      else if s == "completed" then Some(Completed) else if s == "failed" then Some(Failed)
      else if s == "cancelled" then Some(TaskCancelled) else None
    case _ => None
  }

  /** A field that must be present. */
  function ReadRequired<T>(j: Option<Json>, read: Json -> Option<T>): Option<T> {
    match j case None => None case Some(v) => read(v)
  }

  function ReadCancelled(o: seq<Field>, meta: Meta): Option<TypedNotification> {
    match (ReadOptional(Get(o, "requestId"), ReadIdent), ReadOptional(Get(o, "reason"), ReadStr))
    case (Some(id), Some(reason)) => Some(Cancelled(id, reason, meta))
    case _ => None
  }

  function ReadProgress(o: seq<Field>, meta: Meta): Option<TypedNotification> {
    match (ReadRequired(Get(o, PROGRESS_TOKEN), ReadIdent), ReadRequired(Get(o, "progress"), ReadF64),
           ReadOptional(Get(o, "total"), ReadF64), ReadOptional(Get(o, "message"), ReadStr))
    case (Some(token), Some(progress), Some(total), Some(message)) => Some(Progress(token, progress, total, message, meta))
    case _ => None
  }

  function ReadLogging(o: seq<Field>, meta: Meta): Option<TypedNotification> {
    match (ReadRequired(Get(o, "level"), ReadLevel), ReadOptional(Get(o, "logger"), ReadStr), Get(o, "data"))
    case (Some(level), Some(logger), Some(data)) => Some(LoggingMessage(level, logger, data, meta))
    case _ => None
  }

  function ReadTask(o: seq<Field>, meta: Meta): Option<TypedNotification> {
    match (ReadRequired(Get(o, "taskId"), ReadStr), ReadRequired(Get(o, "status"), ReadStatus),
           ReadOptional(Get(o, "statusMessage"), ReadStr), ReadRequired(Get(o, "createdAt"), ReadStr),
           ReadRequired(Get(o, "lastUpdatedAt"), ReadStr), ReadOptional(Get(o, "ttl"), ReadU64),
           ReadOptional(Get(o, "pollInterval"), ReadU64))
    case (Some(id), Some(status), Some(text), Some(created), Some(updated), Some(ttl), Some(poll)) =>
      Some(TaskStatusChanged(Task(id, status, text, created, updated, ttl, poll), meta))
    case _ => None
  }

  function ReadVariant(t: Tag, o: seq<Field>): Option<TypedNotification> {
    if t == ElicitationTag then
      match ReadRequired(Get(o, "elicitationId"), ReadStr)
      case None => None case Some(id) => Some(ElicitationComplete(id))
    else
      match ReadOptional(Get(o, META), ReadMap)
      case None => None
      case Some(meta) =>
        match t
        case CancelledTag => ReadCancelled(o, meta)
        case ProgressTag => ReadProgress(o, meta)
        case MessageTag => ReadLogging(o, meta)
        case UpdatedTag =>
          (match ReadRequired(Get(o, "uri"), ReadStr) case None => None case Some(uri) => Some(ResourceUpdated(uri, meta)))
        case ResourcesTag => Some(ResourceListChanged(meta))
        case ToolsTag => Some(ToolListChanged(meta))
        case PromptsTag => Some(PromptListChanged(meta))
        case TaskTag => ReadTask(o, meta)
        case InitializedTag => Some(Initialized(meta))
        case RootsTag => Some(RootsListChanged(meta))
        case ElicitationTag => None
  }

  function FromObject(side: Side, o: seq<Field>): TypedResult {
    match Get(o, "method")
    case Some(Str(name)) =>
      (match FindTag(side, name)
       case None => MethodNotFound
       case Some(t) => match ReadVariant(t, o) case None => InvalidParams case Some(n) => Typed(n))
    case _ => InvalidParams
  }

  /** The object that a typed notification deserializes from. */
  function Rebuilt(n: JSONRPCMessage): seq<Field>
    requires n.Notification?
  {
    var tagged := Insert([], "method", Str(n.methodName));
    match n.noteParams
    case None => tagged
    case Some(p) => Extend(match p.meta case None => tagged case Some(m) => Insert(tagged, META, Obj(m)), p.other)
  }

  /** Put the tag and the metadata back into one object, and read the variant that the tag names. */
  method ParseTypedNotification(side: Side, n: JSONRPCMessage) returns (r: TypedResult)
    requires n.Notification?
    ensures NoteTyped(n) ==> forall t :: r == Typed(t) <==> Understood(side, Rebuilt(n), t)
    ensures NoteTyped(n) ==> (r.MethodNotFound? <==> UnknownMethod(side, Rebuilt(n)))
    ensures r == FromObject(side, Rebuilt(n))
  {
    if NoteTyped(n) {
      RebuiltIsInRange(n, "progress");
      RebuiltIsInRange(n, "total");
      ObjectIsExact(side, Rebuilt(n));
    }
    hide Understood, UnknownMethod, FromObject;
    var fields := Insert([], "method", Str(n.methodName));
    if n.noteParams.Some? {
      if n.noteParams.value.meta.Some? {
        fields := Insert(fields, META, Obj(n.noteParams.value.meta.value));
      }
      fields := Extend(fields, n.noteParams.value.other);
    }
    return FromObject(side, fields);
  }

  // ----- which objects are read as what -----

  /** What the Rust types guarantee of a notification that came over the wire. */
  predicate NoteTyped(m: JSONRPCMessage)
    requires m.Notification?
  {
    m.noteParams.Some? ==>
      MapTyped(m.noteParams.value.other) && (m.noteParams.value.meta.Some? ==> MapTyped(m.noteParams.value.meta.value))
  }

  /** The tagged object that the parse starts from: params before metadata before the method. */
  function Member(m: JSONRPCMessage, key: Bytes): Option<Json>
    requires m.Notification?
  {
    var param := match m.noteParams case None => None case Some(p) => Get(p.other, key);
    if param.Some? then param
    else if key == META && m.noteParams.Some? && m.noteParams.value.meta.Some? then Some(Obj(m.noteParams.value.meta.value))
    else if key == "method" then Some(Str(m.methodName))
    else None
  }

  /** The object that the parse puts together answers every key so. */
  lemma RebuiltReads(m: JSONRPCMessage)
    requires m.Notification? && (m.noteParams.Some? ==> Sorted(m.noteParams.value.other))
    ensures Sorted(Rebuilt(m)) && forall k :: Get(Rebuilt(m), k) == Member(m, k)
  {
    assert |"method"| != |META|;
    var tagged := Insert([], "method", Str(m.methodName));
    InsertIsUpdate([], "method", Str(m.methodName));
    if m.noteParams.Some? {
      var p := m.noteParams.value;
      if p.meta.Some? {
        InsertIsUpdate(tagged, META, Obj(p.meta.value));
      }
      var base := if p.meta.Some? then Insert(tagged, META, Obj(p.meta.value)) else tagged;
      SortedIsDistinct(p.other);
      ExtendIsOverlay(base, p.other);
      hide Sorted, Get, Insert, Extend;
      assert Rebuilt(m) == Extend(base, p.other);
    }
    hide Sorted, Insert, Extend;
  }

  /** The numbers of a notification that came over the wire are those that a `Value` can hold. */
  lemma RebuiltIsInRange(m: JSONRPCMessage, key: Bytes)
    requires m.Notification? && NoteTyped(m)
    ensures IntInRange(Get(Rebuilt(m), key))
  {
    RebuiltReads(m);
    if m.noteParams.Some? {
      TypedIsInRange(m.noteParams.value.other, key);
    }
  }

  /** A field that may be missing, and is then missing or null. */
  predicate Absent(o: seq<Field>, key: Bytes) { Get(o, key) == None || Get(o, key) == Some(Null) }

  predicate Has(o: seq<Field>, key: Bytes, value: Json) { Get(o, key) == Some(value) }

  predicate HasOptional(o: seq<Field>, key: Bytes, value: Option<Json>) {
    match value case None => Absent(o, key) case Some(v) => Has(o, key, v)
  }

  /** The literal is a float that denotes the whole number: digits and a fraction of zero. */
  predicate DenotesWhole(literal: Bytes, n: int) {
    && |literal| > 2 && literal[|literal| - 2..] == ".0" && FloatLiteral(literal)
    && ReadNumber(literal[..|literal| - 2]) == Some(Int(n))
  }

  /** A number field: a float as its literal, and an integer as a float of the same value. */
  predicate HasNumber(o: seq<Field>, key: Bytes, x: F64) {
    && x.Finite?
    && match Get(o, key)
       case Some(Float(literal)) => x.literal == literal
       case Some(Int(n)) => DenotesWhole(x.literal, n)
       case _ => false
  }

  predicate IdentInRange(id: Ident) { id.Number? ==> id.number <= MAX_I64 }

  predicate HasIdent(o: seq<Field>, key: Bytes, id: Ident) { Has(o, key, IdentJson(id)) && IdentInRange(id) }

  predicate HasOptionalIdent(o: seq<Field>, key: Bytes, id: Option<Ident>) {
    match id case None => Absent(o, key) case Some(i) => HasIdent(o, key, i)
  }

  predicate HasOptionalNumber(o: seq<Field>, key: Bytes, x: Option<F64>) {
    match x case None => Absent(o, key) case Some(f) => HasNumber(o, key, f)
  }

  predicate SaysProgress(o: seq<Field>, n: TypedNotification)
    requires n.Progress?
  {
    && HasIdent(o, PROGRESS_TOKEN, n.token) && HasNumber(o, "progress", n.progress)
    && HasOptionalNumber(o, "total", n.total) && HasOptional(o, "message", StrOf(n.message))
  }

  predicate SaysTask(o: seq<Field>, t: Task) {
    && Has(o, "taskId", Str(t.taskId)) && Has(o, "status", Str(StatusText(t.status)))
    && HasOptional(o, "statusMessage", StrOf(t.statusMessage)) && Has(o, "createdAt", Str(t.createdAt))
    && Has(o, "lastUpdatedAt", Str(t.lastUpdatedAt))
    && HasOptional(o, "ttl", IntOf(t.ttl)) && HasOptional(o, "pollInterval", IntOf(t.pollInterval))
  }

  predicate SaysFields(o: seq<Field>, n: TypedNotification) {
    match n
    case Cancelled(id, reason, _) => HasOptionalIdent(o, "requestId", id) && HasOptional(o, "reason", StrOf(reason))
    case Progress(_, _, _, _, _) => SaysProgress(o, n)
    case LoggingMessage(level, logger, data, _) =>
      Has(o, "level", Str(LevelText(level))) && HasOptional(o, "logger", StrOf(logger)) && Has(o, "data", data)
    case ResourceUpdated(uri, _) => Has(o, "uri", Str(uri))
    case ElicitationComplete(id) => Has(o, "elicitationId", Str(id))
    case TaskStatusChanged(t, _) => SaysTask(o, t)
    case _ => true
  }

  /** The object has the fields of the notification, and its metadata. Other fields do not matter. */
  predicate Says(o: seq<Field>, n: TypedNotification) {
    (!n.ElicitationComplete? ==> HasOptional(o, META, MapOf(n.meta))) && SaysFields(o, n)
  }

  predicate Understood(side: Side, o: seq<Field>, n: TypedNotification) {
    Sends(side, n) && Has(o, "method", Str(MethodName(n))) && Says(o, n)
  }

  /** The object names a method that is no variant of the side. */
  ghost predicate UnknownMethod(side: Side, o: seq<Field>) {
    match Get(o, "method")
    case Some(Str(name)) => forall t :: Knows(side, t) ==> TagText(t) != name
    case _ => false
  }

  /** A whole number with a fraction of zero is a float. */
  lemma FractionOfZero(t: Bytes)
    requires t != [] && IntegerPart(Unsigned(t))
    ensures FloatLiteral(t + ".0")
  {
    var sign := SignedParts(t);
    hide FloatLiteral, Unsigned, IntegerPart;
    assert FractionText(".0");
    assert sign + Unsigned(t) + ".0" + [] == t + ".0";
    PartsAreLiteral(sign, Unsigned(t), ".0", []);
  }

  lemma WholeIsFloat(n: int)
    requires InRange(n)
    ensures DenotesWhole(PrintInt(n) + ".0", n)
  {
    var t := PrintInt(n);
    PrintedInteger(n);
    NumberReads(Int(n), t);
    FractionOfZero(t);
    hide ReadNumber, FloatLiteral, PrintInt, Unsigned, IntegerPart, NumberBytes, ReadNat;
    assert (t + ".0")[..|t|] == t;
  }

  lemma WholeIsOneFloat(literal: Bytes, n: int)
    requires DenotesWhole(literal, n)
    ensures literal == PrintInt(n) + ".0"
  {
    hide FloatLiteral, PrintInt;
    var t := literal[..|literal| - 2];
    IntegerIsPrinted(t, n);
    hide ReadNumber;
    SplitAt(literal, |literal| - 2);
  }

  lemma IntegerIsPrinted(t: Bytes, n: int)
    requires t != [] && ReadNumber(t) == Some(Int(n))
    ensures t == PrintInt(n)
  {
    ReadNumberIsText(t);
    hide ReadNumber, PrintInt;
  }

  lemma IntegersAreInRange(o: seq<Field>, key: Bytes, n: int)
    requires MapTyped(o) && Get(o, key) == Some(Int(n))
    ensures InRange(n)
  {
    GetMember(o, key);
    var i :| 0 <= i < |o| && o[i] == Field(key, Int(n));
    assert Valid(o[i].value);
  }

  predicate IntInRange(j: Option<Json>) {
    match j case Some(Int(n)) => InRange(n) case _ => true
  }

  /** The integers of a progress notification are those that a `Value` can hold. */
  predicate NumbersInRange(o: seq<Field>) { IntInRange(Get(o, "progress")) && IntInRange(Get(o, "total")) }

  lemma TypedIsInRange(o: seq<Field>, key: Bytes)
    requires MapTyped(o)
    ensures IntInRange(Get(o, key))
  {
    match Get(o, key) {
      case Some(Int(n)) => IntegersAreInRange(o, key, n);
      case _ =>
    }
  }

  lemma NumberSays(o: seq<Field>, key: Bytes, x: F64)
    requires IntInRange(Get(o, key))
    ensures ReadRequired(Get(o, key), ReadF64) == Some(x) <==> HasNumber(o, key, x)
    ensures ReadOptional(Get(o, key), ReadF64) == Some(Some(x)) <==> HasNumber(o, key, x)
    ensures ReadOptional(Get(o, key), ReadF64) == Some(None) <==> Absent(o, key)
  {
    hide DenotesWhole, PrintInt;
    match Get(o, key) {
      case Some(Int(n)) =>
        WholeIsFloat(n);
        if x.Finite? && DenotesWhole(x.literal, n) {
          WholeIsOneFloat(x.literal, n);
        }
      case _ =>
    }
  }

  lemma LevelIsText(j: Json, l: LoggingLevel)
    ensures ReadLevel(j) == Some(l) <==> j == Str(LevelText(l))
  {
    LevelReads(l);
  }

  lemma StatusIsText(j: Json, s: TaskStatus)
    ensures ReadStatus(j) == Some(s) <==> j == Str(StatusText(s))
  {
    StatusReads(s);
  }

  lemma FieldsSay(o: seq<Field>, key: Bytes)
    ensures forall id :: ReadRequired(Get(o, key), ReadIdent) == Some(id) <==> HasIdent(o, key, id)
    ensures forall id :: ReadOptional(Get(o, key), ReadIdent) == Some(id) <==> HasOptionalIdent(o, key, id)
    ensures forall s :: ReadRequired(Get(o, key), ReadStr) == Some(s) <==> Has(o, key, Str(s))
    ensures forall s :: ReadOptional(Get(o, key), ReadStr) == Some(s) <==> HasOptional(o, key, StrOf(s))
    ensures forall n :: ReadOptional(Get(o, key), ReadU64) == Some(n) <==> HasOptional(o, key, IntOf(n))
    ensures forall m :: ReadOptional(Get(o, key), ReadMap) == Some(m) <==> HasOptional(o, key, MapOf(m))
  {
    hide Get;
  }

  lemma CancelledSays(o: seq<Field>, meta: Meta, n: TypedNotification)
    ensures ReadCancelled(o, meta) == Some(n) <==> n.Cancelled? && n.meta == meta && SaysFields(o, n)
  {
    FieldsSay(o, "requestId");
    FieldsSay(o, "reason");
    hide Get, ReadIdent, ReadStr, ReadOptional, HasOptional, HasOptionalIdent;
  }

  lemma ProgressSays(o: seq<Field>, meta: Meta, n: TypedNotification)
    requires NumbersInRange(o)
    ensures ReadProgress(o, meta) == Some(n) <==> n.Progress? && n.meta == meta && SaysFields(o, n)
  {
    FieldsSay(o, PROGRESS_TOKEN);
    FieldsSay(o, "message");
    NumbersSay(o, "progress");
    NumbersSay(o, "total");
    hide Get, ReadIdent, ReadStr, ReadF64, ReadOptional, ReadRequired, HasOptional, HasNumber, HasIdent, HasOptionalNumber;
  }

  lemma NumbersSay(o: seq<Field>, key: Bytes)
    requires IntInRange(Get(o, key))
    ensures forall x :: ReadRequired(Get(o, key), ReadF64) == Some(x) <==> HasNumber(o, key, x)
    ensures forall x :: ReadOptional(Get(o, key), ReadF64) == Some(x) <==> HasOptionalNumber(o, key, x)
  {
    forall x ensures ReadRequired(Get(o, key), ReadF64) == Some(x) <==> HasNumber(o, key, x) {
      NumberSays(o, key, x);
    }
    forall x ensures ReadOptional(Get(o, key), ReadF64) == Some(x) <==> HasOptionalNumber(o, key, x) {
      NumberSays(o, key, match x case None => NonFinite case Some(f) => f);
    }
  }

  lemma LoggingSays(o: seq<Field>, meta: Meta, n: TypedNotification)
    ensures ReadLogging(o, meta) == Some(n) <==> n.LoggingMessage? && n.meta == meta && SaysFields(o, n)
  {
    FieldsSay(o, "logger");
    if Get(o, "level").Some? {
      forall l ensures ReadLevel(Get(o, "level").value) == Some(l) <==> Get(o, "level").value == Str(LevelText(l)) {
        LevelIsText(Get(o, "level").value, l);
      }
    }
    hide Get, ReadLevel, ReadStr, ReadOptional, HasOptional, LevelText;
  }

  lemma TaskSays(o: seq<Field>, meta: Meta, n: TypedNotification)
    ensures ReadTask(o, meta) == Some(n) <==> n.TaskStatusChanged? && n.meta == meta && SaysFields(o, n)
  {
    FieldsSay(o, "taskId");
    FieldsSay(o, "statusMessage");
    FieldsSay(o, "createdAt");
    FieldsSay(o, "lastUpdatedAt");
    FieldsSay(o, "ttl");
    FieldsSay(o, "pollInterval");
    StatusSays(o);
    hide Get, ReadStatus, ReadStr, ReadU64, ReadOptional, ReadRequired, HasOptional, Has, StatusText;
  }

  lemma StatusSays(o: seq<Field>)
    ensures forall s :: ReadRequired(Get(o, "status"), ReadStatus) == Some(s) <==> Has(o, "status", Str(StatusText(s)))
  {
    if Get(o, "status").Some? {
      forall s ensures ReadStatus(Get(o, "status").value) == Some(s) <==> Get(o, "status").value == Str(StatusText(s)) {
        StatusIsText(Get(o, "status").value, s);
      }
    }
    hide Get, ReadStatus, StatusText;
  }

  predicate HasOwnReader(t: Tag) { t == CancelledTag || t == ProgressTag || t == MessageTag || t == TaskTag }

  lemma OwnReaderSays(t: Tag, o: seq<Field>, n: TypedNotification)
    requires HasOwnReader(t) && (t == ProgressTag ==> NumbersInRange(o))
    ensures ReadVariant(t, o) == Some(n) <==> TagOf(n) == t && Says(o, n)
  {
    FieldsSay(o, META);
    var meta := ReadOptional(Get(o, META), ReadMap);
    if meta.Some? {
      CancelledSays(o, meta.value, n);
      if t == ProgressTag {
        ProgressSays(o, meta.value, n);
      }
      LoggingSays(o, meta.value, n);
      TaskSays(o, meta.value, n);
    }
    hide Get, ReadMap, ReadOptional, HasOptional, ReadCancelled, ReadProgress, ReadLogging, ReadTask, SaysFields;
  }

  lemma SimpleSays(t: Tag, o: seq<Field>, n: TypedNotification)
    requires !HasOwnReader(t)
    ensures ReadVariant(t, o) == Some(n) <==> TagOf(n) == t && Says(o, n)
  {
    FieldsSay(o, META);
    FieldsSay(o, "uri");
    FieldsSay(o, "elicitationId");
    hide Get, ReadMap, ReadStr, ReadOptional, HasOptional, SaysProgress, SaysTask, HasOptionalIdent;
  }

  lemma VariantSays(t: Tag, o: seq<Field>, n: TypedNotification)
    requires t == ProgressTag ==> NumbersInRange(o)
    ensures ReadVariant(t, o) == Some(n) <==> TagOf(n) == t && Says(o, n)
  {
    if HasOwnReader(t) {
      OwnReaderSays(t, o, n);
    } else {
      SimpleSays(t, o, n);
    }
    hide ReadVariant, TagOf, Says;
  }

  /** An object is read as a notification exactly if it names the variant and has its fields. */
  lemma ObjectIsExact(side: Side, o: seq<Field>)
    requires Has(o, "method", Str(TagText(ProgressTag))) ==> NumbersInRange(o)
    ensures forall n :: FromObject(side, o) == Typed(n) <==> Understood(side, o, n)
    ensures FromObject(side, o).MethodNotFound? <==> UnknownMethod(side, o)
  {
    hide Says, ReadVariant, TagText, MethodName, FindTag, Sends, Knows, TagOf;
    forall t ensures if Knows(side, t) then FindTag(side, TagText(t)) == Some(t) else FindTag(side, TagText(t)) == None {
      if Knows(side, t) {
        TagIsFound(side, t);
      } else {
        TagIsNotFound(side, t);
      }
    }
    TagsDiffer();
    if Get(o, "method").Some? && Get(o, "method").value.Str? {
      FoundIsKnown(side, Get(o, "method").value.s);
    }
    forall n ensures FromObject(side, o) == Typed(n) <==> Understood(side, o, n) {
      TagsAgree(n);
      TagKnown(side, n);
      if Get(o, "method").Some? && Get(o, "method").value.Str? {
        var t := FindTag(side, Get(o, "method").value.s);
        if t.Some? {
          VariantSays(t.value, o, n);
        }
      }
    }
  }

  lemma FoundIsKnown(side: Side, name: Bytes)
    ensures match FindTag(side, name) case None => forall t :: Knows(side, t) ==> TagText(t) != name
                                      case Some(t) => Knows(side, t) && TagText(t) == name
  {
    FoundIsNamed(side, name);
    hide TagText, FindTag, Knows;
    forall t | Knows(side, t) ensures FindTag(side, TagText(t)) == Some(t) {
      TagIsFound(side, t);
    }
  }

  lemma FoundIsNamed(side: Side, name: Bytes)
    ensures FindTag(side, name).Some? ==> Knows(side, FindTag(side, name).value) && TagText(FindTag(side, name).value) == name
  {
    hide TagText;
  }

  /**
   A progress notification whose numbers are written as integers, as another program writes them, is
   read with floats that denote these integers.
   */
  lemma WholeProgressReads(side: Side, o: seq<Field>, token: Ident, meta: Meta, progress: int, total: int)
    returns (x: Bytes, y: Bytes)
    requires MapTyped(o) && Has(o, "method", Str("notifications/progress")) && HasIdent(o, PROGRESS_TOKEN, token)
    requires HasOptional(o, META, MapOf(meta)) && Absent(o, "message")
    requires Has(o, "progress", Int(progress)) && Has(o, "total", Int(total))
    ensures DenotesWhole(x, progress) && DenotesWhole(y, total)
    ensures FromObject(side, o) == Typed(Progress(token, Finite(x), Some(Finite(y)), None, meta))
  {
    hide *;
    x, y := PrintInt(progress) + ".0", PrintInt(total) + ".0";
    WholeIsSaid(o, token, meta, progress, total);
    ProgressIsUnderstood(side, o, Progress(token, Finite(x), Some(Finite(y)), None, meta));
  }

  lemma ProgressIsUnderstood(side: Side, o: seq<Field>, n: TypedNotification)
    requires MapTyped(o) && n.Progress? && Has(o, "method", Str("notifications/progress")) && Says(o, n)
    ensures FromObject(side, o) == Typed(n)
  {
    TypedIsInRange(o, "progress");
    TypedIsInRange(o, "total");
    assert NumbersInRange(o) && MethodName(n) == "notifications/progress" && Sends(side, n);
    hide MethodName, Sends, Says, NumbersInRange, TagText, FromObject, MapTyped, IntInRange, UnknownMethod, Has;
    ObjectIsExact(side, o);
  }

  lemma WholeIsSaid(o: seq<Field>, token: Ident, meta: Meta, progress: int, total: int)
    requires MapTyped(o) && HasIdent(o, PROGRESS_TOKEN, token)
    requires HasOptional(o, META, MapOf(meta)) && Absent(o, "message")
    requires Has(o, "progress", Int(progress)) && Has(o, "total", Int(total))
    ensures var x, y := PrintInt(progress) + ".0", PrintInt(total) + ".0";
      && DenotesWhole(x, progress) && DenotesWhole(y, total)
      && Says(o, Progress(token, Finite(x), Some(Finite(y)), None, meta))
  {
    WholeIsNumber(o, "progress", progress);
    WholeIsNumber(o, "total", total);
    hide DenotesWhole, PrintInt, Get, MapTyped, HasIdent, HasNumber;
  }

  lemma WholeIsNumber(o: seq<Field>, key: Bytes, n: int)
    requires MapTyped(o) && Has(o, key, Int(n))
    ensures DenotesWhole(PrintInt(n) + ".0", n) && HasNumber(o, key, Finite(PrintInt(n) + ".0"))
  {
    IntegersAreInRange(o, key, n);
    WholeIsFloat(n);
    hide DenotesWhole, PrintInt, Get;
  }

  predicate IsNumberOr(j: Option<Json>, otherwise: bool) {
    match j case Some(Int(_)) => true case Some(Float(_)) => true case _ => otherwise
  }

  /** Only an object with numbers in their places says a progress notification. */
  lemma ProgressIsOnlySaid(side: Side, o: seq<Field>)
    requires Has(o, "method", Str(TagText(ProgressTag)))
    requires !IsNumberOr(Get(o, "progress"), false) || !IsNumberOr(Get(o, "total"), Absent(o, "total"))
    ensures forall n :: !Understood(side, o, n)
  {
    TagsDiffer();
    forall n ensures !Understood(side, o, n) {
      TagsAgree(n);
      hide TagText, MethodName, Get, DenotesWhole;
    }
  }

  /** A progress that is no number is refused, and so is a total that is neither a number nor null. */
  lemma OddProgressIsRefused(side: Side, o: seq<Field>)
    requires MapTyped(o) && Has(o, "method", Str("notifications/progress"))
    requires !IsNumberOr(Get(o, "progress"), false) || !IsNumberOr(Get(o, "total"), Absent(o, "total"))
    ensures FromObject(side, o) == InvalidParams
  {
    TypedIsInRange(o, "progress");
    TypedIsInRange(o, "total");
    ObjectIsExact(side, o);
    assert Knows(side, ProgressTag) && TagText(ProgressTag) == "notifications/progress";
    ProgressIsOnlySaid(side, o);
    hide Understood, Knows, TagText, FromObject;
  }

  // ----- the round trip -----

  /** What the Rust types guarantee. */
  predicate TypedFields(n: TypedNotification) {
    && (!n.ElicitationComplete? ==> n.meta.Some? ==> MapTyped(n.meta.value))
    && match n
       case Cancelled(id, _, _) => id.Some? ==> IdentTyped(id.value)
       case Progress(token, progress, total, _, _) => IdentTyped(token)
       case LoggingMessage(_, _, data, _) => Valid(data)
       case TaskStatusChanged(t, _) =>
         && (t.ttl.Some? ==> t.ttl.value <= MAX_U64) && (t.pollInterval.Some? ==> t.pollInterval.value <= MAX_U64)
       case _ => true
  }

  predicate FiniteNumbers(n: TypedNotification) {
    n.Progress? ==> n.progress.Finite? && (n.total.Some? ==> n.total.value.Finite?)
  }

  /** What comes back: a total that is not finite is lost. */
  function Survivor(n: TypedNotification): TypedNotification {
    if n.Progress? && n.total == Some(NonFinite) then n.(total := None) else n
  }

  predicate DistinctSlots(slots: seq<Slot>) {
    forall i, j :: 0 <= i < j < |slots| ==> slots[i].key != slots[j].key
  }

  predicate HasSlot(slots: seq<Slot>, key: Bytes) {
    exists i :: 0 <= i < |slots| && slots[i].key == key
  }

  /** The value of the first slot with a key. */
  function SlotValue(slots: seq<Slot>, key: Bytes): Option<Json> {
    if slots == [] then None
    else if slots[0].key == key then slots[0].value
    else SlotValue(slots[1..], key)
  }

  lemma {:induction false} SlotValueAt(slots: seq<Slot>, i: nat)
    requires DistinctSlots(slots) && i < |slots|
    ensures SlotValue(slots, slots[i].key) == slots[i].value
  {
    if i > 0 {
      SlotValueAt(slots[1..], i - 1);
    }
  }

  lemma {:induction false} SlotValueAbsent(slots: seq<Slot>, key: Bytes)
    requires !HasSlot(slots, key)
    ensures SlotValue(slots, key) == None
  {
    if slots != [] {
      assert slots[0].key != key;
      SlotValueAbsent(slots[1..], key);
    }
  }

  lemma {:induction false} WrittenReads(slots: seq<Slot>)
    requires DistinctSlots(slots)
    ensures forall k :: Get(Written(slots), k) == SlotValue(slots, k)
    ensures DistinctKeys(Written(slots))
  {
    if slots != [] {
      var first, more := slots[0], slots[1..];
      WrittenReads(more);
      assert !HasSlot(more, first.key);
      SlotValueAbsent(more, first.key);
      GetAbsent(Written(more), first.key);
      hide HasSlot, DistinctSlots;
      forall k ensures Get(Written(slots), k) == SlotValue(slots, k) {
        GetOfConcat(Optional(first.key, first.value), Written(more), k);
      }
    }
  }

  lemma SlotsAreDistinct(n: TypedNotification)
    ensures DistinctSlots(Slots(n)) && !HasSlot(Slots(n), "method")
  {
    var slots := Slots(n);
    var m: Bytes := "method";
    assert |m| == 6 && m[0] == 'm' && META[0] == '_';
    match n {
      case Cancelled(_, _, _) =>
        assert slots[1].key[0] == 'r' && slots[0].key[0] == 'r';
      case Progress(_, _, _, _, _) =>
        assert slots[2].key[0] == 't';
      case LoggingMessage(_, _, _, _) =>
        assert slots[0].key[0] == 'l' && slots[1].key[0] == 'l' && slots[2].key[0] == 'd';
      case TaskStatusChanged(_, _) =>
        assert slots[0].key[0] == 't' && slots[1].key[0] == 's';
      case _ =>
    }
  }

  lemma SerializedReads(n: TypedNotification)
    ensures Sorted(Serialized(n))
    ensures Get(Serialized(n), "method") == Some(Str(TagText(TagOf(n))))
    ensures forall i :: 0 <= i < |Slots(n)| ==> Get(Serialized(n), Slots(n)[i].key) == Slots(n)[i].value
    ensures forall k :: k != "method" && !HasSlot(Slots(n), k) ==> Get(Serialized(n), k) == None
  {
    SlotsAreDistinct(n);
    hide Slots, TagText, TagOf;
    var slots := Slots(n);
    var tag := Slot("method", Some(Str(TagText(TagOf(n)))));
    var all := [tag] + slots;
    assert all[1..] == slots;
    assert DistinctSlots(all) by {
      forall i, j | 0 <= i < j < |all| ensures all[i].key != all[j].key {
        assert all[j] == slots[j - 1];
      }
    }
    WrittenReads(all);
    assert Written(all) == [Field("method", Str(TagText(TagOf(n))))] + Written(slots);
    ExtendIsOverlay([], Written(all));
    hide Written;
    assert forall k :: Get(Serialized(n), k) == SlotValue(all, k);
    forall i | 0 <= i < |slots| ensures SlotValue(all, slots[i].key) == slots[i].value {
      SlotValueAt(slots, i);
    }
    forall k | k != "method" && !HasSlot(slots, k) ensures SlotValue(all, k) == None {
      SlotValueAbsent(slots, k);
    }
  }

  /** Taking the tag and the metadata out and putting them back gives the same object. */
  lemma RebuiltInvertsEnvelope(name: Bytes, fields: seq<Field>)
    requires Sorted(fields) && Get(fields, "method") == Some(Str(name))
    requires Get(fields, META).Some? ==> Get(fields, META).value.Obj?
    ensures Rebuilt(Envelope(name, fields)) == fields
  {
    var rest := Remove(fields, "method");
    var m := Envelope(name, fields);
    assert |"method"| != |META|;
    RemoveIsErase(fields, "method");
    RemoveIsErase(rest, META);
    hide Insert, Remove, Extend, Sorted;
    RebuiltReads(m);
    forall k ensures Get(Rebuilt(m), k) == Get(fields, k) {
      assert Get(Rebuilt(m), k) == Member(m, k);
    }
    hide Envelope, Member, Rebuilt, Get;
    SortedIsCanonical(Rebuilt(m), fields);
  }

  lemma TagsAgree(n: TypedNotification)
    ensures MethodName(n) == TagText(TagOf(n))
  {
  }

  lemma TagIsFound(side: Side, t: Tag)
    requires Knows(side, t)
    ensures FindTag(side, TagText(t)) == Some(t)
  {
    TagsDiffer();
    hide TagText;
  }

  lemma TagIsNotFound(side: Side, t: Tag)
    requires !Knows(side, t)
    ensures FindTag(side, TagText(t)) == None
  {
    TagsDiffer();
    hide TagText;
  }

  /** The length of a tag, and its first byte after the common prefix. */
  function TagShape(t: Tag): (int, char) {
    match t
    case CancelledTag => (23, 'c') case ProgressTag => (22, 'p') case MessageTag => (21, 'm')
    case UpdatedTag => (31, 'r') case ResourcesTag => (36, 'r') case ToolsTag => (32, 't')
    case PromptsTag => (34, 'p') case ElicitationTag => (34, 'e') case TaskTag => (26, 't')
    case InitializedTag => (25, 'i') case RootsTag => (32, 'r')
  }

  lemma TagHasShape(t: Tag)
    ensures |TagText(t)| == TagShape(t).0 && TagText(t)[14] == TagShape(t).1
  {
  }

  /** No two variants have one tag. */
  lemma TagsDiffer()
    ensures forall a, b :: TagText(a) == TagText(b) ==> a == b
  {
    hide TagText;
    forall a, b | TagText(a) == TagText(b) ensures a == b {
      TagHasShape(a);
      TagHasShape(b);
    }
  }

  lemma LevelReads(l: LoggingLevel)
    ensures ReadLevel(Str(LevelText(l))) == Some(l)
  {
    assert LevelText(Debug)[0] == 'd' && LevelText(Error)[0] == 'e' && LevelText(Alert)[0] == 'a';
    assert LevelText(Info)[0] == 'i' && LevelText(Notice)[0] == 'n';
  }

  lemma StatusReads(s: TaskStatus)
    ensures ReadStatus(Str(StatusText(s))) == Some(s)
  {
    assert StatusText(Completed)[1] == 'o' && StatusText(TaskCancelled)[1] == 'a';
  }

  /** The object holds the fields of the notification. */
  predicate Holds(o: seq<Field>, slots: seq<Slot>) {
    forall i :: 0 <= i < |slots| ==> Get(o, slots[i].key) == slots[i].value
  }

  lemma TaskIsSaid(n: TypedNotification, o: seq<Field>)
    requires n.TaskStatusChanged? && Holds(o, Slots(n))
    ensures SaysTask(o, n.task)
  {
    hide Get, StatusText;
    var slots := Slots(n);
    assert Get(o, slots[0].key) == slots[0].value && Get(o, slots[1].key) == slots[1].value;
    assert Get(o, slots[2].key) == slots[2].value && Get(o, slots[3].key) == slots[3].value;
    assert Get(o, slots[4].key) == slots[4].value && Get(o, slots[5].key) == slots[5].value;
    assert Get(o, slots[6].key) == slots[6].value;
  }

  lemma ProgressIsSaid(n: TypedNotification, o: seq<Field>)
    requires n.Progress? && TypedFields(n) && Holds(o, Slots(n))
    ensures if n.progress.Finite? then SaysProgress(o, Survivor(n)) else Has(o, "progress", Null)
  {
    hide Get;
    var slots := Slots(n);
    assert Get(o, slots[0].key) == slots[0].value && Get(o, slots[1].key) == slots[1].value;
    assert Get(o, slots[2].key) == slots[2].value && Get(o, slots[3].key) == slots[3].value;
  }

  lemma MetaIsSaid(n: TypedNotification, o: seq<Field>)
    requires !n.ElicitationComplete? && Holds(o, Slots(n))
    ensures HasOptional(o, META, MapOf(n.meta))
  {
    var slots := Slots(n);
    assert slots[|slots| - 1] == Slot(META, MapOf(n.meta));
    hide Slots;
  }

  /** An object that holds the fields of a notification says it, unless a number is not finite. */
  lemma HeldIsSaid(n: TypedNotification, o: seq<Field>)
    requires TypedFields(n) && Holds(o, Slots(n))
    ensures if n.Progress? && n.progress.NonFinite? then Has(o, "progress", Null) else Says(o, Survivor(n))
  {
    if !n.ElicitationComplete? {
      MetaIsSaid(n, o);
    }
    match n {
      case Progress(_, _, _, _, _) => ProgressIsSaid(n, o);
      case TaskStatusChanged(_, _) => TaskIsSaid(n, o);
      case Cancelled(_, _, _) =>
        assert Get(o, Slots(n)[0].key) == Slots(n)[0].value && Get(o, Slots(n)[1].key) == Slots(n)[1].value;
      case LoggingMessage(_, _, _, _) =>
        assert Get(o, Slots(n)[0].key) == Slots(n)[0].value && Get(o, Slots(n)[1].key) == Slots(n)[1].value;
        assert Get(o, Slots(n)[2].key) == Slots(n)[2].value;
      case _ =>
        assert Get(o, Slots(n)[0].key) == Slots(n)[0].value;
    }
    hide Get, Holds, SaysProgress, SaysTask;
  }

  /**
   Parsing what was created gives the notification back exactly when its numbers are finite. A
   progress that is not finite is refused, and a total that is not finite is lost.
   */
  lemma ParseInvertsCreate(side: Side, n: TypedNotification)
    requires TypedFields(n) && Sends(side, n)
    ensures var parsed := FromObject(side, Rebuilt(Envelope(MethodName(n), Serialized(n))));
      && (parsed == Typed(n) <==> FiniteNumbers(n))
      && parsed == if n.Progress? && n.progress.NonFinite? then InvalidParams else Typed(Survivor(n))
  {
    var o := Serialized(n);
    SerializedReads(n);
    TagsAgree(n);
    SerializedMeta(n);
    TagKnown(side, n);
    HeldIsSaid(n, o);
    SerializedIsInRange(n);
    SurvivorIsSent(side, n);
    hide MethodName, TagText, TagOf, Serialized, Slots, Get, Rebuilt, Envelope, FromObject, TypedFields, Says, Sends, Knows;
    RebuiltInvertsEnvelope(MethodName(n), o);
    ObjectIsExact(side, o);
    if n.Progress? && n.progress.NonFinite? {
      NullProgressIsRefused(side, o, n);
    } else {
      assert Understood(side, o, Survivor(n));
    }
  }

  lemma SurvivorIsSent(side: Side, n: TypedNotification)
    ensures Sends(side, Survivor(n)) == Sends(side, n) && MethodName(Survivor(n)) == MethodName(n)
  {
  }

  lemma SerializedIsInRange(n: TypedNotification)
    ensures Has(Serialized(n), "method", Str(TagText(ProgressTag))) ==> NumbersInRange(Serialized(n))
  {
    SerializedReads(n);
    TagsDiffer();
    hide TagText, Serialized;
    if n.Progress? {
      var slots := Slots(n);
      assert Get(Serialized(n), slots[1].key) == slots[1].value && Get(Serialized(n), slots[2].key) == slots[2].value;
    }
  }

  lemma NullProgressIsRefused(side: Side, o: seq<Field>, n: TypedNotification)
    requires n.Progress? && Has(o, "method", Str(MethodName(n))) && Has(o, "progress", Null)
    requires Has(o, "method", Str(TagText(ProgressTag))) ==> NumbersInRange(o)
    ensures FromObject(side, o) == InvalidParams
  {
    ObjectIsExact(side, o);
    TagsAgree(n);
    ProgressIsOnlySaid(side, o);
    assert Knows(side, ProgressTag) && TagOf(n) == ProgressTag;
    hide MethodName, Knows, TagText, FromObject, Understood;
  }

  lemma TagKnown(side: Side, n: TypedNotification)
    ensures Knows(side, TagOf(n)) <==> Sends(side, n)
  {
  }

  lemma SerializedMeta(n: TypedNotification)
    ensures Get(Serialized(n), META).Some? ==> Get(Serialized(n), META).value.Obj?
  {
    SerializedReads(n);
    var slots := Slots(n);
    if n.ElicitationComplete? {
      assert |slots[0].key| != |META| && |"method"| != |META|;
      assert !HasSlot(slots, META);
    } else {
      assert slots[|slots| - 1].key == META;
    }
  }

  /** A notification that the other side does not know is answered as an unknown method. */
  lemma UnknownVariant(side: Side, n: TypedNotification)
    requires !Sends(side, n)
    ensures FromObject(side, Rebuilt(Envelope(MethodName(n), Serialized(n)))) == MethodNotFound
  {
    SerializedReads(n);
    TagsAgree(n);
    SerializedMeta(n);
    TagKnown(side, n);
    hide MethodName, TagText, TagOf, Serialized, Slots, Get, Rebuilt, Envelope, ReadVariant, FindTag, Sends, Knows;
    RebuiltInvertsEnvelope(MethodName(n), Serialized(n));
    TagIsNotFound(side, TagOf(n));
  }

  // ----- over the wire -----

  /** Every finite number is the literal of a float. */
  predicate NumbersAreFloats(n: TypedNotification) {
    n.Progress? ==>
      && (n.progress.Finite? ==> FloatLiteral(n.progress.literal))
      && (n.total.Some? && n.total.value.Finite? ==> FloatLiteral(n.total.value.literal))
  }

  predicate SlotsValid(slots: seq<Slot>) {
    forall i :: 0 <= i < |slots| ==> slots[i].value.Some? ==> Valid(slots[i].value.value)
  }

  lemma SlotsAreValid(n: TypedNotification)
    requires TypedFields(n) && NumbersAreFloats(n)
    ensures SlotsValid(Slots(n))
  {
    hide FloatLiteral, LevelText, StatusText;
    if !n.ElicitationComplete? && n.meta.Some? {
      MapIsValid(n.meta.value);
    }
    hide MapTyped;
  }

  lemma MapIsValid(fields: seq<Field>)
    requires MapTyped(fields)
    ensures Valid(Obj(fields))
  {
  }

  lemma {:induction false} WrittenIsValid(slots: seq<Slot>)
    requires SlotsValid(slots)
    ensures ValidFields(Written(slots))
  {
    if slots != [] {
      assert slots[0].value.Some? ==> Valid(slots[0].value.value);
      forall i | 0 <= i < |slots[1..]| ensures slots[1..][i].value.Some? ==> Valid(slots[1..][i].value.value) {
        assert slots[1..][i] == slots[i + 1];
      }
      WrittenIsValid(slots[1..]);
      hide Valid;
    }
  }

  lemma SerializedIsTyped(n: TypedNotification)
    requires TypedFields(n) && NumbersAreFloats(n)
    ensures MapTyped(Serialized(n))
  {
    SlotsAreValid(n);
    WrittenIsValid(Slots(n));
    hide Slots, Written, TypedFields, TagText, TagOf;
    var fields := [Field("method", Str(TagText(TagOf(n))))] + Written(Slots(n));
    forall i | 0 <= i < |fields| ensures Valid(fields[i].value) {
    }
    ExtendIsValid([], fields);
  }

  lemma EnvelopeIsPlain(name: Bytes, fields: seq<Field>)
    requires MapTyped(fields)
    ensures Message.Typed(Envelope(name, fields)) && Plain(Envelope(name, fields))
  {
    var rest := Remove(fields, "method");
    RemoveIsErase(fields, "method");
    RemovedIsTyped(fields, "method");
    RemoveIsErase(rest, META);
    RemovedIsTyped(rest, META);
    match Get(rest, META) {
      case Some(Obj(m)) =>
        GetMember(rest, META);
        assert Valid(Obj(m));
      case _ =>
    }
    hide Get, Remove;
  }

  /**
   A typed notification survives the wire: its text is read as the envelope that was created, and
   parses as the notification, exactly when it is not nested too deeply. Numbers that are not finite
   fare as they do in memory.
   */
  lemma NotificationSurvivesWire(side: Side, n: TypedNotification)
    requires TypedFields(n) && NumbersAreFloats(n) && Sends(side, n)
    ensures var m := Envelope(MethodName(n), Serialized(n));
      match Parse(Render(m))
      case Success(r) =>
        && Depth(MessageJson(m)) < DEPTH_LIMIT && r == m
        && FromObject(side, Rebuilt(r)) == (if n.Progress? && n.progress.NonFinite? then InvalidParams else Typed(Survivor(n)))
      case Failure(_) => Depth(MessageJson(m)) >= DEPTH_LIMIT
  {
    SerializedIsTyped(n);
    EnvelopeIsPlain(MethodName(n), Serialized(n));
    var m := Envelope(MethodName(n), Serialized(n));
    ParseInvertsRender(m);
    PlainIsReadAsItself(m);
    ParseInvertsCreate(side, n);
    hide Parse, Render, Envelope, Rebuilt, FromObject, Serialized, AsRead, Plain, MessageJson, Depth;
  }
}
