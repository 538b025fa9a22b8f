/**
 The params of requests between their two forms, one object with a `_meta` field and a struct
 with its metadata apart, and the payload limits that both sides put on custom requests.
 */
module Params {
  import opened Bytes
  import opened Json
  import opened JsonReader
  import opened Message
  import opened Payload

  // ----- one object, or metadata and the rest -----

  /** The object that a map serializer builds from the fields of request metadata. */
  function MetaValue(meta: RequestMeta): Json { Obj(Extend([], MetaFields(meta))) }

  /** The metadata and the rest of a params object. */
  function Split(whole: seq<Field>): Option<RequestParams> {
    var meta := match Get(whole, META) case None => None case Some(value) => ReadMeta(value);
    var rest := Remove(whole, META);
    if rest == [] && meta == None then None else Some(RequestParams(meta, rest))
  }

  function Fold(params: RequestParams): seq<Field> {
    match params.meta
    case None => params.other
    case Some(meta) => Insert(params.other, META, MetaValue(meta))
  }

  /** The metadata goes into the object, over a field of the same key. */
  method ParamsObject(params: RequestParams) returns (whole: seq<Field>)
    ensures whole == Fold(params)
  {
    whole := params.other;
    if params.meta.Some? {
      whole := Insert(whole, META, MetaValue(params.meta.value));
    }
  }

  /** Split a params object. A `_meta` that is not valid request metadata is dropped. */
  method SplitParams(params: seq<Field>) returns (r: Option<RequestParams>)
    ensures r == Split(params)
  {
    var whole := params;
    var removed := Get(whole, META);
    whole := Remove(whole, META);
    var meta: Option<RequestMeta> := None;
    if removed.Some? {
      meta := ReadMeta(removed.value);
    }
    if whole == [] && meta == None {
      return None;
    }
    return Some(RequestParams(meta, whole));
  }

  /** The params object after both conversions: nothing at all counts as no fields. */
  function Normal(whole: seq<Field>): seq<Field> {
    match Split(whole) case None => [] case Some(params) => Fold(params)
  }

  /** The `_meta` of the object survives as it is: absent, or valid with no null progress token. */
  predicate MetaKept(whole: seq<Field>) {
    match Get(whole, META)
    case None => true
    case Some(value) => ReadMeta(value).Some? && Get(value.fields, PROGRESS_TOKEN) != Some(Null)
  }

  lemma ReadMetaIsTyped(value: Json)
    requires Valid(value) && ReadMeta(value).Some?
    ensures value.Obj? && MapTyped(value.fields) && MetaTyped(ReadMeta(value).value)
  {
    RemovedIsTyped(value.fields, PROGRESS_TOKEN);
    if Get(value.fields, PROGRESS_TOKEN).Some? {
      GetMember(value.fields, PROGRESS_TOKEN);
    }
  }

  /** What a split yields can go over the wire. */
  lemma SplitIsTyped(whole: seq<Field>)
    requires MapTyped(whole) && Split(whole).Some?
    ensures RequestParamsTyped(Split(whole).value)
  {
    RemovedIsTyped(whole, META);
    if Get(whole, META).Some? {
      GetMember(whole, META);
      if ReadMeta(Get(whole, META).value).Some? {
        ReadMetaIsTyped(Get(whole, META).value);
      }
    }
  }

  /** The map form of metadata answers every key as its fields do. */
  lemma MetaValueReads(meta: RequestMeta)
    requires MetaTyped(meta)
    ensures MapTyped(MetaValue(meta).fields)
    ensures ReadMeta(MetaValue(meta)) == Some(meta)
    ensures Get(MetaValue(meta).fields, PROGRESS_TOKEN)
         == match meta.progressToken case None => None case Some(t) => Some(IdentJson(t))
  {
    var token := match meta.progressToken case None => None case Some(t) => Some(IdentJson(t));
    if token.Some? {
    }
    var fields := Optional(PROGRESS_TOKEN, token) + meta.other;
    ValidFieldsAreNormal(fields);
    var o := FlattenedReads(PROGRESS_TOKEN, token, meta.other);
    assert o == MetaValue(meta).fields;
    NormalIsValid(fields);
  }

  lemma NormalIsValid(fields: seq<Field>)
    requires ValidFields(fields)
    ensures MapTyped(Extend([], fields))
  {
    ExtendIsValid([], fields);
  }

  /** Splitting inverts folding, for params that are not empty. */
  lemma SplitInvertsFold(params: RequestParams)
    requires RequestParamsTyped(params)
    ensures Split(Fold(params)) == if params == RequestParams(None, []) then None else Some(params)
    ensures MapTyped(Fold(params))
  {
    match params.meta {
      case None =>
        RemoveAbsent(params.other, META);
      case Some(meta) =>
        MetaValueReads(meta);
        var whole := Insert(params.other, META, MetaValue(meta));
        InsertIsUpdate(params.other, META, MetaValue(meta));
        forall i | 0 <= i < |whole| ensures Valid(whole[i].value) {
          assert whole[i] in whole;
        }
        RemoveIsErase(whole, META);
        SortedIsCanonical(Remove(whole, META), params.other);
    }
  }

  /** Folding a split keeps each other field, and changes nothing exactly when `_meta` is kept. */
  lemma FoldAfterSplit(whole: seq<Field>)
    requires MapTyped(whole)
    ensures MapTyped(Normal(whole))
    ensures forall k :: k != META ==> Get(Normal(whole), k) == Get(whole, k)
    ensures Normal(Normal(whole)) == Normal(whole)
    ensures Normal(whole) == whole <==> MetaKept(whole)
  {
    RemoveIsErase(whole, META);
    match Split(whole) {
      case None =>
        assert Remove(whole, META) == [];
        if Get(whole, META) == None {
          RemoveAbsent(whole, META);
        }
      case Some(params) =>
        SplitIsTyped(whole);
        SplitInvertsFold(params);
        if params.meta.Some? {
          InsertIsUpdate(params.other, META, MetaValue(params.meta.value));
        }
        MetaAfterSplit(whole);
    }
  }

  lemma MetaAfterSplit(whole: seq<Field>)
    requires MapTyped(whole) && Split(whole).Some?
    ensures Get(Fold(Split(whole).value), META) == Get(whole, META) <==> MetaKept(whole)
    ensures Fold(Split(whole).value) == whole <==> MetaKept(whole)
  {
    var params := Split(whole).value;
    RemoveIsErase(whole, META);
    SplitIsTyped(whole);
    SplitInvertsFold(params);
    if params.meta.Some? {
      InsertIsUpdate(params.other, META, MetaValue(params.meta.value));
      GetMember(whole, META);
      MetaValueKept(Get(whole, META).value);
    }
    if MetaKept(whole) {
      forall k ensures Get(Fold(params), k) == Get(whole, k) {
      }
      SortedIsCanonical(Fold(params), whole);
    }
  }

  lemma MetaValueKept(value: Json)
    requires Valid(value) && ReadMeta(value).Some?
    ensures MetaValue(ReadMeta(value).value) == value <==> Get(value.fields, PROGRESS_TOKEN) != Some(Null)
    ensures Get(value.fields, PROGRESS_TOKEN) == Some(Null) ==>
      MetaValue(ReadMeta(value).value).fields == Remove(value.fields, PROGRESS_TOKEN)
  {
    var meta := ReadMeta(value).value;
    var built := MetaValue(meta).fields;
    ReadMetaIsTyped(value);
    MetaValueReads(meta);
    RemoveIsErase(value.fields, PROGRESS_TOKEN);
    RemoveIsErase(built, PROGRESS_TOKEN);
    if Get(value.fields, PROGRESS_TOKEN) == Some(Null) {
      RemoveAbsent(built, PROGRESS_TOKEN);
    } else {
      forall k ensures Get(built, k) == Get(value.fields, k) {
        if k != PROGRESS_TOKEN {
          assert Get(Remove(built, PROGRESS_TOKEN), k) == Get(built, k);
          assert Get(Remove(value.fields, PROGRESS_TOKEN), k) == Get(value.fields, k);
        }
      }
      SortedIsCanonical(built, value.fields);
    }
  }
}
