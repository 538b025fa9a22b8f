/**
 Tool signatures: how the parameters of a tool method are classified, what task support they
 imply, and how the tools of an impl block are collected.

 Types are the syntax trees that the classifier looks at. Spans and error texts are left out.
 */
module ToolSignature {
  import opened Bytes

  datatype Result<+T> = Ok(value: T) | Err(error: SignatureError)

  datatype SignatureError =
    | TaskSupportNeedsTask
    | TaskSupportMismatch(implied: TaskSupport)
    | FlatNeedsParameter
    | Untyped
    | SecondContext
    | FlatUnit
    | UnitInFlat
    | FlatPattern
    | BadReturn
    | BothToolAndGroup
    | ToolNotAsync
    | NoReceiver
    | ReceiverNotShared
    | FirstNotReceiver
    | GroupKeys
    | GroupAsync
    | GroupParams
    | GroupOutput
    | BadAttribute(reason: Bytes)
    | DuplicateName(name: Bytes)

  // ----- types -----

  datatype Type = Reference(elem: Type) | Path(segments: seq<Segment>) | Tuple(elems: seq<Type>) | OtherType

  datatype Segment = Segment(ident: Bytes, arguments: Arguments)

  datatype Arguments = NoArguments | AngleBracketed(args: seq<Argument>) | Parenthesized

  datatype Argument = TypeArgument(ty: Type) | OtherArgument

  /** The last identifier of a path, behind any references. */
  function LastIdent(ty: Type): Option<Bytes> {
    match ty
    case Reference(elem) => LastIdent(elem)
    case Path(segments) => if segments == [] then None else Some(segments[|segments| - 1].ident)
    case _ => None
  }

  predicate EndsWith(ty: Type, ident: Bytes) {
    LastIdent(ty) == Some(ident)
  }

  /** The type with this many references in front of it. */
  function Borrowed(ty: Type, times: nat): Type {
    if times == 0 then ty else Reference(Borrowed(ty, times - 1))
  }

  predicate IsPathTo(ty: Type, ident: Bytes) {
    ty.Path? && ty.segments != [] && ty.segments[|ty.segments| - 1].ident == ident
  }

  /** A path to the identifier, behind any number of references. */
  ghost predicate LeadsTo(ty: Type, ident: Bytes) {
    exists path: Type, times: nat :: ty == Borrowed(path, times) && IsPathTo(path, ident)
  }

  lemma {:induction false} EndsWithLeads(ty: Type, ident: Bytes)
    ensures EndsWith(ty, ident) <==> LeadsTo(ty, ident)
    decreases ty
  {
    if ty.Reference? {
      EndsWithLeads(ty.elem, ident);
      if LeadsTo(ty.elem, ident) {
        var path: Type, times: nat :| ty.elem == Borrowed(path, times) && IsPathTo(path, ident);
        assert ty == Borrowed(path, times + 1);
        assert LeadsTo(ty, ident);
      }
      if LeadsTo(ty, ident) {
        var path: Type, times: nat :| ty == Borrowed(path, times) && IsPathTo(path, ident);
        assert times > 0 && ty.elem == Borrowed(path, times - 1);
        assert LeadsTo(ty.elem, ident);
      }
    } else if EndsWith(ty, ident) {
      assert ty == Borrowed(ty, 0);
    }
  }

  predicate IsServerCtx(ty: Type) { EndsWith(ty, "ServerCtx") }

  predicate IsUnit(ty: Type) { ty == Tuple([]) }

  predicate IsTaskMetadata(ty: Type) { EndsWith(ty, "TaskMetadata") }

  /** A path that ends in `Option` and has an argument that is task metadata. References do not count. */
  predicate IsOptionTaskMetadata(ty: Type) {
    && ty.Path? && ty.segments != []
    && var last := ty.segments[|ty.segments| - 1];
       && last.ident == "Option" && last.arguments.AngleBracketed?
       && exists i :: 0 <= i < |last.arguments.args|
            && last.arguments.args[i].TypeArgument? && IsTaskMetadata(last.arguments.args[i].ty)
  }

  // ----- parameters -----

  datatype Pattern = Ident(name: Bytes, subpattern: bool) | OtherPattern

  datatype Param = Receiver(reference: bool, mutable: bool) | Typed(pat: Pattern, ty: Type)

  predicate IsContext(p: Param) { p.Typed? && IsServerCtx(p.ty) }

  predicate IsTask(p: Param) { p.Typed? && (IsTaskMetadata(p.ty) || IsOptionTaskMetadata(p.ty)) }

  predicate IsSimple(p: Param) { p.Typed? && p.pat.Ident? && !p.pat.subpattern }

  datatype TaskKind = NoTask | RequiredTask | OptionalTask

  datatype TaskSupport = Forbidden | Optional | Required

  datatype FlatParam = FlatParam(name: Bytes, ty: Type)

  datatype ParamsKind = NoParams | UnitParams | TypedParams(ty: Type) | FlatParams(params: seq<FlatParam>)

  datatype ReturnKind = CallResult | TaskResult | CallResponse | ToolResult(output: Option<Type>)

  datatype Attrs = Attrs(taskSupport: Option<TaskSupport>, flat: bool)

  datatype Tail = Tail(hasCtx: bool, task: TaskKind, kind: ParamsKind, returnKind: ReturnKind, attrs: Attrs)

  // ----- task support -----

  function NormalizeTaskSupport(task: TaskKind, declared: Option<TaskSupport>): Result<Option<TaskSupport>> {
    match task
    case NoTask =>
      if declared == Some(Optional) || declared == Some(Required) then Err(TaskSupportNeedsTask) else Ok(declared)
    case _ =>
      var implied := if task.RequiredTask? then Required else Optional;
      if declared == None || declared == Some(implied) then Ok(Some(implied)) else Err(TaskSupportMismatch(implied))
  }

  // ----- the return type -----

  function FirstType(args: seq<Argument>): Option<Type> {
    if args == [] then None
    else if args[0].TypeArgument? then Some(args[0].ty)
    else FirstType(args[1..])
  }

  function FirstTypeOf(arguments: Arguments): Option<Type> {
    if arguments.AngleBracketed? then FirstType(arguments.args) else None
  }

  function ParseToolReturn(output: Option<Type>): Result<ReturnKind> {
    if output == None || !output.value.Path? || output.value.segments == [] then Err(BadReturn)
    else
      var segments := output.value.segments;
      var last := segments[|segments| - 1];
      if last.ident == "Result" then
        match FirstTypeOf(last.arguments)
        case None => Err(BadReturn)
        case Some(inner) =>
          if EndsWith(inner, "CallToolResult") then Ok(CallResult)
          else if EndsWith(inner, "CreateTaskResult") then Ok(TaskResult)
          else if EndsWith(inner, "CallToolResponse") then Ok(CallResponse)
          else Err(BadReturn)
      else if last.ident == "ToolResult" then Ok(ToolResult(FirstTypeOf(last.arguments)))
      else Err(BadReturn)
  }

  /** The argument is the first type among some generic arguments, behind lifetimes and constants. */
  ghost predicate IsFirstType(args: seq<Argument>, ty: Type) {
    exists i :: 0 <= i < |args| && args[i] == TypeArgument(ty) && forall j :: 0 <= j < i ==> !args[j].TypeArgument?
  }

  lemma FirstTypeCons(first: Argument, rest: seq<Argument>, ty: Type)
    ensures IsFirstType([first] + rest, ty) <==> if first.TypeArgument? then first.ty == ty else IsFirstType(rest, ty)
  {
    var args := [first] + rest;
    assert args[0] == first;
    if IsFirstType(rest, ty) && !first.TypeArgument? {
      var i :| 0 <= i < |rest| && rest[i] == TypeArgument(ty) && forall j :: 0 <= j < i ==> !rest[j].TypeArgument?;
      assert args[i + 1] == rest[i] && forall j :: 0 < j < i + 1 ==> args[j] == rest[j - 1];
    }
    if IsFirstType(args, ty) && !first.TypeArgument? {
      var i :| 0 <= i < |args| && args[i] == TypeArgument(ty) && forall j :: 0 <= j < i ==> !args[j].TypeArgument?;
      assert rest[i - 1] == args[i] && forall j :: 0 <= j < i - 1 ==> rest[j] == args[j + 1];
    }
  }

  lemma {:induction false} FirstTypeIsFirst(args: seq<Argument>, ty: Type)
    ensures FirstType(args) == Some(ty) <==> IsFirstType(args, ty)
    ensures FirstType(args) == None <==> forall i :: 0 <= i < |args| ==> !args[i].TypeArgument?
  {
    if args != [] {
      FirstTypeIsFirst(args[1..], ty);
      FirstTypeCons(args[0], args[1..], ty);
      hide IsFirstType;
      assert args == [args[0]] + args[1..];
    }
  }

  /** The output is `Result<inner>`, and `Result` may be the end of a longer path. */
  ghost predicate IsResultOf(output: Option<Type>, inner: Type) {
    && output.Some? && IsPathTo(output.value, "Result")
    && var arguments := output.value.segments[|output.value.segments| - 1].arguments;
       arguments.AngleBracketed? && IsFirstType(arguments.args, inner)
  }

  /** What the output says: a result of one of three types, or a tool result with its first type, if it has one. */
  ghost predicate Returns(output: Option<Type>, kind: ReturnKind) {
    match kind
    case CallResult => exists inner :: IsResultOf(output, inner) && EndsWith(inner, "CallToolResult")
    case TaskResult => exists inner :: IsResultOf(output, inner) && EndsWith(inner, "CreateTaskResult")
    case CallResponse => exists inner :: IsResultOf(output, inner) && EndsWith(inner, "CallToolResponse")
    case ToolResult(ty) =>
      && output.Some? && IsPathTo(output.value, "ToolResult")
      && var arguments := output.value.segments[|output.value.segments| - 1].arguments;
         match ty
         case Some(inner) => arguments.AngleBracketed? && IsFirstType(arguments.args, inner)
         case None => arguments.AngleBracketed? ==> forall i :: 0 <= i < |arguments.args| ==> !arguments.args[i].TypeArgument?
  }

  lemma ResultOf(output: Option<Type>, inner: Type)
    ensures IsResultOf(output, inner) <==>
      && output.Some? && IsPathTo(output.value, "Result")
      && FirstTypeOf(output.value.segments[|output.value.segments| - 1].arguments) == Some(inner)
  {
    if output.Some? && IsPathTo(output.value, "Result") {
      var arguments := output.value.segments[|output.value.segments| - 1].arguments;
      if arguments.AngleBracketed? {
        FirstTypeIsFirst(arguments.args, inner);
      }
    }
    hide FirstType;
  }

  /** A return type is accepted exactly as what it says, and any other is refused. */
  lemma ReturnIsClassified(output: Option<Type>, kind: ReturnKind)
    ensures ParseToolReturn(output) == Ok(kind) <==> Returns(output, kind)
    ensures ParseToolReturn(output).Err? ==> ParseToolReturn(output) == Err(BadReturn)
  {
    forall inner ensures IsResultOf(output, inner) <==>
      && output.Some? && IsPathTo(output.value, "Result")
      && FirstTypeOf(output.value.segments[|output.value.segments| - 1].arguments) == Some(inner)
    {
      ResultOf(output, inner);
    }
    if output.Some? && IsPathTo(output.value, "ToolResult") {
      var arguments := output.value.segments[|output.value.segments| - 1].arguments;
      if arguments.AngleBracketed? {
        FirstTypeIsFirst(arguments.args, match kind case ToolResult(Some(inner)) => inner case _ => OtherType);
      }
    }
    NamesDiffer();
    hide IsResultOf, IsFirstType, FirstType, LastIdent;
  }

  lemma NamesDiffer()
    ensures "Result" != "ToolResult" && "CallToolResult" != "CreateTaskResult"
    ensures "CallToolResult" != "CallToolResponse" && "CreateTaskResult" != "CallToolResponse"
  {
    assert "Result"[0] == 'R' && "ToolResult"[0] == 'T' && "CallToolResult"[1] == 'a' && "CreateTaskResult"[1] == 'r';
    assert |"CallToolResult"| == 14 && |"CallToolResponse"| == 16 && "CallToolResponse"[1] == 'a';
  }

  // ----- the classifier -----

  /** What the loop over several parameters objects to in one of them. */
  function FlatError(p: Param): Option<SignatureError> {
    if p.Receiver? then Some(Untyped)
    else if IsServerCtx(p.ty) then Some(SecondContext)
    else if IsUnit(p.ty) then Some(UnitInFlat)
    else if !IsSimple(p) then Some(FlatPattern)
    else None
  }

  method ParseFlatParam(p: Param) returns (r: Result<FlatParam>)
    requires p.Typed?
    ensures r == if IsSimple(p) then Ok(FlatParam(p.pat.name, p.ty)) else Err(FlatPattern)
  {
    match p.pat
    case Ident(name, subpattern) =>
      if subpattern { return Err(FlatPattern); }
      return Ok(FlatParam(name, p.ty));
    case OtherPattern =>
      return Err(FlatPattern);
  }

  /** The parameters that are left belong together as `kind` says. */
  ghost predicate Represents(kind: ParamsKind, ordinary: seq<Param>) {
    match kind
    case NoParams => ordinary == []
    case UnitParams => |ordinary| == 1 && ordinary[0].Typed? && IsUnit(ordinary[0].ty)
    case TypedParams(ty) => |ordinary| == 1 && ordinary[0].Typed? && ordinary[0].ty == ty && !IsUnit(ty)
    case FlatParams(params) =>
      && |params| == |ordinary| >= 1
      && forall i :: 0 <= i < |params| ==>
           IsSimple(ordinary[i]) && !IsUnit(ordinary[i].ty) && params[i] == FlatParam(ordinary[i].pat.name, ordinary[i].ty)
  }

  /** The first error among several parameters, in their order. */
  ghost predicate FirstFlatError(ordinary: seq<Param>, error: SignatureError) {
    exists i :: 0 <= i < |ordinary| && FlatError(ordinary[i]) == Some(error)
      && forall j :: 0 <= j < i ==> FlatError(ordinary[j]) == None
  }

  /** What a single parameter is refused for. */
  function SingleError(p: Param, flat: bool): Option<SignatureError> {
    if p.Receiver? then Some(Untyped)
    else if IsServerCtx(p.ty) then Some(SecondContext)
    else if flat && IsUnit(p.ty) then Some(FlatUnit)
    else if flat && !IsSimple(p) then Some(FlatPattern)
    else None
  }

  /** The error that a refused rest of a signature gives. */
  ghost predicate OrdinaryError(ordinary: seq<Param>, flat: bool, error: SignatureError) {
    if ordinary == [] then flat && error == FlatNeedsParameter
    else if |ordinary| == 1 then SingleError(ordinary[0], flat) == Some(error)
    else FirstFlatError(ordinary, error)
  }

  predicate NoContext(ps: seq<Param>) {
    forall i :: 0 <= i < |ps| ==> ps[i].Typed? && !IsServerCtx(ps[i].ty)
  }

  /** Several parameters as flat ones, or the error of the first that is refused. */
  function FlatAll(ps: seq<Param>): Result<seq<FlatParam>> {
    if ps == [] then Ok([])
    else
      match FlatAll(ps[..|ps| - 1])
      case Err(error) => Err(error)
      case Ok(params) =>
        var last := ps[|ps| - 1];
        match FlatError(last)
        case Some(error) => Err(error)
        case None => Ok(params + [FlatParam(last.pat.name, last.ty)])
  }

  /** The first error among some parameters is that of the front, or that of the last one. */
  lemma FirstErrorSnoc(front: seq<Param>, last: Param, error: SignatureError)
    requires FirstFlatError(front, error)
          || (FlatError(last) == Some(error) && forall i :: 0 <= i < |front| ==> FlatError(front[i]) == None)
    ensures FirstFlatError(front + [last], error)
  {
    hide FlatError;
    var ps := front + [last];
    var i := |front|;
    if FirstFlatError(front, error) {
      i :| 0 <= i < |front| && FlatError(front[i]) == Some(error) && forall j :: 0 <= j < i ==> FlatError(front[j]) == None;
    }
    assert FlatError(ps[i]) == Some(error) && forall j :: 0 <= j < i ==> ps[j] == front[j];
  }

  lemma {:induction false} FlatAllIsClassified(ps: seq<Param>)
    ensures FlatAll(ps).Ok? <==> forall i :: 0 <= i < |ps| ==> FlatError(ps[i]) == None
    ensures FlatAll(ps).Ok? ==>
      && |FlatAll(ps).value| == |ps|
      && forall i :: 0 <= i < |ps| ==> FlatAll(ps).value[i] == FlatParam(ps[i].pat.name, ps[i].ty)
    ensures FlatAll(ps).Err? ==> FirstFlatError(ps, FlatAll(ps).error)
  {
    if ps != [] {
      var n := |ps| - 1;
      var front := ps[..n];
      FlatAllIsClassified(front);
      hide FlatError, FirstFlatError;
      assert forall i :: 0 <= i < n ==> front[i] == ps[i];
      assert ps == front + [ps[n]];
      if FlatAll(ps).Err? {
        FirstErrorSnoc(front, ps[n], FlatAll(ps).error);
      }
    }
  }

  lemma FlatAllStops(ps: seq<Param>, n: nat)
    requires n < |ps| && FlatAll(ps[..n + 1]).Err?
    ensures FlatAll(ps) == FlatAll(ps[..n + 1])
    decreases |ps|
  {
    if n + 1 == |ps| {
      assert ps[..n + 1] == ps;
    } else {
      var front := ps[..|ps| - 1];
      assert front[..n + 1] == ps[..n + 1];
      FlatAllStops(front, n);
    }
  }

  /** The rest of a signature: none, one, or several parameters. */
  function OrdinaryOf(remaining: seq<Param>, flat: bool): Result<ParamsKind> {
    if remaining == [] then (if flat then Err(FlatNeedsParameter) else Ok(NoParams))
    else if |remaining| == 1 then
      var p := remaining[0];
      match SingleError(p, flat)
      case Some(error) => Err(error)
      case None =>
        if IsUnit(p.ty) then Ok(UnitParams)
        else if flat then Ok(FlatParams([FlatParam(p.pat.name, p.ty)]))
        else Ok(TypedParams(p.ty))
    else
      match FlatAll(remaining) case Err(error) => Err(error) case Ok(params) => Ok(FlatParams(params))
  }

  method ParseOrdinary(remaining: seq<Param>, flat: bool) returns (r: Result<ParamsKind>)
    ensures r == OrdinaryOf(remaining, flat)
  {
    if |remaining| == 0 {
      if flat { return Err(FlatNeedsParameter); }
      return Ok(NoParams);
    }
    if |remaining| == 1 {
      if remaining[0].Receiver? { return Err(Untyped); }
      var ty := remaining[0].ty;
      if IsServerCtx(ty) { return Err(SecondContext); }
      if IsUnit(ty) {
        if flat { return Err(FlatUnit); }
        return Ok(UnitParams);
      }
      if flat {
        var one := ParseFlatParam(remaining[0]);
        if one.Err? { return Err(one.error); }
        return Ok(FlatParams([one.value]));
      }
      return Ok(TypedParams(ty));
    }
    r := ParseSeveral(remaining);
  }

  method ParseSeveral(remaining: seq<Param>) returns (r: Result<ParamsKind>)
    ensures r == match FlatAll(remaining) case Err(error) => Err(error) case Ok(params) => Ok(FlatParams(params))
  {
    var params: seq<FlatParam> := [];
    var i := 0;
    assert remaining[..0] == [];
    while i < |remaining|
      invariant i <= |remaining| && FlatAll(remaining[..i]) == Ok(params)
    {
      var p := remaining[i];
      assert remaining[..i + 1][..i] == remaining[..i];
      if FlatAll(remaining[..i + 1]).Err? {
        FlatAllStops(remaining, i);
      }
      if p.Receiver? { return Err(Untyped); }
      if IsServerCtx(p.ty) { return Err(SecondContext); }
      if IsUnit(p.ty) { return Err(UnitInFlat); }
      var one := ParseFlatParam(p);
      if one.Err? { return Err(one.error); }
      params := params + [one.value];
      i := i + 1;
    }
    assert remaining[..i] == remaining;
    return Ok(FlatParams(params));
  }

  /** When the rest of a signature is accepted. */
  predicate OrdinaryOk(ordinary: seq<Param>, flat: bool) {
    && NoContext(ordinary)
    && (flat ==> ordinary != [])
    && (flat || |ordinary| >= 2 ==> forall i :: 0 <= i < |ordinary| ==> IsSimple(ordinary[i]) && !IsUnit(ordinary[i].ty))
  }

  /**
   A signature in three parts: at most one context, at most one task parameter, and the rest,
   which has no context and does not start with a task parameter that could be the second part.
   */
  predicate Splits(params: seq<Param>, ctx: seq<Param>, task: seq<Param>, ordinary: seq<Param>) {
    && params == ctx + task + ordinary
    && (ctx == [] || (|ctx| == 1 && IsContext(ctx[0])))
    && (task == [] || (|task| == 1 && IsTask(task[0])))
    && (task == [] && ordinary != [] ==> !IsTask(ordinary[0]))
  }

  function KindOf(task: seq<Param>): TaskKind {
    if task == [] || !task[0].Typed? then NoTask
    else if IsTaskMetadata(task[0].ty) then RequiredTask
    else OptionalTask
  }

  /** A signature is accepted when its parts are, and the task support fits. */
  predicate Accepts(ctx: seq<Param>, task: seq<Param>, ordinary: seq<Param>, attrs: Attrs, output: Option<Type>) {
    && NormalizeTaskSupport(KindOf(task), attrs.taskSupport).Ok?
    && OrdinaryOk(ordinary, attrs.flat)
    && ParseToolReturn(output).Ok?
  }

  function ContextPart(params: seq<Param>): seq<Param> {
    if params != [] && IsContext(params[0]) then params[..1] else []
  }

  function TaskPart(params: seq<Param>): seq<Param> {
    var rest := params[|ContextPart(params)|..];
    if rest != [] && IsTask(rest[0]) then rest[..1] else []
  }

  function OrdinaryPart(params: seq<Param>): seq<Param> {
    params[|ContextPart(params)| + |TaskPart(params)|..]
  }

  lemma PartsSplit(params: seq<Param>)
    ensures Splits(params, ContextPart(params), TaskPart(params), OrdinaryPart(params))
  {
    hide IsContext, IsTask;
    var i := |ContextPart(params)|;
    var j := i + |TaskPart(params)|;
    ThreeCuts(params, i, j);
    assert TaskPart(params) == params[i..j] && ContextPart(params) == params[..i];
  }

  lemma ThreeCuts(params: seq<Param>, i: nat, j: nat)
    requires i <= j <= |params|
    ensures params[..i] + params[i..j] + params[j..] == params
  {
  }

  /** The rest of a signature is accepted exactly when it is fit, as what it is, and otherwise gives its first error. */
  lemma OrdinaryIsClassified(ordinary: seq<Param>, flat: bool)
    ensures var r := OrdinaryOf(ordinary, flat);
      && (r.Ok? <==> OrdinaryOk(ordinary, flat))
      && (r.Ok? ==> Represents(r.value, ordinary) && (r.value.FlatParams? <==> flat || |ordinary| >= 2))
      && (r.Err? ==> OrdinaryError(ordinary, flat, r.error))
  {
    FlatAllIsClassified(ordinary);
    hide FlatAll, IsServerCtx;
  }

  /** What a signature is parsed as: the first error of its checks, or its parts. */
  function TailOf(params: seq<Param>, attrs: Attrs, output: Option<Type>): Result<Tail> {
    var support := NormalizeTaskSupport(KindOf(TaskPart(params)), attrs.taskSupport);
    if support.Err? then Err(support.error) else
    var kind := OrdinaryOf(OrdinaryPart(params), attrs.flat);
    if kind.Err? then Err(kind.error) else
    var returnKind := ParseToolReturn(output);
    if returnKind.Err? then Err(returnKind.error) else
    Ok(Tail(ContextPart(params) != [], KindOf(TaskPart(params)), kind.value, returnKind.value,
            attrs.(taskSupport := support.value)))
  }

  /** A signature is accepted exactly when its three parts fit, and every parameter is in one of them. */
  lemma TailIsClassified(params: seq<Param>, attrs: Attrs, output: Option<Type>)
    ensures var r, task, ordinary := TailOf(params, attrs, output), TaskPart(params), OrdinaryPart(params);
      && (r.Ok? <==> Accepts(ContextPart(params), task, ordinary, attrs, output))
      && (r.Ok? ==>
            && r.value.hasCtx == (ContextPart(params) != []) && r.value.task == KindOf(task)
            && Represents(r.value.kind, ordinary)
            && (r.value.kind.FlatParams? <==> attrs.flat || |ordinary| >= 2)
            && Ok(r.value.returnKind) == ParseToolReturn(output)
            && r.value.attrs == attrs.(taskSupport := NormalizeTaskSupport(KindOf(task), attrs.taskSupport).value))
      && (r.Err? ==>
            var support := NormalizeTaskSupport(KindOf(task), attrs.taskSupport);
            if support.Err? then r.error == support.error
            else if !OrdinaryOk(ordinary, attrs.flat) then OrdinaryError(ordinary, attrs.flat, r.error)
            else ParseToolReturn(output) == Err(r.error))
  {
    OrdinaryIsClassified(OrdinaryPart(params), attrs.flat);
    hide OrdinaryOf, OrdinaryOk, OrdinaryError, Represents, ParseToolReturn, NormalizeTaskSupport, KindOf, TaskPart, ContextPart;
  }

  /** The place of the first ordinary parameter, and the task parameter before it. */
  method SkipContextAndTask(params: seq<Param>) returns (hasCtx: bool, kind: TaskKind, startIndex: nat)
    ensures hasCtx == (ContextPart(params) != []) && kind == KindOf(TaskPart(params))
    ensures startIndex <= |params| && params[startIndex..] == OrdinaryPart(params)
  {
    hasCtx := false;
    startIndex := 0;
    if |params| > 0 && params[0].Typed? && IsServerCtx(params[0].ty) {
      hasCtx := true;
      startIndex := 1;
    }
    assert startIndex == |ContextPart(params)|;
    hide IsServerCtx, IsTaskMetadata, IsOptionTaskMetadata;
    kind := NoTask;
    if |params| > startIndex && params[startIndex].Typed? {
      var ty := params[startIndex].ty;
      if IsTaskMetadata(ty) {
        kind := RequiredTask;
        startIndex := startIndex + 1;
      } else if IsOptionTaskMetadata(ty) {
        kind := OptionalTask;
        startIndex := startIndex + 1;
      }
    }
  }

  method ParseToolTail(params: seq<Param>, attrs: Attrs, output: Option<Type>) returns (r: Result<Tail>)
    ensures r == TailOf(params, attrs, output)
  {
    hide KindOf, TaskPart, ContextPart, OrdinaryPart, OrdinaryOf, ParseToolReturn, NormalizeTaskSupport;
    var hasCtx, kind, startIndex := SkipContextAndTask(params);
    var support := NormalizeTaskSupport(kind, attrs.taskSupport);
    if support.Err? { return Err(support.error); }
    var remaining := params[startIndex..];
    var paramsKind := ParseOrdinary(remaining, attrs.flat);
    if paramsKind.Err? { return Err(paramsKind.error); }
    var returnKind := ParseToolReturn(output);
    if returnKind.Err? { return Err(returnKind.error); }
    return Ok(Tail(hasCtx, kind, paramsKind.value, returnKind.value, attrs.(taskSupport := support.value)));
  }

  // ----- what an accepted signature is -----

  /** A path that ends in `Option`, with an argument that leads to task metadata. */
  ghost predicate IsOptionOfTask(ty: Type) {
    && IsPathTo(ty, "Option")
    && var arguments := ty.segments[|ty.segments| - 1].arguments;
       && arguments.AngleBracketed?
       && exists i :: 0 <= i < |arguments.args|
            && arguments.args[i].TypeArgument? && LeadsTo(arguments.args[i].ty, "TaskMetadata")
  }

  /** Which types make a context, and which a task parameter. */
  lemma ParametersByType(ty: Type)
    ensures IsServerCtx(ty) <==> LeadsTo(ty, "ServerCtx")
    ensures IsTaskMetadata(ty) <==> LeadsTo(ty, "TaskMetadata")
    ensures IsOptionTaskMetadata(ty) <==> IsOptionOfTask(ty)
  {
    EndsWithLeads(ty, "ServerCtx");
    EndsWithLeads(ty, "TaskMetadata");
    if IsPathTo(ty, "Option") && ty.segments[|ty.segments| - 1].arguments.AngleBracketed? {
      var args := ty.segments[|ty.segments| - 1].arguments.args;
      forall i | 0 <= i < |args| && args[i].TypeArgument?
        ensures IsTaskMetadata(args[i].ty) <==> LeadsTo(args[i].ty, "TaskMetadata")
      {
        EndsWithLeads(args[i].ty, "TaskMetadata");
      }
    }
    hide LeadsTo, EndsWith;
  }

  /** A task parameter is required when its type leads to task metadata, and optional when it is an option of it. */
  lemma TaskKindIsNamed(params: seq<Param>)
    ensures var task, kind := TaskPart(params), KindOf(TaskPart(params));
      && (kind == NoTask <==> task == [])
      && (kind == RequiredTask <==> task != [] && LeadsTo(task[0].ty, "TaskMetadata"))
      && (kind == OptionalTask <==> task != [] && !LeadsTo(task[0].ty, "TaskMetadata") && IsOptionOfTask(task[0].ty))
  {
    if TaskPart(params) != [] {
      ParametersByType(TaskPart(params)[0].ty);
    }
    hide LeadsTo, IsOptionOfTask, IsTaskMetadata, IsOptionTaskMetadata;
  }

  lemma TaskIsNoContext(p: Param)
    requires IsTask(p)
    ensures !IsContext(p)
  {
    assert "ServerCtx"[0] == 'S' && "TaskMetadata"[0] == 'T' && "Option"[0] == 'O';
  }

  lemma SplitIsUnique(params: seq<Param>, c: seq<Param>, t: seq<Param>, o: seq<Param>, c': seq<Param>, t': seq<Param>, o': seq<Param>)
    requires Splits(params, c, t, o) && NoContext(o)
    requires Splits(params, c', t', o') && NoContext(o')
    ensures c == c' && t == t' && o == o'
    ensures forall i :: 0 <= i < |params| && IsContext(params[i]) ==> i == 0 && c == [params[0]]
  {
    if t != [] { TaskIsNoContext(t[0]); }
    if t' != [] { TaskIsNoContext(t'[0]); }
    ContextIsFirst(params, c, t, o);
    ContextIsFirst(params, c', t', o');
    hide IsContext, NoContext;
    assert c == c';
    var rest := params[|c|..];
    assert rest == t + o && rest == t' + o';
    if rest != [] {
      assert t == [rest[0]] || t == [];
      assert t' == [rest[0]] || t' == [];
    }
    assert o == rest[|t|..] && o' == rest[|t'|..];
  }

  /** The parts of an accepted signature are the only ones that it has. */
  lemma PartsAreUnique(params: seq<Param>, c: seq<Param>, t: seq<Param>, o: seq<Param>)
    requires NoContext(OrdinaryPart(params))
    requires Splits(params, c, t, o) && NoContext(o)
    ensures c == ContextPart(params) && t == TaskPart(params) && o == OrdinaryPart(params)
    ensures forall i :: 0 <= i < |params| && IsContext(params[i]) ==> i == 0
  {
    PartsSplit(params);
    SplitIsUnique(params, c, t, o, ContextPart(params), TaskPart(params), OrdinaryPart(params));
  }

  lemma ContextIsFirst(params: seq<Param>, c: seq<Param>, t: seq<Param>, o: seq<Param>)
    requires Splits(params, c, t, o) && NoContext(o)
    requires t != [] ==> !IsContext(t[0])
    ensures c == if params != [] && IsContext(params[0]) then [params[0]] else []
    ensures forall i :: 0 <= i < |params| && IsContext(params[i]) ==> i == 0
  {
    hide IsServerCtx, IsTaskMetadata, IsOptionTaskMetadata;
    forall i | |c| <= i < |params| ensures !IsContext(params[i]) {
      if i >= |c| + |t| {
        assert params[i] == o[i - |c| - |t|];
      } else {
        assert params[i] == t[i - |c|];
      }
    }
    if c != [] {
      assert params[0] == c[0];
    }
  }

  /** The task support of an accepted signature: what its task parameter asks for, and what was declared. */
  lemma SupportFollowsTask(task: TaskKind, declared: Option<TaskSupport>)
    ensures var r := NormalizeTaskSupport(task, declared);
      && (r.Ok? ==> declared == None || r.value == declared)
      && (r.Ok? ==> (r.value == Some(Required) <==> task == RequiredTask))
      && (r.Ok? ==> (r.value == Some(Optional) <==> task == OptionalTask))
      && (r.Ok? && declared == None && task == NoTask ==> r.value == None)
      && (r.Err? <==> declared.Some? && declared.value != match task
            case NoTask => Forbidden case RequiredTask => Required case OptionalTask => Optional)
  {
  }

  /** A task parameter counts as an ordinary one exactly when it comes after the place that follows the context. */
  lemma LateTaskIsOrdinary(params: seq<Param>)
    ensures (exists i :: 0 <= i < |OrdinaryPart(params)| && IsTask(OrdinaryPart(params)[i]))
       <==> (exists k :: |ContextPart(params)| < k < |params| && IsTask(params[k]))
  {
    PartsSplit(params);
    hide IsTask, IsContext;
    var ordinary, n := OrdinaryPart(params), |ContextPart(params)| + |TaskPart(params)|;
    if i :| 0 <= i < |ordinary| && IsTask(ordinary[i]) {
      assert params[n + i] == ordinary[i];
    }
    if k :| |ContextPart(params)| < k < |params| && IsTask(params[k]) {
      assert params[k] == ordinary[k - n];
    }
  }

  function TaskParam(name: Bytes): Param {
    Typed(Ident(name, false), Path([Segment("TaskMetadata", NoArguments)]))
  }

  /** Two task parameters are accepted, and the second is an ordinary one. */
  method SecondTaskIsAccepted(a: Bytes, b: Bytes) returns (r: Result<Tail>)
    ensures r == Ok(Tail(false, RequiredTask, TypedParams(TaskParam(b).ty), CallResult, Attrs(Some(Required), false)))
  {
    var params := [TaskParam(a), TaskParam(b)];
    var output := Some(Path([Segment("Result", AngleBracketed([TypeArgument(Path([Segment("CallToolResult", NoArguments)]))]))]));
    assert "ServerCtx"[0] == 'S' && "TaskMetadata"[0] == 'T';
    assert IsTask(params[0]) && !IsServerCtx(params[0].ty) && !IsServerCtx(params[1].ty);
    assert ParseToolReturn(output) == Ok(CallResult);
    assert TaskPart(params) == [params[0]] && OrdinaryPart(params) == [params[1]];
    r := ParseToolTail(params, Attrs(None, false), output);
  }

  // ----- identifiers in token streams -----

  datatype Token = IdentToken(name: Bytes) | TokenGroup(stream: seq<Token>) | OtherToken

  predicate Mentions(tokens: seq<Token>, idents: seq<Bytes>)
    decreases tokens
  {
    exists i :: 0 <= i < |tokens| && TokenMentions(tokens[i], idents)
  }

  predicate TokenMentions(token: Token, idents: seq<Bytes>)
    decreases token
  {
    match token
    case IdentToken(name) => name in idents
    case TokenGroup(stream) => Mentions(stream, idents)
    case OtherToken => false
  }

  /** Every identifier of a stream, with those inside groups. */
  function Idents(tokens: seq<Token>): seq<Bytes>
    decreases tokens
  {
    if tokens == [] then []
    else
      (match tokens[0]
       case IdentToken(name) => [name]
       case TokenGroup(stream) => Idents(stream)
       case OtherToken => [])
      + Idents(tokens[1..])
  }

  lemma MentionsFirst(tokens: seq<Token>, idents: seq<Bytes>)
    requires tokens != []
    ensures Mentions(tokens, idents) <==> TokenMentions(tokens[0], idents) || Mentions(tokens[1..], idents)
  {
    hide TokenMentions;
    if Mentions(tokens[1..], idents) {
      var i :| 0 <= i < |tokens[1..]| && TokenMentions(tokens[1..][i], idents);
      assert tokens[i + 1] == tokens[1..][i];
    }
    if Mentions(tokens, idents) {
      var i :| 0 <= i < |tokens| && TokenMentions(tokens[i], idents);
      if i > 0 {
        assert tokens[i] == tokens[1..][i - 1];
      }
    }
  }

  /** A stream mentions one of some identifiers exactly when it is among those of the stream, at any depth. */
  lemma {:induction false} MentionsIsOccurrence(tokens: seq<Token>, idents: seq<Bytes>)
    ensures Mentions(tokens, idents) <==> exists name :: name in idents && name in Idents(tokens)
    decreases tokens
  {
    if tokens != [] {
      MentionsFirst(tokens, idents);
      MentionsIsOccurrence(tokens[1..], idents);
      match tokens[0]
      case IdentToken(name) =>
      case TokenGroup(stream) => MentionsIsOccurrence(stream, idents);
      case OtherToken =>
    }
  }

  // ----- the tools and groups of an impl block -----

  datatype Tool = Tool(name: Bytes, tail: Tail)

  datatype Group = GroupMethod(name: Bytes, segment: Option<Bytes>)

  datatype Signature = Signature(ident: Bytes, isAsync: bool, inputs: seq<Param>, output: Option<Type>)

  /** The group attribute of a method: its name key, and whether it has another one. */
  datatype GroupMeta = GroupMeta(name: Option<Bytes>, otherKeys: bool)

  /** A method with its tool and group attributes, which may be malformed, or an item of another kind. */
  datatype Item =
    | Method(sig: Signature, tool: Result<Option<Attrs>>, group: Result<Option<GroupMeta>>)
    | OtherItem

  /** An identifier without its raw prefix. */
  function Unraw(ident: Bytes): Bytes {
    if "r#" <= ident then ident[2..] else ident
  }

  /** What is wrong with the first of some parameters as a receiver. */
  function ReceiverError(inputs: seq<Param>): Option<SignatureError> {
    if inputs == [] then Some(NoReceiver)
    else if inputs[0].Typed? then Some(FirstNotReceiver)
    else if inputs[0].reference && !inputs[0].mutable then None
    else Some(ReceiverNotShared)
  }

  function ToolOf(sig: Signature, attrs: Result<Option<Attrs>>): Result<Option<Tool>> {
    if attrs.Err? then Err(attrs.error)
    else if attrs.value == None then Ok(None)
    else if !sig.isAsync then Err(ToolNotAsync)
    else
      match ReceiverError(sig.inputs)
      case Some(error) => Err(error)
      case None =>
        match TailOf(sig.inputs[1..], attrs.value.value, sig.output)
        case Err(error) => Err(error)
        case Ok(tail) => Ok(Some(Tool(Unraw(sig.ident), tail)))
  }

  method ParseToolMethod(sig: Signature, attrs: Result<Option<Attrs>>) returns (r: Result<Option<Tool>>)
    ensures r == ToolOf(sig, attrs)
  {
    if attrs.Err? { return Err(attrs.error); }
    if attrs.value == None { return Ok(None); }
    if !sig.isAsync { return Err(ToolNotAsync); }
    if sig.inputs == [] { return Err(NoReceiver); }
    var invalid := ReceiverError(sig.inputs);
    if invalid.Some? { return Err(invalid.value); }
    var tail := ParseToolTail(sig.inputs[1..], attrs.value.value, sig.output);
    if tail.Err? { return Err(tail.error); }
    return Ok(Some(Tool(Unraw(sig.ident), tail.value)));
  }

  function GroupOf(sig: Signature, meta: Result<Option<GroupMeta>>): Result<Option<Group>> {
    if meta.Err? then Err(meta.error)
    else if meta.value == None then Ok(None)
    else if meta.value.value.otherKeys then Err(GroupKeys)
    else if sig.isAsync then Err(GroupAsync)
    else if ReceiverError(sig.inputs).Some? then Err(ReceiverError(sig.inputs).value)
    else if |sig.inputs| > 1 then Err(GroupParams)
    else if sig.output == None then Err(GroupOutput)
    else Ok(Some(GroupMethod(sig.ident, meta.value.value.name)))
  }

  /** A receiver by shared reference, and nothing else, is accepted. */
  predicate SharedReceiver(inputs: seq<Param>) { inputs != [] && inputs[0] == Receiver(true, false) }

  /** The check that a method fails first: each has failed when the ones before it have passed. */
  predicate FailsFirst(checks: seq<(bool, SignatureError)>, error: SignatureError) {
    exists i :: 0 <= i < |checks| && !checks[i].0 && checks[i].1 == error && forall j :: 0 <= j < i ==> checks[j].0
  }

  function ReceiverChecks(inputs: seq<Param>): seq<(bool, SignatureError)> {
    [(inputs != [], NoReceiver), (inputs != [] ==> inputs[0].Receiver?, FirstNotReceiver),
     (SharedReceiver(inputs), ReceiverNotShared)]
  }

  function GroupChecks(sig: Signature, meta: GroupMeta): seq<(bool, SignatureError)> {
    [(!meta.otherKeys, GroupKeys), (!sig.isAsync, GroupAsync)] + ReceiverChecks(sig.inputs)
    + [(|sig.inputs| <= 1, GroupParams), (sig.output.Some?, GroupOutput)]
  }

  /**
   A method is a group, under its identifier and with the name of its attribute, exactly when the
   attribute has no other key, and the method is synchronous, takes a shared receiver alone, and
   returns something. Otherwise it gives the first error of these checks.
   */
  lemma GroupIsClassified(sig: Signature, meta: Result<Option<GroupMeta>>)
    ensures meta.Err? ==> GroupOf(sig, meta) == Err(meta.error)
    ensures GroupOf(sig, meta) == Ok(None) <==> meta == Ok(None)
    ensures forall g: Group :: GroupOf(sig, meta) == Ok(Some(g)) <==>
      && meta.Ok? && meta.value.Some? && !meta.value.value.otherKeys && !sig.isAsync
      && sig.inputs == [Receiver(true, false)] && sig.output.Some? && g == GroupMethod(sig.ident, meta.value.value.name)
    ensures meta.Ok? && GroupOf(sig, meta).Err? ==>
      meta.value.Some? && FailsFirst(GroupChecks(sig, meta.value.value), GroupOf(sig, meta).error)
  {
    if meta.Ok? && GroupOf(sig, meta).Err? {
      var checks, inputs := GroupChecks(sig, meta.value.value), sig.inputs;
      var i := if meta.value.value.otherKeys then 0 else if sig.isAsync then 1 else if inputs == [] then 2
        else if inputs[0].Typed? then 3 else if !SharedReceiver(inputs) then 4 else if |inputs| > 1 then 5 else 6;
      assert !checks[i].0 && checks[i].1 == GroupOf(sig, meta).error;
    }
  }

  function ToolChecks(sig: Signature): seq<(bool, SignatureError)> {
    [(sig.isAsync, ToolNotAsync)] + ReceiverChecks(sig.inputs)
  }

  /**
   A method is a tool, under its identifier without a raw prefix, exactly when it has the attribute,
   is asynchronous, has a shared receiver, and its other parameters and its output are accepted.
   Otherwise it gives the first error of these checks.
   */
  lemma ToolIsClassified(sig: Signature, attrs: Result<Option<Attrs>>)
    ensures attrs.Err? ==> ToolOf(sig, attrs) == Err(attrs.error)
    ensures ToolOf(sig, attrs) == Ok(None) <==> attrs == Ok(None)
    ensures forall tool: Tool :: ToolOf(sig, attrs) == Ok(Some(tool)) <==>
      && attrs.Ok? && attrs.value.Some? && sig.isAsync && SharedReceiver(sig.inputs)
      && TailOf(sig.inputs[1..], attrs.value.value, sig.output) == Ok(tool.tail)
      && sig.ident == (if "r#" <= sig.ident then "r#" + tool.name else tool.name)
    ensures attrs.Ok? && ToolOf(sig, attrs).Err? ==>
      && attrs.value.Some?
      && if sig.isAsync && SharedReceiver(sig.inputs)
         then TailOf(sig.inputs[1..], attrs.value.value, sig.output) == Err(ToolOf(sig, attrs).error)
         else FailsFirst(ToolChecks(sig), ToolOf(sig, attrs).error)
  {
    hide TailOf;
    assert "r#" <= sig.ident ==> sig.ident == "r#" + sig.ident[2..];
    if attrs.Ok? && attrs.value.Some? && !(sig.isAsync && SharedReceiver(sig.inputs)) {
      var checks, inputs := ToolChecks(sig), sig.inputs;
      var i := if !sig.isAsync then 0 else if inputs == [] then 1 else if inputs[0].Typed? then 2 else 3;
      assert !checks[i].0 && checks[i].1 == ToolOf(sig, attrs).error;
    }
  }

  predicate IsTool(item: Item) { item.Method? && ToolOf(item.sig, item.tool).Ok? && ToolOf(item.sig, item.tool).value.Some? }

  predicate IsGroup(item: Item) { item.Method? && GroupOf(item.sig, item.group).Ok? && GroupOf(item.sig, item.group).value.Some? }

  predicate WellFormed(item: Item) {
    item.Method? ==> ToolOf(item.sig, item.tool).Ok? && GroupOf(item.sig, item.group).Ok? && !(IsTool(item) && IsGroup(item))
  }

  function ToolsOf(items: seq<Item>): seq<Tool> {
    if items == [] then []
    else
      var last := items[|items| - 1];
      ToolsOf(items[..|items| - 1]) + if IsTool(last) then [ToolOf(last.sig, last.tool).value.value] else []
  }

  function GroupsOf(items: seq<Item>): seq<Group> {
    if items == [] then []
    else
      var last := items[|items| - 1];
      GroupsOf(items[..|items| - 1]) + if IsGroup(last) then [GroupOf(last.sig, last.group).value.value] else []
  }

  predicate DistinctNames(tools: seq<Tool>) {
    forall i, j :: 0 <= i < j < |tools| ==> tools[i].name != tools[j].name
  }

  /** The first tool whose name an earlier tool has. */
  predicate FirstDuplicate(tools: seq<Tool>, i: nat) {
    && i < |tools|
    && DistinctNames(tools[..i])
    && exists j :: 0 <= j < i && tools[j].name == tools[i].name
  }

  method CheckNames(tools: seq<Tool>) returns (duplicate: Option<nat>)
    ensures duplicate == None <==> DistinctNames(tools)
    ensures duplicate.Some? ==> FirstDuplicate(tools, duplicate.value)
  {
    var seen: set<Bytes> := {};
    var i := 0;
    while i < |tools|
      invariant i <= |tools| && DistinctNames(tools[..i])
      invariant forall name :: name in seen <==> exists j :: 0 <= j < i && tools[j].name == name
    {
      if tools[i].name in seen {
        return Some(i);
      }
      seen := seen + {tools[i].name};
      i := i + 1;
    }
    assert tools[..i] == tools;
    return None;
  }

  function ItemError(item: Item): SignatureError
    requires !WellFormed(item)
  {
    var tool, group := ToolOf(item.sig, item.tool), GroupOf(item.sig, item.group);
    if tool.Err? then tool.error else if group.Err? then group.error else BothToolAndGroup
  }

  predicate AllWellFormed(items: seq<Item>) {
    forall i :: 0 <= i < |items| ==> WellFormed(items[i])
  }

  /** The error of a refused block: that of its first bad item, or the first duplicate name. */
  ghost predicate BlockError(items: seq<Item>, error: SignatureError) {
    if AllWellFormed(items) then
      exists i: nat :: FirstDuplicate(ToolsOf(items), i) && error == DuplicateName(ToolsOf(items)[i].name)
    else
      exists i :: 0 <= i < |items| && AllWellFormed(items[..i]) && !WellFormed(items[i]) && error == ItemError(items[i])
  }

  /** The collection loop, then the check for duplicate names. */
  method CollectTools(items: seq<Item>) returns (r: Result<(seq<Tool>, seq<Group>)>)
    ensures r.Ok? <==> AllWellFormed(items) && DistinctNames(ToolsOf(items))
    ensures r.Ok? ==> r.value == (ToolsOf(items), GroupsOf(items))
    ensures r.Err? ==> BlockError(items, r.error)
  {
    hide ToolOf, GroupOf;
    var tools: seq<Tool> := [];
    var groups: seq<Group> := [];
    var i := 0;
    assert items[..0] == [];
    while i < |items|
      invariant i <= |items| && tools == ToolsOf(items[..i]) && groups == GroupsOf(items[..i])
      invariant AllWellFormed(items[..i])
    {
      assert items[..i + 1][..i] == items[..i];
      var item := items[i];
      if item.Method? {
        var tool := ParseToolMethod(item.sig, item.tool);
        if tool.Err? { return Err(tool.error); }
        var group := GroupOf(item.sig, item.group);
        if group.Err? { return Err(group.error); }
        if tool.value.Some? && group.value.Some? { return Err(BothToolAndGroup); }
        if tool.value.Some? {
          tools := tools + [tool.value.value];
        } else if group.value.Some? {
          groups := groups + [group.value.value];
        }
      }
      i := i + 1;
    }
    assert items[..i] == items;
    var duplicate := CheckNames(tools);
    if duplicate.Some? {
      return Err(DuplicateName(tools[duplicate.value].name));
    }
    return Ok((tools, groups));
  }

  /** Every group of an accepted block comes from one method that is a group, under its name, in order. */
  lemma {:induction false} GroupsComeFromMethods(items: seq<Item>, g: nat) returns (i: nat)
    requires AllWellFormed(items) && g < |GroupsOf(items)|
    ensures i < |items| && items[i].Method? && GroupOf(items[i].sig, items[i].group) == Ok(Some(GroupsOf(items)[g]))
    ensures GroupsOf(items[..i]) == GroupsOf(items)[..g]
  {
    hide GroupOf, ToolOf;
    var n := |items| - 1;
    var front := items[..n];
    if g < |GroupsOf(front)| {
      i := GroupsComeFromMethods(front, g);
      assert items[..i] == front[..i] && GroupsOf(items)[..g] == GroupsOf(front)[..g];
    } else {
      i := n;
    }
  }

  /**
   No method is both a tool and a group, because one must be async and the other must not. A method
   with both attributes is refused for that, and never for having both.
   */
  lemma BothIsNeverReported(item: Item)
    requires item.Method? && item.tool.Ok? && item.tool.value.Some? && item.group.Ok? && item.group.value.Some?
    ensures !(IsTool(item) && IsGroup(item)) && !WellFormed(item)
    ensures ItemError(item) != BothToolAndGroup
  {
    hide TailOf;
    TailError(item.sig.inputs, item.tool.value.value, item.sig.output);
  }

  lemma TailError(inputs: seq<Param>, attrs: Attrs, output: Option<Type>)
    ensures inputs != [] && TailOf(inputs[1..], attrs, output).Err? ==>
      TailOf(inputs[1..], attrs, output).error != BothToolAndGroup
  {
    if inputs != [] {
      TailIsClassified(inputs[1..], attrs, output);
      hide TailOf, OrdinaryOk;
    }
  }

  /**
   Every tool of an accepted block comes from one async method with a shared receiver, under its own
   name, and its other parameters are accepted in their three parts.
   */
  lemma {:induction false} ToolsComeFromMethods(items: seq<Item>, t: nat) returns (i: nat)
    requires AllWellFormed(items) && t < |ToolsOf(items)|
    ensures i < |items| && items[i].Method? && items[i].tool.Ok? && items[i].tool.value.Some?
    ensures var sig, attrs, tool := items[i].sig, items[i].tool.value.value, ToolsOf(items)[t];
      && sig.isAsync && sig.inputs != [] && sig.inputs[0] == Receiver(true, false)
      && tool.name == Unraw(sig.ident) && TailOf(sig.inputs[1..], attrs, sig.output) == Ok(tool.tail)
      && Accepts(ContextPart(sig.inputs[1..]), TaskPart(sig.inputs[1..]), OrdinaryPart(sig.inputs[1..]), attrs, sig.output)
  {
    hide TailOf, Accepts, GroupOf;
    var n := |items| - 1;
    var front := items[..n];
    if t < |ToolsOf(front)| {
      i := ToolsComeFromMethods(front, t);
    } else {
      i := n;
      var sig := items[n].sig;
      TailIsClassified(sig.inputs[1..], items[n].tool.value.value, sig.output);
    }
  }
}
