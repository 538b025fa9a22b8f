/**
 The connection lifecycle of a client: connect, initialize, disconnect, and a peer that closes.

 What the transport, the peer, and the callbacks do is a parameter of each operation, and so is
 the await point at which the future of the operation is dropped, if it is. A peer may close
 between operations, before the announcement, and from the announcement to the end of the callback.
 */
module Lifecycle {
  import opened Bytes

  type Version = Bytes

  datatype Connecting = ConnectOk | TransportFails | FramedFails | DroppedConnecting | DroppedReplacing
  datatype Reply = Selected(version: Version) | NoReply | DroppedAwaitingReply
  datatype Sending = SendOk | SendFails | DroppedSending
  datatype Callback = CallbackOk | CallbackFails | DroppedInCallback
  /** Whether a disconnect waits until the message loop has stopped, or its future is dropped there. */
  datatype Stopping = Stopped | DroppedStopping

  datatype Op =
    | Connect(how: Connecting)
    | Initialize(reply: Reply, openAfterReply: bool, sending: Sending, openAtEnd: bool, callback: Callback, stopping: Stopping)
    | Disconnect(stopping: Stopping)
    /**
     The transport is cleared: the peer closes it and the message loop ends by itself, or a loop
     that was left behind runs its last steps.
     */
    | TransportCleared

  datatype Event =
    | Connected
    | SentInitialized
    | CallbackStarted
    | CallbackEnded
    | HandlerStarted
    /** A handler was aborted, and the caller waited until its loop had stopped. */
    | HandlerStopped
    /** A handler was aborted, and nobody waited for its loop. */
    | HandlerLeft

  datatype Outcome = Done | Initialized(version: Version) | Failed | Abandoned

  /** The fields of the client, and whether its request handler has a transport. */
  datatype State = State(context: bool, onConnectCalled: bool, messageHandler: bool, transport: bool)

  datatype Result = Result(state: State, events: seq<Event>, outcome: Outcome)

  const NEW := State(false, false, false, false)

  // ----- each operation -----

  /** Take the handler out of the client and abort its loop, and wait for it or not. */
  function StopHandler(s: State, waited: bool): Result {
    var event := if waited then HandlerStopped else HandlerLeft;
    Result(s.(messageHandler := false), if s.messageHandler then [event] else [], Done)
  }

  function RunConnect(s: State, how: Connecting): Result {
    var cleared := s.(context := false, onConnectCalled := false);
    var stopped := StopHandler(cleared, how != DroppedReplacing);
    if how == TransportFails || how == FramedFails then Result(cleared, [], Failed)
    else if how == DroppedConnecting then Result(cleared, [], Abandoned)
    else if how == DroppedReplacing && s.messageHandler then Result(stopped.state, stopped.events, Abandoned)
    else Result(State(true, false, true, true), stopped.events + [HandlerStarted, Connected], Done)
  }

  function RunDisconnect(s: State, stopping: Stopping): Result {
    var stopped := StopHandler(s.(transport := false), stopping == Stopped);
    if stopping == DroppedStopping && s.messageHandler then stopped.(outcome := Abandoned)
    else Result(stopped.state.(context := false, onConnectCalled := false), stopped.events, Done)
  }

  /** A failure inside the handshake disconnects. */
  function Fail(s: State, events: seq<Event>, stopping: Stopping): Result {
    var d := RunDisconnect(s, stopping);
    Result(d.state, events + d.events, if d.outcome == Abandoned then Abandoned else Failed)
  }

  function RunCallOnConnect(s: State, version: Version, events: seq<Event>, callback: Callback, stopping: Stopping): Result {
    if s.onConnectCalled then Result(s, events, Initialized(version))
    else if !s.context then Fail(s, events, stopping)
    else
      var started := events + [CallbackStarted];
      match callback
      case DroppedInCallback => Result(s, started, Abandoned)
      case CallbackFails => Fail(s, started + [CallbackEnded], stopping)
      case CallbackOk => Result(s.(onConnectCalled := true), started + [CallbackEnded], Initialized(version))
  }

  function RunInitialize(supported: set<Version>, s: State, op: Op): Result
    requires op.Initialize?
  {
    if !s.transport then Fail(s, [], op.stopping)
    else match op.reply
      case DroppedAwaitingReply => Result(s, [], Abandoned)
      case NoReply => Fail(s, [], op.stopping)
      case Selected(version) =>
        var after := s.(transport := op.openAfterReply);
        if version !in supported then Fail(after, [], op.stopping)
        else if !after.transport then Fail(after, [], op.stopping)
        else match op.sending
          case DroppedSending => Result(after, [], Abandoned)
          case SendFails => Fail(after, [], op.stopping)
          case SendOk =>
            RunCallOnConnect(after.(transport := op.openAtEnd), version, [SentInitialized], op.callback, op.stopping)
  }

  function Step(supported: set<Version>, s: State, op: Op): Result {
    match op
    case Connect(how) => RunConnect(s, how)
    case Initialize(_, _, _, _, _, _) => RunInitialize(supported, s, op)
    case Disconnect(stopping) => RunDisconnect(s, stopping)
    case TransportCleared => Result(s.(transport := false), [], Done)
  }

  /** The state after some operations on a new client, and every event on the way. */
  function Run(supported: set<Version>, ops: seq<Op>): (r: Result) {
    if ops == [] then Result(NEW, [], Done)
    else
      var before := Run(supported, ops[..|ops| - 1]);
      var last := Step(supported, before.state, ops[|ops| - 1]);
      last.(events := before.events + last.events)
  }

  // ----- what a trace says -----

  /** How often an event happened since the last successful connect. */
  function Since(events: seq<Event>, e: Event): nat {
    if events == [] then 0
    else
      var last := events[|events| - 1];
      if last == Connected then 0
      else Since(events[..|events| - 1], e) + if last == e then 1 else 0
  }

  function Total(events: seq<Event>, e: Event): nat {
    if events == [] then 0
    else Total(events[..|events| - 1], e) + if events[|events| - 1] == e then 1 else 0
  }

  lemma SinceStep(events: seq<Event>, last: Event, e: Event)
    ensures Since(events + [last], e)
         == if last == Connected then 0 else Since(events, e) + if last == e then 1 else 0
    ensures Total(events + [last], e) == Total(events, e) + if last == e then 1 else 0
  {
    assert (events + [last])[..|events|] == events;
  }

  /** How often the callback was dropped while it ran, since the last successful connect. */
  function Drops(supported: set<Version>, ops: seq<Op>): nat {
    if ops == [] then 0
    else
      var front := ops[..|ops| - 1];
      var last := Step(supported, Run(supported, front).state, ops[|ops| - 1]);
      if Connected in last.events then 0
      else Drops(supported, front) + if CallbackStarted in last.events && CallbackEnded !in last.events then 1 else 0
  }

  // ----- laws -----

  /** The handlers that the client gave up, waited for or not. */
  function Ends(events: seq<Event>): nat { Total(events, HandlerStopped) + Total(events, HandlerLeft) }

  /** A connection that can still be used. A disconnect that was dropped leaves a context without one. */
  predicate Live(s: State) { s.context && s.transport }

  predicate Sound(s: State, events: seq<Event>, drops: nat) {
    && (Live(s) ==> s.messageHandler)
    && (s.onConnectCalled ==> s.context)
    && (Live(s) ==> Since(events, CallbackEnded) == if s.onConnectCalled then 1 else 0)
    && Since(events, CallbackEnded) <= 1
    && Since(events, CallbackStarted) == Since(events, CallbackEnded) + drops
    && Total(events, HandlerStarted) == Ends(events) + if s.messageHandler then 1 else 0
  }

  lemma {:induction false} SinceAppends(a: seq<Event>, b: seq<Event>, e: Event)
    ensures Since(a + b, e) == if Connected in b then Since(b, e) else Since(a, e) + Since(b, e)
    ensures Total(a + b, e) == Total(a, e) + Total(b, e)
    ensures Connected !in b ==> Since(b, e) == Total(b, e)
  {
    if b == [] {
      assert a + b == a;
    } else {
      var front, last := b[..|b| - 1], b[|b| - 1];
      assert a + b == (a + front) + [last] && b == front + [last];
      SinceAppends(a, front, e);
      SinceStep(a + front, last, e);
      SinceStep(front, last, e);
    }
  }

  lemma {:induction false} TotalIsZero(events: seq<Event>, e: Event)
    ensures Total(events, e) == 0 <==> e !in events
  {
    if events != [] {
      TotalIsZero(events[..|events| - 1], e);
      assert events == events[..|events| - 1] + [events[|events| - 1]];
    }
  }

  /** What one operation adds to the four counts of the trace. */
  predicate Adds(events: seq<Event>, started: nat, ended: nat, handlers: nat, stops: nat) {
    && Total(events, CallbackStarted) == started
    && Total(events, CallbackEnded) == ended
    && Total(events, HandlerStarted) == handlers
    && Ends(events) == stops
  }

  lemma AddsNothing()
    ensures Adds([], 0, 0, 0, 0)
  {
  }

  lemma AddsOne(events: seq<Event>, last: Event, started: nat, ended: nat, handlers: nat, stops: nat)
    requires Adds(events, started, ended, handlers, stops)
    ensures Adds(events + [last],
                 started + if last == CallbackStarted then 1 else 0, ended + if last == CallbackEnded then 1 else 0,
                 handlers + if last == HandlerStarted then 1 else 0,
                 stops + if last == HandlerStopped || last == HandlerLeft then 1 else 0)
  {
    SinceStep(events, last, CallbackStarted);
    SinceStep(events, last, CallbackEnded);
    SinceStep(events, last, HandlerStarted);
    SinceStep(events, last, HandlerStopped);
    SinceStep(events, last, HandlerLeft);
    hide Total;
  }

  /**
   What an operation that does not connect adds to a state and its trace: whether the callback
   runs and ends, and the handler that it stops. It leaves a live connection only to a live one.
   */
  predicate Summary(s: State, r: Result, runs: bool, ended: bool) {
    && Connected !in r.events
    && Adds(r.events, if runs then 1 else 0, if ended then 1 else 0, 0,
            if s.messageHandler && !r.state.messageHandler then 1 else 0)
    && (runs ==> Live(s) && !s.onConnectCalled) && (ended ==> runs)
    && (r.state.messageHandler ==> s.messageHandler)
    && (r.state.onConnectCalled ==> r.state.context)
    && (Live(r.state) ==>
          && Live(s) && r.state.messageHandler == s.messageHandler
          && (r.state.onConnectCalled <==> s.onConnectCalled || ended))
  }

  /** The state with a transport that is open or closed. */
  predicate SameBut(s: State, now: State) { now == s.(transport := now.transport) }

  lemma FailSummary(s: State, now: State, events: seq<Event>, runs: bool, ended: bool, stopping: Stopping)
    requires SameBut(s, now) && (s.onConnectCalled ==> s.context)
    requires Connected !in events && Adds(events, if runs then 1 else 0, if ended then 1 else 0, 0, 0)
    requires (runs ==> Live(s) && !s.onConnectCalled) && (ended ==> runs)
    ensures Summary(s, Fail(now, events, stopping), runs, ended)
  {
    hide Adds;
    if s.messageHandler {
      AddsOne(events, if stopping == Stopped then HandlerStopped else HandlerLeft, if runs then 1 else 0, if ended then 1 else 0, 0, 0);
    } else {
      assert events + [] == events;
    }
  }

  lemma CallOnConnectSummary(s: State, now: State, version: Version, callback: Callback, stopping: Stopping)
    returns (runs: bool, ended: bool)
    requires SameBut(s, now) && s.transport && (s.onConnectCalled ==> s.context)
    ensures Summary(s, RunCallOnConnect(now, version, [SentInitialized], callback, stopping), runs, ended)
  {
    AddsNothing();
    AddsOne([], SentInitialized, 0, 0, 0, 0);
    assert [] + [SentInitialized] == [SentInitialized];
    AddsOne([SentInitialized], CallbackStarted, 0, 0, 0, 0);
    var started := [SentInitialized] + [CallbackStarted];
    AddsOne(started, CallbackEnded, 1, 0, 0, 0);
    hide Adds, Fail;
    runs := !s.onConnectCalled && s.context;
    ended := runs && callback != DroppedInCallback;
    if !s.onConnectCalled {
      if !s.context {
        FailSummary(s, now, [SentInitialized], false, false, stopping);
      } else if callback == CallbackFails {
        FailSummary(s, now, started + [CallbackEnded], true, true, stopping);
      }
    }
  }

  lemma InitializeSummary(supported: set<Version>, s: State, op: Op) returns (runs: bool, ended: bool)
    requires op.Initialize? && (s.onConnectCalled ==> s.context)
    ensures Summary(s, RunInitialize(supported, s, op), runs, ended)
  {
    AddsNothing();
    hide Adds, Fail, RunCallOnConnect;
    var after := s.(transport := op.openAfterReply);
    FailSummary(s, s, [], false, false, op.stopping);
    FailSummary(s, after, [], false, false, op.stopping);
    runs, ended := false, false;
    if s.transport && op.reply.Selected? && op.reply.version in supported && op.openAfterReply && op.sending == SendOk {
      runs, ended := CallOnConnectSummary(s, after.(transport := op.openAtEnd), op.reply.version, op.callback, op.stopping);
    }
  }

  /** An operation that does not connect keeps the invariant. */
  lemma SummaryKeepsSound(s: State, events: seq<Event>, drops: nat, r: Result, runs: bool, ended: bool)
    requires Sound(s, events, drops) && Summary(s, r, runs, ended)
    ensures var dropped := if CallbackStarted in r.events && CallbackEnded !in r.events then 1 else 0;
      Connected !in r.events && Sound(r.state, events + r.events, drops + dropped)
  {
    SinceAppends(events, r.events, CallbackStarted);
    SinceAppends(events, r.events, CallbackEnded);
    SinceAppends(events, r.events, HandlerStarted);
    SinceAppends(events, r.events, HandlerStopped);
    SinceAppends(events, r.events, HandlerLeft);
    TotalIsZero(r.events, CallbackStarted);
    TotalIsZero(r.events, CallbackEnded);
    hide Since, Total;
  }

  /** A handler that is started, and the connect that ends with it. */
  lemma StartCounts(events: seq<Event>)
    ensures var after := events + [HandlerStarted] + [Connected];
      && (forall e :: Since(after, e) == 0)
      && Total(after, HandlerStarted) == Total(events, HandlerStarted) + 1
      && Total(after, HandlerStopped) == Total(events, HandlerStopped)
      && Total(after, HandlerLeft) == Total(events, HandlerLeft)
  {
    var after := events + [HandlerStarted] + [Connected];
    forall e ensures Since(after, e) == 0 && Total(after, e) == Total(events, e) + if e == HandlerStarted || e == Connected then 1 else 0 {
      SinceStep(events, HandlerStarted, e);
      SinceStep(events + [HandlerStarted], Connected, e);
    }
    hide Since, Total;
  }

  lemma ConnectKeepsSound(s: State, events: seq<Event>, drops: nat)
    requires Sound(s, events, drops)
    ensures var r := RunConnect(s, ConnectOk); Sound(r.state, events + r.events, 0)
  {
    var stop := if s.messageHandler then [HandlerStopped] else [];
    ConnectEvents(events, stop);
    StartCounts(events + stop);
    SinceStep(events, HandlerStopped, HandlerStarted);
    SinceStep(events, HandlerStopped, HandlerStopped);
    SinceStep(events, HandlerStopped, HandlerLeft);
    hide Since, Total;
    assert events + [] == events;
  }

  lemma ConnectEvents(events: seq<Event>, stop: seq<Event>)
    ensures events + (stop + [HandlerStarted, Connected]) == events + stop + [HandlerStarted] + [Connected]
  {
  }

  predicate Connects(s: State, how: Connecting) {
    how == ConnectOk || (how == DroppedReplacing && !s.messageHandler)
  }

  lemma FailedConnectSummary(s: State, how: Connecting)
    requires !Connects(s, how)
    ensures Summary(s, RunConnect(s, how), false, false)
  {
    AddsNothing();
    AddsOne([], HandlerLeft, 0, 0, 0, 0);
    assert [] + [HandlerLeft] == [HandlerLeft];
    hide Adds;
  }

  lemma ClosingSummary(s: State)
    requires s.onConnectCalled ==> s.context
    ensures Summary(s, Result(s.(transport := false), [], Done), false, false)
  {
    AddsNothing();
    hide Adds;
  }

  lemma DisconnectSummary(s: State, stopping: Stopping)
    requires s.onConnectCalled ==> s.context
    ensures Summary(s, RunDisconnect(s, stopping), false, false)
  {
    AddsNothing();
    FailSummary(s, s, [], false, false, stopping);
    hide Adds;
    assert Fail(s, [], stopping).events == RunDisconnect(s, stopping).events;
  }

  lemma StepKeepsSound(supported: set<Version>, s: State, events: seq<Event>, drops: nat, op: Op)
    requires Sound(s, events, drops)
    ensures var r := Step(supported, s, op);
      var dropped := if CallbackStarted in r.events && CallbackEnded !in r.events then 1 else 0;
      Sound(r.state, events + r.events, if Connected in r.events then 0 else drops + dropped)
  {
    hide Since, Total, Adds, RunInitialize, Summary, RunDisconnect;
    var r := Step(supported, s, op);
    var runs, ended := false, false;
    match op {
      case Connect(how) =>
        if Connects(s, how) {
          ConnectKeepsSound(s, events, drops);
          assert r == RunConnect(s, ConnectOk);
          return;
        }
        FailedConnectSummary(s, how);
      case Initialize(_, _, _, _, _, _) => runs, ended := InitializeSummary(supported, s, op);
      case Disconnect(stopping) => DisconnectSummary(s, stopping);
      case TransportCleared => ClosingSummary(s);
    }
    SummaryKeepsSound(s, events, drops, r, runs, ended);
    hide Sound;
  }

  /**
   Over every sequence of operations: each handler that was started is owned, or was waited for, or
   was left behind; the client owns one at most, and a connection that can be used owns it; the
   callback ends at most once for each successful connect, and it starts once more for each time
   that its initialize is dropped inside it.
   */
  lemma {:induction false} LifecycleIsSound(supported: set<Version>, ops: seq<Op>)
    ensures Sound(Run(supported, ops).state, Run(supported, ops).events, Drops(supported, ops))
  {
    if ops != [] {
      var front := ops[..|ops| - 1];
      LifecycleIsSound(supported, front);
      StepKeepsSound(supported, Run(supported, front).state, Run(supported, front).events, Drops(supported, front), ops[|ops| - 1]);
    }
  }

  /** The loops that may still run: those that were started, without those that were waited for. */
  function MayRun(events: seq<Event>): int {
    Total(events, HandlerStarted) - Total(events, HandlerStopped)
  }

  /**
   In every run, the loops that may run are the owned one and those that were left behind. So two
   never run at once while no operation is dropped as it waits for a loop to stop.
   */
  lemma LoopsAreAccountedFor(supported: set<Version>, ops: seq<Op>)
    ensures var r := Run(supported, ops);
      && MayRun(r.events) == Total(r.events, HandlerLeft) + (if r.state.messageHandler then 1 else 0)
      && (HandlerLeft !in r.events ==> 0 <= MayRun(r.events) <= 1)
  {
    LifecycleIsSound(supported, ops);
    TotalIsZero(Run(supported, ops).events, HandlerLeft);
    hide Run, Total, Since;
  }

  /**
   From every state that owns a handler, a disconnect that is dropped as it waits and a new connect
   leave one more loop that may run. It can clear the transport of the new connection.
   */
  lemma DroppedStopLeavesLoop(supported: set<Version>, ops: seq<Op>)
    requires Run(supported, ops).state.messageHandler
    ensures var more := [Disconnect(DroppedStopping), Connect(ConnectOk)];
      var r := Run(supported, ops + more);
      && r.outcome == Done && r.state == State(true, false, true, true)
      && MayRun(r.events) == MayRun(Run(supported, ops).events) + 1
      && Run(supported, ops + more + [TransportCleared]).state == State(true, false, true, false)
  {
    var drop, again := Disconnect(DroppedStopping), Connect(ConnectOk);
    var before := Run(supported, ops);
    DropThenConnect(supported, before.state);
    RunSnoc(supported, ops, drop);
    RunSnoc(supported, ops + [drop], again);
    assert ops + [drop] + [again] == ops + [drop, again];
    RunSnoc(supported, ops + [drop, again], TransportCleared);
    LoopCounts(before.events);
    hide Run, Total, Step, MayRun;
    ConnectEvents(before.events + [HandlerLeft], []);
    assert [] + [HandlerStarted, Connected] == [HandlerStarted, Connected];
    assert before.events + [HandlerLeft] + [] == before.events + [HandlerLeft];
  }

  lemma DropThenConnect(supported: set<Version>, s: State)
    requires s.messageHandler
    ensures var d := Step(supported, s, Disconnect(DroppedStopping));
      && d.events == [HandlerLeft] && !d.state.messageHandler
      && Step(supported, d.state, Connect(ConnectOk)) == Result(State(true, false, true, true), [HandlerStarted, Connected], Done)
    ensures Step(supported, State(true, false, true, true), TransportCleared).state == State(true, false, true, false)
  {
  }

  lemma RunSnoc(supported: set<Version>, ops: seq<Op>, last: Op)
    ensures var before, r := Run(supported, ops), Step(supported, Run(supported, ops).state, last);
      Run(supported, ops + [last]) == r.(events := before.events + r.events)
  {
    hide Step;
    assert (ops + [last])[..|ops|] == ops;
  }

  lemma LoopCounts(events: seq<Event>)
    ensures MayRun(events + [HandlerLeft] + [HandlerStarted] + [Connected]) == MayRun(events) + 1
  {
    SinceStep(events, HandlerLeft, HandlerStarted);
    SinceStep(events, HandlerLeft, HandlerStopped);
    StartCounts(events + [HandlerLeft]);
    hide Since, Total;
  }

  /** Three operations are enough for two loops. */
  lemma ThreeOperationsLeaveTwoLoops(supported: set<Version>)
    ensures MayRun(Run(supported, [Connect(ConnectOk), Disconnect(DroppedStopping), Connect(ConnectOk)]).events) == 2
  {
    var first := [Connect(ConnectOk)];
    RunSnoc(supported, [], Connect(ConnectOk));
    assert [] + first == first;
    DroppedStopLeavesLoop(supported, first);
    assert first + [Disconnect(DroppedStopping), Connect(ConnectOk)]
      == [Connect(ConnectOk), Disconnect(DroppedStopping), Connect(ConnectOk)];
    LoopsAreAccountedFor(supported, first);
    TotalIsZero(Run(supported, first).events, HandlerLeft);
    assert HandlerLeft !in Run(supported, first).events;
  }

  /** The callback starts at most once for each successful connect if no initialize is dropped inside it. */
  lemma CallbackStartsOnce(supported: set<Version>, ops: seq<Op>)
    requires Drops(supported, ops) == 0
    ensures Since(Run(supported, ops).events, CallbackStarted) <= 1
  {
    LifecycleIsSound(supported, ops);
  }

  /** A drop inside the callback lets it start again on one connection, in every state that reaches it. */
  lemma DroppedCallbackStartsAgain(supported: set<Version>, ops: seq<Op>, version: Version) returns (more: seq<Op>)
    requires version in supported
    requires Live(Run(supported, ops).state) && !Run(supported, ops).state.onConnectCalled
    ensures more == [Initialize(Selected(version), true, SendOk, true, DroppedInCallback, Stopped),
                     Initialize(Selected(version), true, SendOk, true, CallbackOk, Stopped)]
    ensures Run(supported, ops + more).outcome == Initialized(version)
    ensures Since(Run(supported, ops + more).events, CallbackStarted) == Since(Run(supported, ops).events, CallbackStarted) + 2
  {
    var first := Initialize(Selected(version), true, SendOk, true, DroppedInCallback, Stopped);
    var second := Initialize(Selected(version), true, SendOk, true, CallbackOk, Stopped);
    more := [first, second];
    StepAt(supported, State(true, false, Run(supported, ops).state.messageHandler, true), version, DroppedInCallback);
    StepAt(supported, State(true, false, Run(supported, ops).state.messageHandler, true), version, CallbackOk);
    RunTwice(supported, ops, first, second, [SentInitialized, CallbackStarted], [SentInitialized, CallbackStarted, CallbackEnded]);
    CallbackCounts();
    SinceTwice(Run(supported, ops).events, [SentInitialized, CallbackStarted], [SentInitialized, CallbackStarted, CallbackEnded]);
    hide Since, Total, Run, Step;
  }

  lemma StepAt(supported: set<Version>, s: State, version: Version, callback: Callback)
    requires version in supported && s.context && s.transport && !s.onConnectCalled && callback != CallbackFails
    ensures var r := Step(supported, s, Initialize(Selected(version), true, SendOk, true, callback, Stopped));
      if callback == CallbackOk
      then r.events == [SentInitialized, CallbackStarted, CallbackEnded] && r.outcome == Initialized(version)
      else r.events == [SentInitialized, CallbackStarted] && r.state == s
  {
  }

  lemma RunTwice(supported: set<Version>, ops: seq<Op>, first: Op, second: Op, a: seq<Event>, b: seq<Event>)
    requires var s := Run(supported, ops).state;
      && Step(supported, s, first).state == s && Step(supported, s, first).events == a
      && Step(supported, s, second).events == b
    ensures var r := Run(supported, ops + [first, second]);
      r.events == Run(supported, ops).events + a + b
      && r.outcome == Step(supported, Run(supported, ops).state, second).outcome
  {
    hide Step;
    var all := ops + [first, second];
    assert all[..|all| - 1] == ops + [first] && (ops + [first])[..|ops|] == ops;
  }

  lemma CallbackCounts()
    ensures Since([SentInitialized, CallbackStarted], CallbackStarted) == 1
    ensures Since([SentInitialized, CallbackStarted, CallbackEnded], CallbackStarted) == 1
  {
    assert [SentInitialized, CallbackStarted, CallbackEnded] == [SentInitialized] + [CallbackStarted] + [CallbackEnded];
    assert [SentInitialized, CallbackStarted] == [SentInitialized] + [CallbackStarted];
    SinceStep([], SentInitialized, CallbackStarted);
    SinceStep([SentInitialized], CallbackStarted, CallbackStarted);
    SinceStep([SentInitialized] + [CallbackStarted], CallbackEnded, CallbackStarted);
  }

  lemma SinceTwice(events: seq<Event>, a: seq<Event>, b: seq<Event>)
    requires Connected !in a && Connected !in b
    ensures Since(events + a + b, CallbackStarted)
         == Since(events, CallbackStarted) + Since(a, CallbackStarted) + Since(b, CallbackStarted)
  {
    SinceAppends(events, a, CallbackStarted);
    SinceAppends(events + a, b, CallbackStarted);
    hide Since;
  }

  /**
   A disconnect that is dropped while it waits leaves the context of a connection that is gone.
   Every next initialize fails, and every next operation clears what was left or connects anew.
   */
  lemma DroppedDisconnectIsRepaired(supported: set<Version>, s: State, next: Op)
    requires s.messageHandler
    ensures var d, r := RunDisconnect(s, DroppedStopping), Step(supported, RunDisconnect(s, DroppedStopping).state, next);
      && d.outcome == Abandoned && d.state == State(s.context, s.onConnectCalled, false, false)
      && (next.Initialize? ==> r.outcome == Failed && r.state == NEW && r.events == [])
      && (next.Disconnect? ==> r.outcome == Done && r.state == NEW)
      && (next.Connect? ==> r.state == if Connects(d.state, next.how) then State(true, false, true, true) else NEW)
  {
  }

  /**
   What one connect promises. It is done exactly when the transport works and no handler is left to
   be waited for; then the connection is new and the old handler has stopped. A transport that fails
   is reported, and leaves the handler and the transport as they were.
   */
  predicate ConnectPromise(s: State, how: Connecting, r: Result) {
    && (r.outcome.Done? <==> r.events != [] && r.events[|r.events| - 1] == Connected)
    && (r.outcome.Done? <==> Connects(s, how))
    && (r.outcome.Failed? <==> how == TransportFails || how == FramedFails)
    && (r.outcome.Abandoned? <==> how == DroppedConnecting || (how == DroppedReplacing && s.messageHandler))
    && (r.outcome.Done? ==>
          && r.state == State(true, false, true, true)
          && r.events == (if s.messageHandler then [HandlerStopped] else []) + [HandlerStarted, Connected])
    && (!r.outcome.Done? && how != DroppedReplacing ==>
          r.state == State(false, false, s.messageHandler, s.transport) && r.events == [])
    && (!r.outcome.Done? && how == DroppedReplacing ==>
          r.state == State(false, false, false, s.transport) && r.events == [HandlerLeft])
  }

  /** What one disconnect promises: nothing is left, unless it is dropped while it waits for a handler. */
  predicate DisconnectPromise(s: State, stopping: Stopping, r: Result) {
    var dropped := s.messageHandler && stopping == DroppedStopping;
    && r.outcome == (if dropped then Abandoned else Done)
    && r.state == (if dropped then State(s.context, s.onConnectCalled, false, false) else NEW)
    && r.events == if !s.messageHandler then [] else [if dropped then HandlerLeft else HandlerStopped]
  }

  /** Every connect and every disconnect of every run keeps its promise. */
  lemma ConnectAndDisconnectKeepTheirPromises(supported: set<Version>, ops: seq<Op>, how: Connecting, stopping: Stopping)
    ensures var s := Run(supported, ops).state;
      && ConnectPromise(s, how, Step(supported, s, Connect(how)))
      && DisconnectPromise(s, stopping, Step(supported, s, Disconnect(stopping)))
      && Step(supported, s, TransportCleared) == Result(State(s.context, s.onConnectCalled, s.messageHandler, false), [], Done)
  {
    hide Run;
    ConnectFrom(Run(supported, ops).state, how);
  }

  lemma ConnectFrom(s: State, how: Connecting)
    ensures ConnectPromise(s, how, RunConnect(s, how))
  {
  }

  lemma DisconnectFrom(s: State, stopping: Stopping)
    ensures DisconnectPromise(s, stopping, RunDisconnect(s, stopping))
  {
  }

  /** The peer selected a supported version and was still there. */
  predicate Agreed(supported: set<Version>, s: State, op: Op)
    requires op.Initialize?
  {
    s.transport && op.reply.Selected? && op.reply.version in supported && op.openAfterReply
  }

  /** The end of the handshake was announced to the peer. */
  predicate Announced(supported: set<Version>, s: State, op: Op)
    requires op.Initialize?
  {
    Agreed(supported, s, op) && op.sending == SendOk
  }

  predicate RunsCallback(supported: set<Version>, s: State, op: Op)
    requires op.Initialize?
  {
    Announced(supported, s, op) && s.context && !s.onConnectCalled
  }

  /** The future of the handshake is dropped where it waits for the peer or the callback. */
  predicate Dropped(supported: set<Version>, s: State, op: Op)
    requires op.Initialize?
  {
    || (s.transport && op.reply == DroppedAwaitingReply)
    || (Agreed(supported, s, op) && op.sending == DroppedSending)
    || (RunsCallback(supported, s, op) && op.callback == DroppedInCallback)
  }

  /**
   What one initialize promises. It succeeds exactly when the peer agreed on a supported version and
   was told so, and the callback has run, now or before. A failure that is not dropped leaves
   nothing. The callback starts only after the announcement, and only once for a connection. The
   peer may have closed when initialize succeeds.
   */
  predicate Promise(supported: set<Version>, s: State, op: Op, r: Result)
    requires op.Initialize?
  {
    var succeeds := Announced(supported, s, op)
      && (s.onConnectCalled || (RunsCallback(supported, s, op) && op.callback == CallbackOk));
    var dropped := Dropped(supported, s, op);
    && (r.outcome.Initialized? <==> succeeds)
    && (r.outcome.Abandoned? <==> dropped || (!succeeds && s.messageHandler && op.stopping == DroppedStopping))
    && (r.outcome.Failed? <==> !r.outcome.Initialized? && !r.outcome.Abandoned?)
    && (succeeds ==> r.outcome.version == op.reply.version && r.state == State(true, true, true, op.openAtEnd))
    && (r.outcome.Failed? ==> r.state == NEW)
    && (dropped ==>
          && r.state.context == s.context && r.state.onConnectCalled == s.onConnectCalled
          && r.state.messageHandler == s.messageHandler && HandlerStopped !in r.events && HandlerLeft !in r.events)
    && (r.outcome.Abandoned? && !dropped ==>
          r.state == State(s.context, s.onConnectCalled, false, false) && HandlerLeft in r.events)
    && (SentInitialized in r.events <==> Announced(supported, s, op))
    && (SentInitialized in r.events ==> r.events[0] == SentInitialized)
    && (CallbackStarted in r.events <==> RunsCallback(supported, s, op))
    && (CallbackStarted in r.events ==> r.events[1] == CallbackStarted)
    && (CallbackEnded in r.events <==> RunsCallback(supported, s, op) && op.callback != DroppedInCallback)
  }

  /** What every run keeps of the fields, and what an initialize relies on. */
  predicate Kept(s: State) { (s.onConnectCalled ==> s.context) && (Live(s) ==> s.messageHandler) }

  /** Every initialize of every run keeps its promise. */
  lemma InitializeKeepsItsPromise(supported: set<Version>, ops: seq<Op>, op: Op)
    requires op.Initialize?
    ensures Promise(supported, Run(supported, ops).state, op, Step(supported, Run(supported, ops).state, op))
  {
    LifecycleIsSound(supported, ops);
    InitializeFrom(supported, Run(supported, ops).state, op);
    hide Run, Step, Since, Total, Promise;
  }

  lemma InitializeFrom(supported: set<Version>, s: State, op: Op)
    requires op.Initialize? && Kept(s)
    ensures Promise(supported, s, op, Step(supported, s, op))
  {
    if Announced(supported, s, op) {
      AnnouncedFrom(supported, s, op);
    } else {
      FailPromise(s, [], op.stopping);
      FailPromise(s.(transport := op.openAfterReply), [], op.stopping);
      hide Fail, RunCallOnConnect;
    }
  }

  lemma AnnouncedFrom(supported: set<Version>, s: State, op: Op)
    requires op.Initialize? && Kept(s) && Announced(supported, s, op)
    ensures Promise(supported, s, op, RunInitialize(supported, s, op))
  {
    var now := s.(transport := op.openAtEnd);
    FailPromise(now, [SentInitialized] + [CallbackStarted] + [CallbackEnded], op.stopping);
    hide Fail;
    assert RunInitialize(supported, s, op) == RunCallOnConnect(now, op.reply.version, [SentInitialized], op.callback, op.stopping);
    hide RunInitialize;
    var ran := [SentInitialized] + [CallbackStarted] + [CallbackEnded];
    assert ran == [SentInitialized, CallbackStarted, CallbackEnded];
  }

  lemma FailPromise(s: State, events: seq<Event>, stopping: Stopping)
    ensures var r, dropped := Fail(s, events, stopping), s.messageHandler && stopping == DroppedStopping;
      && r.outcome == (if dropped then Abandoned else Failed)
      && r.state == (if dropped then State(s.context, s.onConnectCalled, false, false) else NEW)
      && r.events == events + if !s.messageHandler then [] else [if dropped then HandlerLeft else HandlerStopped]
  {
  }

  // ----- the client object -----

  /** The client as the program holds it: fields updated in place, with a ghost trace of the events. */
  class Client {
    const supported: set<Version>
    var context: bool
    var onConnectCalled: bool
    var messageHandler: bool
    var transport: bool
    ghost var trace: seq<Event>

    constructor (supported: set<Version>)
      ensures Fields() == NEW && trace == [] && this.supported == supported
    {
      this.supported := supported;
      context, onConnectCalled, messageHandler, transport := false, false, false, false;
      trace := [];
    }

    function Fields(): State
      reads this
    {
      State(context, onConnectCalled, messageHandler, transport)
    }

    /** The method did what `r` says, from the fields and the trace it started with. */
    twostate predicate Did(r: Result)
      reads this
    {
      Fields() == r.state && trace == old(trace) + r.events
    }

    /** Takes and aborts the handler. The caller waits for its loop to stop, or is dropped there. */
    method StopMessageHandler(stopping: Stopping) returns (dropped: bool)
      modifies `messageHandler, `trace
      ensures Did(StopHandler(old(Fields()), stopping == Stopped))
      ensures dropped == (old(messageHandler) && stopping == DroppedStopping)
    {
      dropped := false;
      if messageHandler {
        messageHandler := false;
        dropped := stopping == DroppedStopping;
        trace := trace + [if dropped then HandlerLeft else HandlerStopped];
      }
    }

    method StartMessageHandler(stopping: Stopping) returns (dropped: bool)
      modifies this
      ensures dropped == (old(messageHandler) && stopping == DroppedStopping)
      ensures Fields() == if dropped then StopHandler(old(Fields()), false).state else State(true, old(onConnectCalled), true, true)
      ensures trace == old(trace) + StopHandler(old(Fields()), stopping == Stopped).events + if dropped then [] else [HandlerStarted]
    {
      dropped := StopMessageHandler(stopping);
      if dropped { return; }
      transport := true;
      context := true;
      messageHandler := true;
      trace := trace + [HandlerStarted];
    }

    method Connect(how: Connecting) returns (outcome: Outcome)
      modifies this
      ensures exists r :: ConnectPromise(old(Fields()), how, r) && Did(r) && outcome == r.outcome
      ensures Did(RunConnect(old(Fields()), how))
      ensures outcome == RunConnect(old(Fields()), how).outcome
    {
      ConnectFrom(Fields(), how);
      hide ConnectPromise;
      context := false;
      onConnectCalled := false;
      if how == DroppedConnecting { return Abandoned; }
      if how == TransportFails { return Failed; }
      if how == FramedFails { return Failed; }
      var dropped := StartMessageHandler(if how == DroppedReplacing then DroppedStopping else Stopped);
      if dropped { return Abandoned; }
      trace := trace + [Connected];
      return Done;
    }

    method Disconnect(stopping: Stopping) returns (outcome: Outcome)
      modifies this
      ensures exists r :: DisconnectPromise(old(Fields()), stopping, r) && Did(r) && outcome == r.outcome
      ensures Did(RunDisconnect(old(Fields()), stopping))
      ensures outcome == RunDisconnect(old(Fields()), stopping).outcome
    {
      DisconnectFrom(Fields(), stopping);
      hide DisconnectPromise;
      transport := false;
      var dropped := StopMessageHandler(stopping);
      if dropped { return Abandoned; }
      context := false;
      onConnectCalled := false;
      return Done;
    }

    /** Runs the callback if it has not run; a failure is the caller's to handle. */
    method CallOnConnect(callback: Callback) returns (failed: bool, dropped: bool)
      modifies `onConnectCalled, `trace
      ensures failed == (!old(onConnectCalled) && (!context || callback == CallbackFails))
      ensures dropped == (!old(onConnectCalled) && context && callback == DroppedInCallback)
      ensures onConnectCalled == (old(onConnectCalled) || (context && callback == CallbackOk))
      ensures trace == old(trace) +
        if old(onConnectCalled) || !context then []
        else if dropped then [CallbackStarted] else [CallbackStarted, CallbackEnded]
    {
      failed, dropped := false, false;
      if onConnectCalled { return; }
      if !context { return true, false; }
      trace := trace + [CallbackStarted];
      if callback == DroppedInCallback { return false, true; }
      trace := trace + [CallbackEnded];
      if callback == CallbackFails { return true, false; }
      onConnectCalled := true;
    }

    /** The handshake inside initialize, before its result is looked at. */
    method Handshake(op: Op) returns (outcome: Outcome)
      requires op.Initialize?
      modifies `onConnectCalled, `transport, `trace
      ensures outcome != Done
      ensures !outcome.Failed? ==> Did(RunInitialize(supported, old(Fields()), op))
      ensures !outcome.Failed? ==> outcome == RunInitialize(supported, old(Fields()), op).outcome
      ensures outcome.Failed? ==>
        && |old(trace)| <= |trace| && trace[..|old(trace)|] == old(trace)
        && Fail(Fields(), trace[|old(trace)|..], op.stopping) == RunInitialize(supported, old(Fields()), op)
    {
      if !transport { return Failed; }
      match op.reply {
        case DroppedAwaitingReply => return Abandoned;
        case NoReply => return Failed;
        case Selected(version) =>
          transport := op.openAfterReply;
          if version !in supported { return Failed; }
          if !transport { return Failed; }
          match op.sending {
            case DroppedSending => return Abandoned;
            case SendFails => return Failed;
            case SendOk =>
              trace := trace + [SentInitialized];
              transport := op.openAtEnd;
              var failed, dropped := CallOnConnect(op.callback);
              if dropped { return Abandoned; }
              if failed { return Failed; }
              return Initialized(version);
          }
      }
    }

    method Initialize(op: Op) returns (outcome: Outcome)
      requires op.Initialize?
      modifies this
      ensures Kept(old(Fields())) ==> exists r :: Promise(supported, old(Fields()), op, r) && Did(r) && outcome == r.outcome
      ensures Did(RunInitialize(supported, old(Fields()), op))
      ensures outcome == RunInitialize(supported, old(Fields()), op).outcome
    {
      if Kept(Fields()) { InitializeFrom(supported, Fields(), op); }
      hide Promise, RunInitialize;
      outcome := Handshake(op);
      if outcome.Failed? {
        var disconnected := Disconnect(op.stopping);
        if disconnected == Abandoned { return Abandoned; }
      }
    }
  }
}
