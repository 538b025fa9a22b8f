/**
 The receive loop of a client and the detached tasks that answer server requests, as one
 transition system. Each locked section is one step, and the scheduler interleaves steps freely.
 */
module ClientLoop {
  import opened Bytes
  import opened Message
  import InFlight

  datatype Step =
    /** The loop receives a request, tracks it, and spawns its task. */
    | Receive(id: RequestId)
    /** The loop receives a cancellation notification; it may name no request. */
    | CancelNote(named: Option<RequestId>)
    /** The loop ends. Its tasks go on. */
    | Stop
    /** The handler of a task has returned, and the task stops tracking its request. */
    | FinishTask(task: nat)
    /** A task that was not cancelled takes the sink and tries to send its response. */
    | SendTask(task: nat)

  datatype Phase = Handling | Sending | Sent | Suppressed

  /** One spawned task, with the steps at which its request was received and finished. */
  datatype Task = Task(id: RequestId, phase: Phase, began: nat, finished: nat)

  /** A response that a task tried to send, and the identifier that it carries. */
  datatype Response = Response(task: nat, id: RequestId)

  datatype State = State(open: bool, table: InFlight.Table, tasks: seq<Task>, responses: seq<Response>)

  const START := State(true, InFlight.EMPTY, [], [])

  predicate Enabled(s: State, step: Step) {
    match step
    case Receive(_) => s.open
    case CancelNote(_) => s.open
    case Stop => s.open
    case FinishTask(t) => t < |s.tasks| && s.tasks[t].phase == Handling
    case SendTask(t) => t < |s.tasks| && s.tasks[t].phase == Sending
  }

  /** One step, the `now`-th of its run. */
  function Next(s: State, step: Step, now: nat): State
    requires s.table.Valid() && Enabled(s, step)
  {
    match step
    case Receive(id) =>
      s.(table := InFlight.Apply(s.table, InFlight.Begin(id)), tasks := s.tasks + [Task(id, Handling, now, 0)])
    case CancelNote(None) => s
    case CancelNote(Some(id)) => s.(table := InFlight.Apply(s.table, InFlight.Cancel(id)))
    case Stop => s.(open := false)
    case FinishTask(t) =>
      var task := s.tasks[t];
      var phase := if s.table.Tells(task.id) then Suppressed else Sending;
      s.(table := InFlight.Apply(s.table, InFlight.Finish(task.id)),
         tasks := s.tasks[t := task.(phase := phase, finished := now)])
    case SendTask(t) =>
      var task := s.tasks[t];
      s.(tasks := s.tasks[t := task.(phase := Sent)], responses := s.responses + [Response(t, task.id)])
  }

  predicate Legal(run: seq<Step>)
    decreases |run|, 0
  {
    run == [] ||
    var before, last := run[..|run| - 1], run[|run| - 1];
    Legal(before) && Enabled(After(before), last)
  }

  function After(run: seq<Step>): (s: State)
    requires Legal(run)
    ensures s.table.Valid()
    decreases |run|, 1
  {
    if run == [] then START else Next(After(run[..|run| - 1]), run[|run| - 1], |run| - 1)
  }

  /** The server never reuses the identifier of a request that is still in flight. */
  predicate FreshIds(run: seq<Step>)
    requires Legal(run)
  {
    forall i :: 0 <= i < |run| && run[i].Receive? ==> LegalPrefix(run, i) && run[i].id !in After(run[..i]).table.slots
  }

  /** A prefix of a legal run is legal. */
  predicate LegalPrefix(run: seq<Step>, i: nat) { i <= |run| && Legal(run[..i]) }

  lemma {:induction false} PrefixIsLegal(run: seq<Step>, i: nat)
    requires Legal(run) && i <= |run|
    ensures Legal(run[..i])
  {
    if i == |run| {
      assert run[..i] == run;
    } else {
      PrefixIsLegal(run[..|run| - 1], i);
      assert run[..|run| - 1][..i] == run[..i];
    }
  }

  /** A cancellation that names the request was processed between two steps of the run. */
  predicate CancelledBetween(run: seq<Step>, id: RequestId, from: nat, to: nat) {
    exists j :: from < j < to && j < |run| && run[j] == CancelNote(Some(id))
  }

  // ----- safety -----

  /** What holds of task `t`: it holds its token while it is handled, and its fate is settled after. */
  predicate TaskSound(run: seq<Step>, s: State, t: nat)
    requires t < |s.tasks| && t < |s.table.cancelled| && s.table.Valid()
  {
    var task := s.tasks[t];
    && task.began < |run| && run[task.began] == Receive(task.id)
    && match task.phase
       case Handling =>
         && task.id in s.table.slots && s.table.slots[task.id] == t
         && (s.table.cancelled[t] <==> CancelledBetween(run, task.id, task.began, |run|))
       case _ =>
         && s.table.Retired(t)
         && task.began < task.finished < |run| && run[task.finished] == FinishTask(t)
         && (s.table.cancelled[t] <==> CancelledBetween(run, task.id, task.began, task.finished))
         && (task.phase == Suppressed <==> s.table.cancelled[t])
  }

  predicate Sound(run: seq<Step>, s: State) {
    && s.table.Valid() && |s.tasks| == |s.table.cancelled|
    && (forall id <- s.table.slots :: s.tasks[s.table.slots[id]].id == id && s.tasks[s.table.slots[id]].phase == Handling)
    && (forall t :: 0 <= t < |s.tasks| ==> TaskSound(run, s, t))
  }

  lemma CancelledLater(run: seq<Step>, step: Step, id: RequestId, from: nat, to: nat)
    ensures to <= |run| ==> (CancelledBetween(run + [step], id, from, to) <==> CancelledBetween(run, id, from, to))
    ensures CancelledBetween(run + [step], id, from, |run| + 1)
       <==> CancelledBetween(run, id, from, |run|) || (from < |run| && step == CancelNote(Some(id)))
  {
    var all := run + [step];
    assert all[|run|] == step && forall j :: 0 <= j < |run| ==> all[j] == run[j];
  }

  lemma ReceiveKeepsTask(run: seq<Step>, s: State, id: RequestId, t: nat)
    requires Sound(run, s) && s.open && id !in s.table.slots && t <= |s.tasks|
    ensures TaskSound(run + [Receive(id)], Next(s, Receive(id), |run|), t)
  {
    var step, r := Receive(id), Next(s, Receive(id), |run|);
    CancelledLater(run, step, r.tasks[t].id, r.tasks[t].began, r.tasks[t].finished);
    hide CancelledBetween;
    if t < |s.tasks| {
      assert TaskSound(run, s, t);
    } else {
      assert !CancelledBetween(run + [step], id, |run|, |run| + 1);
    }
  }

  lemma CancelKeepsTask(run: seq<Step>, s: State, id: RequestId, t: nat)
    requires Sound(run, s) && s.open && t < |s.tasks|
    ensures TaskSound(run + [CancelNote(Some(id))], Next(s, CancelNote(Some(id)), |run|), t)
  {
    assert TaskSound(run, s, t);
    var task := s.tasks[t];
    CancelledLater(run, CancelNote(Some(id)), task.id, task.began, task.finished);
    hide CancelledBetween;
    if id in s.table.slots {
      assert TaskSound(run, s, s.table.slots[id]);
    }
  }

  lemma FinishKeepsTask(run: seq<Step>, s: State, u: nat, t: nat)
    requires Sound(run, s) && Enabled(s, FinishTask(u)) && t < |s.tasks|
    ensures TaskSound(run + [FinishTask(u)], Next(s, FinishTask(u), |run|), t)
  {
    assert TaskSound(run, s, t) && TaskSound(run, s, u);
    var task := s.tasks[t];
    CancelledLater(run, FinishTask(u), task.id, task.began, if t == u then |run| else task.finished);
    hide CancelledBetween;
  }

  lemma QuietStepKeepsTask(run: seq<Step>, s: State, step: Step, t: nat)
    requires Sound(run, s) && Enabled(s, step) && t < |s.tasks|
    requires step.SendTask? || step.Stop? || step == CancelNote(None)
    ensures TaskSound(run + [step], Next(s, step, |run|), t)
  {
    assert TaskSound(run, s, t);
    var task := s.tasks[t];
    CancelledLater(run, step, task.id, task.began, task.finished);
    hide CancelledBetween;
  }

  lemma StepKeepsTasks(run: seq<Step>, s: State, step: Step, t: nat)
    requires Sound(run, s) && Enabled(s, step) && t < |Next(s, step, |run|).tasks|
    requires step.Receive? ==> step.id !in s.table.slots
    ensures |Next(s, step, |run|).tasks| == |Next(s, step, |run|).table.cancelled|
    ensures TaskSound(run + [step], Next(s, step, |run|), t)
  {
    hide TaskSound;
    match step {
      case Receive(id) => ReceiveKeepsTask(run, s, id, t);
      case CancelNote(Some(id)) => CancelKeepsTask(run, s, id, t);
      case FinishTask(u) => FinishKeepsTask(run, s, u, t);
      case _ => QuietStepKeepsTask(run, s, step, t);
    }
  }

  lemma StepKeepsSound(run: seq<Step>, s: State, step: Step)
    requires Sound(run, s) && Enabled(s, step)
    requires step.Receive? ==> step.id !in s.table.slots
    ensures Sound(run + [step], Next(s, step, |run|))
  {
    var r := Next(s, step, |run|);
    assert forall t :: 0 <= t < |s.tasks| ==> TaskSound(run, s, t);
    if step.FinishTask? || step.SendTask? {
      assert TaskSound(run, s, step.task);
    }
    assert forall id <- r.table.slots :: r.tasks[r.table.slots[id]].id == id && r.tasks[r.table.slots[id]].phase == Handling;
    assert |r.tasks| == |r.table.cancelled|;
    hide TaskSound, Next;
    forall t | 0 <= t < |r.tasks| ensures TaskSound(run + [step], r, t) {
      StepKeepsTasks(run, s, step, t);
    }
  }

  lemma {:induction false} RunIsSound(run: seq<Step>)
    requires Legal(run) && FreshIds(run)
    ensures Sound(run, After(run))
  {
    if run != [] {
      var before, last := run[..|run| - 1], run[|run| - 1];
      assert run == before + [last];
      forall i | 0 <= i < |before| && before[i].Receive?
        ensures LegalPrefix(before, i) && before[i].id !in After(before[..i]).table.slots {
        assert run[i] == before[i] && before[..i] == run[..i];
      }
      RunIsSound(before);
      assert last.Receive? ==> run[|before|].id !in After(run[..|before|]).table.slots;
      StepKeepsSound(before, After(before), last);
    }
  }

  /**
   A task whose request is settled suppressed its response exactly when a cancellation that names
   the request was processed after the request was received and before the task finished.
   */
  predicate Safe(run: seq<Step>, task: Task) {
    task.phase == Handling ||
    (task.phase == Suppressed <==> CancelledBetween(run, task.id, task.began, task.finished))
  }

  /** In every interleaving with fresh identifiers, a cancellation comes first or is ignored. */
  lemma CancellationHasOneOrder(run: seq<Step>, t: nat)
    requires Legal(run) && FreshIds(run) && t < |After(run).tasks|
    ensures var s, task := After(run), After(run).tasks[t];
      && Safe(run, task)
      && task.began < |run| && run[task.began] == Receive(task.id)
      && (task.phase != Handling ==>
            task.began < task.finished < |run| && run[task.finished] == FinishTask(t) && s.table.Retired(t))
      && t < |s.table.cancelled|
      && (s.table.cancelled[t] <==>
            CancelledBetween(run, task.id, task.began, if task.phase == Handling then |run| else task.finished))
  {
    RunIsSound(run);
    assert TaskSound(run, After(run), t);
  }

  // ----- responses -----

  function Count(tasks: seq<Task>, phase: Phase): nat {
    if tasks == [] then 0 else Count(tasks[1..], phase) + if tasks[0].phase == phase then 1 else 0
  }

  lemma {:induction false} CountOfAppend(tasks: seq<Task>, task: Task, phase: Phase)
    ensures Count(tasks + [task], phase) == Count(tasks, phase) + if task.phase == phase then 1 else 0
  {
    if tasks == [] {
      assert tasks + [task] == [task];
    } else {
      assert (tasks + [task])[1..] == tasks[1..] + [task];
      CountOfAppend(tasks[1..], task, phase);
    }
  }

  lemma {:induction false} CountOfUpdate(tasks: seq<Task>, t: nat, task: Task, phase: Phase)
    requires t < |tasks|
    ensures Count(tasks[t := task], phase) + (if tasks[t].phase == phase then 1 else 0)
         == Count(tasks, phase) + if task.phase == phase then 1 else 0
  {
    if t > 0 {
      assert tasks[t := task][1..] == tasks[1..][t - 1 := task];
      CountOfUpdate(tasks[1..], t - 1, task, phase);
    } else {
      assert tasks[t := task][1..] == tasks[1..];
    }
  }

  lemma {:induction false} CountAll(tasks: seq<Task>)
    ensures |tasks| == Count(tasks, Handling) + Count(tasks, Sending) + Count(tasks, Sent) + Count(tasks, Suppressed)
  {
    if tasks != [] {
      CountAll(tasks[1..]);
    }
  }

  function Received(run: seq<Step>): nat {
    if run == [] then 0 else Received(run[..|run| - 1]) + if run[|run| - 1].Receive? then 1 else 0
  }

  /** The tasks that sent are those with a response: one each, under the identifier of their request. */
  predicate Answered(s: State) {
    && (forall k :: 0 <= k < |s.responses| ==>
          var r := s.responses[k]; r.task < |s.tasks| && s.tasks[r.task].phase == Sent && s.tasks[r.task].id == r.id)
    && (forall k, l :: 0 <= k < l < |s.responses| ==> s.responses[k].task != s.responses[l].task)
    && |s.responses| == Count(s.tasks, Sent)
  }

  lemma StepKeepsAnswered(s: State, step: Step, now: nat)
    requires s.table.Valid() && Enabled(s, step) && Answered(s)
    ensures Answered(Next(s, step, now))
  {
    hide Count;
    var r := Next(s, step, now);
    match step {
      case Receive(id) => CountOfAppend(s.tasks, Task(id, Handling, now, 0), Sent);
      case FinishTask(t) => CountOfUpdate(s.tasks, t, r.tasks[t], Sent);
      case SendTask(t) => CountOfUpdate(s.tasks, t, r.tasks[t], Sent);
      case _ =>
    }
  }

  lemma NothingAnswered()
    ensures Answered(START) && Received([]) == 0
  {
  }

  /**
   Nothing is lost and nothing is answered twice, whatever identifiers the server uses: the
   requests received are the responses tried, the responses suppressed, and the tasks that still
   run.
   */
  lemma {:induction false} RequestsAreConserved(run: seq<Step>)
    requires Legal(run)
    ensures var s := After(run);
      && Answered(s)
      && |s.tasks| == Received(run)
      && Received(run) == |s.responses| + Count(s.tasks, Suppressed) + Count(s.tasks, Handling) + Count(s.tasks, Sending)
  {
    hide Count;
    if run != [] {
      var before, last := run[..|run| - 1], run[|run| - 1];
      RequestsAreConserved(before);
      StepKeepsAnswered(After(before), last, |before|);
      hide Answered;
    } else {
      NothingAnswered();
    }
    CountAll(After(run).tasks);
  }

  // ----- progress -----

  lemma OneMore(run: seq<Step>, step: Step)
    requires Legal(run) && Enabled(After(run), step)
    ensures Legal(run + [step]) && After(run + [step]) == Next(After(run), step, |run|)
  {
    assert (run + [step])[..|run|] == run;
  }

  predicate Settled(s: State) {
    forall t :: 0 <= t < |s.tasks| ==> s.tasks[t].phase == Sent || s.tasks[t].phase == Suppressed
  }

  function Work(s: State): nat { 2 * Count(s.tasks, Handling) + Count(s.tasks, Sending) }

  lemma UnsettledStep(s: State, now: nat) returns (step: Step)
    requires s.table.Valid() && !Settled(s)
    ensures Enabled(s, step) && (step.FinishTask? || step.SendTask?)
    ensures Work(Next(s, step, now)) < Work(s)
  {
    var t :| 0 <= t < |s.tasks| && (s.tasks[t].phase == Handling || s.tasks[t].phase == Sending);
    step := if s.tasks[t].phase == Handling then FinishTask(t) else SendTask(t);
    hide Count;
    var task := Next(s, step, now).tasks[t];
    CountOfUpdate(s.tasks, t, task, Handling);
    CountOfUpdate(s.tasks, t, task, Sending);
  }

  /** The tasks alone can always run to the end, also after the loop has stopped. */
  lemma {:induction false} TasksCanSettle(run: seq<Step>) returns (more: seq<Step>)
    requires Legal(run)
    ensures forall k :: 0 <= k < |more| ==> more[k].FinishTask? || more[k].SendTask?
    ensures Legal(run + more) && Settled(After(run + more))
    decreases Work(After(run))
  {
    hide Next, Enabled, Work, Settled;
    if Settled(After(run)) {
      assert run + [] == run;
      return [];
    }
    var step := UnsettledStep(After(run), |run|);
    OneMore(run, step);
    hide Legal, After;
    var rest := TasksCanSettle(run + [step]);
    more := [step] + rest;
    assert run + more == (run + [step]) + rest;
  }

  /** When every task is settled, each request was answered once or cancelled in time. */
  lemma SettledIsAnsweredOrCancelled(run: seq<Step>, t: nat)
    requires Legal(run) && FreshIds(run) && Settled(After(run)) && t < |After(run).tasks|
    ensures var s, task := After(run), After(run).tasks[t];
      CancelledBetween(run, task.id, task.began, task.finished) <==> forall k :: 0 <= k < |s.responses| ==> s.responses[k].task != t
  {
    CancellationHasOneOrder(run, t);
    RequestsAreConserved(run);
    if After(run).tasks[t].phase == Sent {
      SentHasResponse(After(run), t);
    }
  }

  /** Counting finds the response of each task that sent. */
  lemma SentHasResponse(s: State, t: nat)
    requires Answered(s) && t < |s.tasks| && s.tasks[t].phase == Sent
    ensures exists k :: 0 <= k < |s.responses| && s.responses[k].task == t
  {
    if forall k :: 0 <= k < |s.responses| ==> s.responses[k].task != t {
      var fewer := s.tasks[t := s.tasks[t].(phase := Suppressed)];
      CountOfUpdate(s.tasks, t, fewer[t], Sent);
      ResponsesAreFew(s.responses, fewer);
    }
  }

  /** Responses of different tasks that sent are no more than those tasks. */
  lemma {:induction false} ResponsesAreFew(responses: seq<Response>, tasks: seq<Task>)
    requires forall k :: 0 <= k < |responses| ==> responses[k].task < |tasks| && tasks[responses[k].task].phase == Sent
    requires forall k, l :: 0 <= k < l < |responses| ==> responses[k].task != responses[l].task
    ensures |responses| <= Count(tasks, Sent)
  {
    if responses != [] {
      var t := responses[0].task;
      var fewer := tasks[t := tasks[t].(phase := Suppressed)];
      CountOfUpdate(tasks, t, fewer[t], Sent);
      ResponsesAreFew(responses[1..], fewer);
    }
  }

  // ----- reused identifiers -----

  predicate Possible(s: State, more: seq<Step>, now: nat)
    requires s.table.Valid()
    decreases |more|
  {
    more == [] || (Enabled(s, more[0]) && Possible(Next(s, more[0], now), more[1..], now + 1))
  }

  function End(s: State, more: seq<Step>, now: nat): State
    requires s.table.Valid() && Possible(s, more, now)
    decreases |more|
  {
    if more == [] then s else End(Next(s, more[0], now), more[1..], now + 1)
  }

  lemma {:induction false} GoOn(run: seq<Step>, more: seq<Step>)
    requires Legal(run) && Possible(After(run), more, |run|)
    ensures Legal(run + more) && After(run + more) == End(After(run), more, |run|)
    decreases |more|
  {
    if more == [] {
      assert run + more == run;
    } else {
      OneMore(run, more[0]);
      assert run + more == (run + [more[0]]) + more[1..];
      GoOn(run + [more[0]], more[1..]);
    }
  }

  /** The server reuses the identifier of task `t`, cancels it, and then both tasks finish. */
  function Reuse(s: State, t: nat): seq<Step>
    requires t < |s.tasks|
  {
    [Receive(s.tasks[t].id), CancelNote(Some(s.tasks[t].id)), FinishTask(t), FinishTask(|s.tasks|)]
  }

  /** The second request takes the slot of the first, its token is cancelled, and the first finishes with it. */
  lemma DuplicateStates(s: State, t: nat, now: nat, more: seq<Step>)
    requires s.table.Valid() && s.open && t < |s.tasks| && s.tasks[t].phase == Handling
    requires more == Reuse(s, t)
    ensures Possible(s, more, now)
    ensures var end, u := End(s, more, now), |s.tasks|;
      u < |end.tasks| && end.tasks[u] == Task(s.tasks[t].id, Sending, now, now + 3)
  {
    var s1 := Next(s, more[0], now);
    var s2 := Next(s1, more[1], now + 1);
    assert s2.table.Tells(s.tasks[t].id);
    var s3 := Next(s2, more[2], now + 2);
    assert s.tasks[t].id !in s3.table.slots;
    assert Enabled(s3, more[3]);
    var rest := more[1..];
    assert rest[0] == more[1] && rest[1..] == more[2..];
    assert more[2..][0] == more[2] && more[2..][1..] == more[3..];
    assert more[3..][0] == more[3] && more[3..][1..] == [];
    assert Possible(s3, more[3..], now + 3);
    assert Possible(s2, more[2..], now + 2);
    assert Possible(s1, rest, now + 1);
    var s4 := Next(s3, more[3], now + 3);
    assert End(s3, more[3..], now + 3) == s4;
    assert End(s2, more[2..], now + 2) == s4;
    assert End(s1, rest, now + 1) == s4;
  }

  /**
   A server that reuses an identifier in flight can always go on to break the order: a
   cancellation is processed while the second request runs, and its response is still sent.
   */
  lemma DuplicateIdBreaksOrder(run: seq<Step>, t: nat)
    requires Legal(run) && After(run).open
    requires t < |After(run).tasks| && After(run).tasks[t].phase == Handling
    ensures var all := run + Reuse(After(run), t);
      Legal(all) && exists u :: 0 <= u < |After(all).tasks| && !Safe(all, After(all).tasks[u])
  {
    hide Possible, End, Next, Enabled;
    var id, u, more := After(run).tasks[t].id, |After(run).tasks|, Reuse(After(run), t);
    DuplicateStates(After(run), t, |run|, more);
    GoOn(run, more);
    hide Legal, After;
    assert (run + more)[|run| + 1] == more[1];
    assert CancelledBetween(run + more, id, |run|, |run| + 3);
    assert !Safe(run + more, After(run + more).tasks[u]);
  }

  predicate NoReceive(more: seq<Step>) {
    forall i :: 0 <= i < |more| ==> !more[i].Receive?
  }

  predicate AllSafe(run: seq<Step>)
    requires Legal(run)
  {
    forall t :: 0 <= t < |After(run).tasks| ==> Safe(run, After(run).tasks[t])
  }

  /** The run after a request with this identifier, and then whatever the tasks and cancellations do. */
  function Onward(run: seq<Step>, id: RequestId, more: seq<Step>): seq<Step> {
    run + [Receive(id)] + more
  }

  /** However a run goes on after the request, every task answers or suppresses in the one order. */
  ghost predicate StaysSafe(run: seq<Step>, id: RequestId) {
    forall more :: NoReceive(more) && Legal(Onward(run, id, more)) ==> AllSafe(Onward(run, id, more))
  }

  lemma OnwardIsFresh(run: seq<Step>, id: RequestId, more: seq<Step>)
    requires Legal(run) && FreshIds(run) && id !in After(run).table.slots
    requires NoReceive(more) && Legal(Onward(run, id, more))
    ensures FreshIds(Onward(run, id, more))
  {
    hide Legal, After;
    var all := Onward(run, id, more);
    forall i | |run| < i < |all| ensures !all[i].Receive? {
      assert all[i] == more[i - |run| - 1];
    }
    forall i | 0 <= i < |all| && all[i].Receive?
      ensures LegalPrefix(all, i) && all[i].id !in After(all[..i]).table.slots
    {
      PrefixIsLegal(all, i);
      if i < |run| {
        assert all[i] == run[i] && all[..i] == run[..i];
      } else {
        assert all[..i] == run;
      }
    }
  }

  /**
   The guard that the table does not check: after a run with fresh identifiers, a request keeps
   the one order in every continuation exactly when its identifier is not in flight.
   */
  lemma FreshIdIsExactlyNeeded(run: seq<Step>, id: RequestId)
    requires Legal(run) && FreshIds(run) && After(run).open
    ensures id !in After(run).table.slots <==> StaysSafe(run, id)
  {
    if id !in After(run).table.slots {
      forall more | NoReceive(more) && Legal(Onward(run, id, more)) ensures AllSafe(Onward(run, id, more)) {
        var all := Onward(run, id, more);
        OnwardIsFresh(run, id, more);
        forall t | 0 <= t < |After(all).tasks| ensures Safe(all, After(all).tasks[t]) {
          CancellationHasOneOrder(all, t);
        }
      }
    } else {
      RunIsSound(run);
      var t := After(run).table.slots[id];
      DuplicateIdBreaksOrder(run, t);
      ReuseIsOnward(run, t);
    }
  }

  lemma ReuseIsOnward(run: seq<Step>, t: nat)
    requires Legal(run) && t < |After(run).tasks|
    ensures var more := Reuse(After(run), t)[1..];
      NoReceive(more) && Onward(run, After(run).tasks[t].id, more) == run + Reuse(After(run), t)
  {
  }

  // ----- the connection in the heap -----

  /** The shared state of one connection: the table in flight, and the context of each task. */
  class Connection {
    const inFlight: InFlight.Requests
    var open: bool
    /** The request and the progress of each task. */
    var ids: seq<RequestId>
    var phases: seq<Phase>
    ghost var tasks: seq<Task>
    /** The token that each task's context holds. */
    var contexts: seq<InFlight.CancellationToken>
    var responses: seq<Response>
    ghost var run: seq<Step>

    /** The heap is in the state that the run leads to, and each context shares the token of its task. */
    ghost predicate Valid()
      reads this, inFlight, inFlight.issued
    {
      && inFlight.Valid() && Legal(run)
      && State(open, InFlight.After(inFlight.ops), tasks, responses) == After(run)
      && contexts == inFlight.issued && |contexts| == |ids| == |phases| == |tasks|
      && (forall t :: 0 <= t < |tasks| ==> tasks[t].id == ids[t] && tasks[t].phase == phases[t])
    }

    constructor ()
      ensures Valid() && run == [] && fresh(inFlight)
    {
      inFlight := new InFlight.Requests();
      open, ids, phases, tasks, contexts, responses, run := true, [], [], [], [], [], [];
    }

    method Section(op: InFlight.Op) returns (cancelled: bool)
      requires inFlight.Valid() && !op.Begin?
      modifies inFlight, inFlight.issued
      ensures inFlight.Valid() && inFlight.issued == old(inFlight.issued)
      ensures inFlight.ops == old(inFlight.ops) + [op]
      ensures InFlight.After(inFlight.ops) == InFlight.Apply(InFlight.After(old(inFlight.ops)), op)
      ensures op.Finish? ==> cancelled == InFlight.After(old(inFlight.ops)).Tells(op.id)
    {
      cancelled := false;
      match op {
        case Cancel(id) => inFlight.Cancel(id);
        case Finish(id) => cancelled := inFlight.Finish(id);
      }
      assert inFlight.ops[..|inFlight.ops| - 1] == old(inFlight.ops);
    }

    method Track(id: RequestId) returns (token: InFlight.CancellationToken)
      requires inFlight.Valid()
      modifies inFlight
      ensures inFlight.Valid() && fresh(token) && inFlight.issued == old(inFlight.issued) + [token]
      ensures InFlight.After(inFlight.ops) == InFlight.Apply(InFlight.After(old(inFlight.ops)), InFlight.Begin(id))
    {
      token := inFlight.Begin(id);
      assert inFlight.ops[..|inFlight.ops| - 1] == old(inFlight.ops);
    }

    method ReceiveRequest(id: RequestId)
      requires Valid() && open
      modifies this, inFlight
      ensures Valid() && run == old(run) + [Receive(id)]
      ensures contexts[..|old(contexts)|] == old(contexts) && fresh(contexts[|old(contexts)|])
    {
      hide Legal, After, InFlight.After, InFlight.Requests.Valid;
      OneMore(run, Receive(id));
      var token := Track(id);
      ids, phases := ids + [id], phases + [Handling];
      tasks := tasks + [Task(id, Handling, |run|, 0)];
      contexts := contexts + [token];
      run := run + [Receive(id)];
    }

    method ReceiveCancelled(named: Option<RequestId>)
      requires Valid() && open
      modifies this`run, inFlight, inFlight.issued
      ensures Valid() && run == old(run) + [CancelNote(named)]
    {
      hide Legal, After;
      OneMore(run, CancelNote(named));
      if named.Some? {
        var _ := Section(InFlight.Cancel(named.value));
      }
      run := run + [CancelNote(named)];
    }

    /** The handler of a task has returned: learn whether its response is suppressed. */
    method FinishRequest(t: nat) returns (suppressed: bool)
      requires Valid() && t < |phases| && phases[t] == Handling
      modifies this, inFlight, inFlight.issued
      ensures Valid() && run == old(run) + [FinishTask(t)]
      ensures suppressed <==> t < |phases| && phases[t] == Suppressed
    {
      hide Legal, After, InFlight.After, InFlight.Requests.Valid;
      OneMore(run, FinishTask(t));
      suppressed := Section(InFlight.Finish(ids[t]));
      phases := phases[t := if suppressed then Suppressed else Sending];
      tasks := tasks[t := tasks[t].(phase := phases[t], finished := |run|)];
      run := run + [FinishTask(t)];
    }

    method SendResponse(t: nat)
      requires Valid() && t < |phases| && phases[t] == Sending
      modifies this
      ensures Valid() && run == old(run) + [SendTask(t)]
      ensures responses == old(responses) + [Response(t, old(ids)[t])]
    {
      hide Legal, After;
      OneMore(run, SendTask(t));
      phases := phases[t := Sent];
      tasks := tasks[t := tasks[t].(phase := Sent)];
      responses := responses + [Response(t, ids[t])];
      run := run + [SendTask(t)];
    }

    method StopLoop()
      requires Valid() && open
      modifies this
      ensures Valid() && run == old(run) + [Stop]
    {
      hide Legal, After;
      OneMore(run, Stop);
      open := false;
      run := run + [Stop];
    }
  }
}
