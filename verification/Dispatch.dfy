/**
 Requests from a server to a client handler in the same process.

 Each call runs its handler on a task of its own, under a guard that cancels the handler's token
 when the caller leaves without the joined result. Callers, tasks, and deadlines interleave freely.
 */
module Dispatch {
  import opened Bytes
  import opened Json
  import opened JsonGrammar
  import opened JsonReader
  import opened JsonLaws
  import InFlight

  const DEFAULT_TIMEOUT_MS: nat := 30_000
  const NO_TIMEOUT_MS: nat := 0

  datatype Running = Running | Ended(ok: bool)

  /** Where a caller is: it waits, it took the joined result, or it left without it. */
  datatype Caller = Waiting | Joined(ok: bool) | TimedOut | Dropped

  datatype Call = Call(requestId: Bytes, timeoutMs: nat, task: Running, caller: Caller, armed: bool, cancelled: bool)

  datatype Step =
    /** A caller dispatches a request, with its own deadline in nanoseconds or the default one. */
    | Start(timeout: Option<nat>)
    /** The handler of a call returns, or fails. */
    | End(call: nat, ok: bool)
    /** The caller takes the joined result of its task. */
    | Join(call: nat)
    /** The deadline of a waiting caller passes. */
    | Expire(call: nat)
    /** The caller drops its future. */
    | Drop(call: nat)

  datatype State = State(nextRequestId: nat, calls: seq<Call>)

  const START := State(1, [])

  /** A duration in nanoseconds as a deadline in milliseconds: zero is none, and less than one counts as one. */
  function TimeoutMillis(nanos: nat): nat {
    if nanos == 0 then NO_TIMEOUT_MS
    else
      var millis := nanos / 1_000_000;
      var capped := if millis > MAX_U64 then MAX_U64 else millis;
      if capped < 1 then 1 else capped
  }

  function FormatId(number: nat): Bytes { "srv-req-" + PrintNat(number) }

  predicate Enabled(s: State, step: Step) {
    match step
    case Start(_) => true
    case End(c, _) => c < |s.calls| && s.calls[c].task == Running
    case Join(c) => c < |s.calls| && s.calls[c].caller == Waiting && s.calls[c].task.Ended?
    case Expire(c) => c < |s.calls| && s.calls[c].caller == Waiting && s.calls[c].timeoutMs != NO_TIMEOUT_MS
    case Drop(c) => c < |s.calls| && s.calls[c].caller == Waiting
  }

  /** The guard of a call goes out of scope: if it is armed, it cancels the token. */
  function ReleaseGuard(call: Call): Call {
    if call.armed then call.(armed := false, cancelled := true) else call
  }

  function Next(s: State, step: Step): State
    requires Enabled(s, step)
  {
    match step
    case Start(timeout) =>
      var ms := match timeout case None => DEFAULT_TIMEOUT_MS case Some(nanos) => TimeoutMillis(nanos);
      State(s.nextRequestId + 1, s.calls + [Call(FormatId(s.nextRequestId), ms, Running, Waiting, true, false)])
    case End(c, ok) => s.(calls := s.calls[c := s.calls[c].(task := Ended(ok))])
    case Join(c) => s.(calls := s.calls[c := ReleaseGuard(s.calls[c].(armed := false, caller := Joined(s.calls[c].task.ok)))])
    case Expire(c) => s.(calls := s.calls[c := ReleaseGuard(s.calls[c].(caller := TimedOut))])
    case Drop(c) => s.(calls := s.calls[c := ReleaseGuard(s.calls[c].(caller := Dropped))])
  }

  predicate Legal(run: seq<Step>)
    decreases |run|, 0
  {
    run == [] || (Legal(run[..|run| - 1]) && Enabled(After(run[..|run| - 1]), run[|run| - 1]))
  }

  function After(run: seq<Step>): State
    requires Legal(run)
    decreases |run|, 1
  {
    if run == [] then START else Next(After(run[..|run| - 1]), run[|run| - 1])
  }

  // ----- laws -----

  /** An identifier is the prefix and the decimal digits of its number. */
  lemma FormatIsDecimal(number: nat)
    ensures |FormatId(number)| > 8 && FormatId(number)[..8] == "srv-req-"
    ensures IntegerPart(FormatId(number)[8..]) && ReadNat(FormatId(number)[8..]) == number
  {
    ReadsNat(number);
    assert FormatId(number)[8..] == PrintNat(number);
  }

  lemma FormatIsInjective(a: nat, b: nat)
    requires FormatId(a) == FormatId(b)
    ensures a == b
  {
    FormatIsDecimal(a);
    FormatIsDecimal(b);
    hide FormatId;
  }

  /** The deadline in milliseconds of a call: whole milliseconds, but no fewer than one, and no more than 64 bits hold. */
  predicate Deadline(asked: Option<nat>, ms: nat) {
    match asked
    case None => ms == 30_000
    case Some(nanos) =>
      && ms <= MAX_U64 && (ms == 0 <==> nanos == 0)
      && (ms > 1 ==> ms * 1_000_000 <= nanos)
      && (0 < ms < MAX_U64 ==> nanos < (ms + 1) * 1_000_000)
  }

  lemma DeadlineIsAsked(asked: Option<nat>)
    ensures Deadline(asked, match asked case None => DEFAULT_TIMEOUT_MS case Some(nanos) => TimeoutMillis(nanos))
    ensures forall ms, other :: Deadline(asked, ms) && Deadline(asked, other) ==> ms == other
  {
  }

  predicate CallSound(call: Call) {
    && (call.cancelled <==> call.caller == TimedOut || call.caller == Dropped)
    && (call.armed <==> call.caller == Waiting)
    && (call.caller == TimedOut ==> call.timeoutMs != NO_TIMEOUT_MS)
    && (call.caller.Joined? ==> call.task == Ended(call.caller.ok))
  }

  predicate Sound(s: State) {
    && s.nextRequestId == |s.calls| + 1
    && (forall c :: 0 <= c < |s.calls| ==> CallSound(s.calls[c]) && s.calls[c].requestId == FormatId(c + 1))
  }

  /**
   In every interleaving of every set of calls, a handler's token is cancelled exactly when its
   caller left without the joined result, a caller without a deadline never times out, and a
   joined result is that of the caller's own task.
   */
  lemma {:induction false} CallsAreSound(run: seq<Step>)
    requires Legal(run)
    ensures Sound(After(run))
  {
    if run != [] {
      CallsAreSound(run[..|run| - 1]);
    }
  }

  /** How a caller left and how its task ended is what the steps of the run about it say. */
  predicate IsHistory(run: seq<Step>, calls: seq<Call>, c: nat) {
    if c < |calls| then
      && (calls[c].caller == TimedOut <==> Expire(c) in run)
      && (calls[c].caller == Dropped <==> Drop(c) in run)
      && (calls[c].caller.Joined? <==> Join(c) in run)
      && (calls[c].task == Ended(true) <==> End(c, true) in run)
      && (calls[c].task == Ended(false) <==> End(c, false) in run)
    else
      Expire(c) !in run && Drop(c) !in run && Join(c) !in run && End(c, true) !in run && End(c, false) !in run
  }

  lemma {:induction false} OutcomesAreHistory(run: seq<Step>, c: nat)
    requires Legal(run)
    ensures IsHistory(run, After(run).calls, c)
  {
    if run != [] {
      var front, last := run[..|run| - 1], run[|run| - 1];
      OutcomesAreHistory(front, c);
      assert forall step :: step in run <==> step in front || step == last;
      hide Legal, After, FormatId, TimeoutMillis;
    }
  }

  lemma RequestIdsAreDistinct(run: seq<Step>, a: nat, b: nat)
    requires Legal(run) && a < b < |After(run).calls|
    ensures After(run).calls[a].requestId != After(run).calls[b].requestId
  {
    CallsAreSound(run);
    if FormatId(a + 1) == FormatId(b + 1) {
      FormatIsInjective(a + 1, b + 1);
    }
  }

  /** A caller that has left stays as it is, and so does the token of its handler. */
  lemma {:induction false} LeavingIsFinal(run: seq<Step>, more: seq<Step>, c: nat)
    requires Legal(run) && Legal(run + more)
    requires c < |After(run).calls| && After(run).calls[c].caller != Waiting
    ensures var before, after := After(run).calls, After(run + more).calls;
      && c < |after| && after[c].caller == before[c].caller && after[c].cancelled == before[c].cancelled
      && after[c].requestId == before[c].requestId
  {
    if more == [] {
      assert run + more == run;
    } else {
      var front := more[..|more| - 1];
      assert (run + more)[..|run + more| - 1] == run + front;
      LeavingIsFinal(run, front, c);
      CallsAreSound(run + front);
      hide FormatId, TimeoutMillis;
    }
  }

  /** The deadlines that the callers of a run asked for, in the order of their calls. */
  function Timeouts(run: seq<Step>): seq<Option<nat>> {
    if run == [] then []
    else Timeouts(run[..|run| - 1]) + match run[|run| - 1] case Start(timeout) => [timeout] case _ => []
  }

  lemma {:induction false} DeadlinesAreAsked(run: seq<Step>)
    requires Legal(run)
    ensures |After(run).calls| == |Timeouts(run)|
    ensures forall c :: 0 <= c < |Timeouts(run)| ==> Deadline(Timeouts(run)[c], After(run).calls[c].timeoutMs)
  {
    if run != [] {
      DeadlinesAreAsked(run[..|run| - 1]);
      match run[|run| - 1] {
        case Start(timeout) => DeadlineIsAsked(timeout);
        case _ =>
      }
    }
  }

  /** A zero duration disables the deadline in every run, and any other duration can expire. */
  lemma ZeroNeverExpires(run: seq<Step>, c: nat)
    requires Legal(run) && c < |Timeouts(run)|
    ensures |After(run).calls| == |Timeouts(run)|
    ensures After(run).calls[c].caller == TimedOut ==> Timeouts(run)[c] != Some(0)
    ensures After(run).calls[c].caller == Waiting ==>
      (Enabled(After(run), Expire(c)) <==> Timeouts(run)[c] != Some(0))
  {
    DeadlinesAreAsked(run);
    CallsAreSound(run);
  }

  // ----- the client in the heap -----

  /**
   A call as the program holds it: the token that its handler's context watches, and the guard of
   its caller, which is armed while it holds the token.
   */
  datatype Record = Record(
    requestId: Bytes, timeoutMs: nat, task: Running, caller: Caller,
    context: InFlight.CancellationToken, guard: Option<InFlight.CancellationToken>)

  /** The record of a call: one token behind its context and its guard. */
  predicate Holds(r: Record, call: Call)
    reads r.context
  {
    && r.requestId == call.requestId && r.timeoutMs == call.timeoutMs && r.task == call.task && r.caller == call.caller
    && r.guard == (if call.armed then Some(r.context) else None)
    && r.context.cancelled == call.cancelled
  }

  /** The tokens of some calls. */
  ghost function Tokens(records: seq<Record>): set<InFlight.CancellationToken> {
    set c | 0 <= c < |records| :: records[c].context
  }

  lemma SameTokens(before: seq<Record>, after: seq<Record>)
    requires |before| == |after| && forall c :: 0 <= c < |before| ==> before[c].context == after[c].context
    ensures Tokens(before) == Tokens(after)
  {
    assert forall c :: 0 <= c < |before| ==> before[c].context in Tokens(after) && after[c].context in Tokens(before);
  }

  class InProcessClient {
    var nextRequestId: nat
    var records: seq<Record>
    ghost var calls: seq<Call>
    ghost var run: seq<Step>

    ghost predicate Valid()
      reads this, Tokens(records)
    {
      && Legal(run) && State(nextRequestId, calls) == After(run)
      && |records| == |calls|
      && (forall c :: 0 <= c < |calls| ==> records[c].context in Tokens(records) && Holds(records[c], calls[c]))
      && (forall c, d :: 0 <= c < d < |calls| ==> records[c].context != records[d].context)
    }

    constructor ()
      ensures Valid() && run == [] && records == []
    {
      nextRequestId, records, calls, run := 1, [], [], [];
    }

    ghost method Advance(step: Step)
      requires Legal(run) && Enabled(After(run), step) && calls == After(run).calls
      modifies this`run, this`calls
      ensures run == old(run) + [step] && Legal(run) && After(run) == Next(After(old(run)), step)
      ensures calls == After(run).calls
    {
      run := run + [step];
      assert run[..|run| - 1] == old(run);
      calls := After(run).calls;
    }

    /** Take the next number, and start the handler under an armed guard. */
    method Begin(timeout: Option<nat>) returns (requestId: Bytes)
      requires Valid()
      modifies this
      ensures Valid() && run == old(run) + [Start(timeout)]
      ensures |records| == |old(records)| + 1 && records[..|old(records)|] == old(records)
      ensures requestId == records[|old(records)|].requestId && fresh(records[|old(records)|].context)
    {
      hide Legal, After;
      requestId := FormatId(nextRequestId);
      var cancel := new InFlight.CancellationToken();
      var timeoutMs := DEFAULT_TIMEOUT_MS;
      if timeout.Some? {
        timeoutMs := TimeoutMillis(timeout.value);
      }
      Advance(Start(timeout));
      nextRequestId := nextRequestId + 1;
      records := records + [Record(requestId, timeoutMs, Running, Waiting, cancel, Some(cancel))];
    }

    /** The task of a call ends. It runs on after its caller has left. */
    method EndTask(c: nat, ok: bool)
      requires Valid() && c < |records| && records[c].task == Running
      modifies this
      ensures Valid() && run == old(run) + [End(c, ok)]
      ensures Tokens(records) == old(Tokens(records))
    {
      hide Legal, After;
      Advance(End(c, ok));
      records := records[c := records[c].(task := Ended(ok))];
      SameTokens(old(records), records);
    }

    /** The caller joins the task, and disarms the guard. No token changes. */
    method JoinTask(c: nat) returns (ok: bool)
      requires Valid() && c < |records| && records[c].caller == Waiting && records[c].task.Ended?
      modifies this
      ensures Valid() && run == old(run) + [Join(c)]
      ensures ok == old(records)[c].task.ok
      ensures Tokens(records) == old(Tokens(records))
    {
      hide Legal, After;
      Advance(Join(c));
      ok := records[c].task.ok;
      records := records[c := records[c].(caller := Joined(ok), guard := None)];
      SameTokens(old(records), records);
    }

    /** The caller leaves: its deadline passed, or it dropped its future. The guard cancels its token. */
    method Leave(c: nat, deadline: bool)
      requires Valid() && c < |records| && records[c].caller == Waiting
      requires deadline ==> records[c].timeoutMs != NO_TIMEOUT_MS
      modifies this, records[c].context
      ensures Valid() && run == old(run) + [if deadline then Expire(c) else Drop(c)]
      ensures Tokens(records) == old(Tokens(records)) && old(records[c].context).cancelled
    {
      CallsAreSound(run);
      hide Legal, After;
      Advance(if deadline then Expire(c) else Drop(c));
      var guard := records[c].guard;
      records := records[c := records[c].(caller := if deadline then TimedOut else Dropped, guard := None)];
      SameTokens(old(records), records);
      if guard.Some? {
        guard.value.Cancel();
      }
    }
  }
}
