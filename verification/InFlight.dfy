/**
 The table of requests in flight on one connection, and their cancellation tokens.

 The table is first a value, with tokens numbered in the order of their issue, so that laws can
 speak of whole runs. The class below keeps the same table in the heap, with shared tokens.
 */
module InFlight {
  import opened Bytes
  import opened Message

  /** One locked section. */
  datatype Op = Begin(id: RequestId) | Cancel(id: RequestId) | Finish(id: RequestId)

  /** Which token each tracked request has, and which tokens are cancelled. */
  datatype Table = Table(slots: map<RequestId, nat>, cancelled: seq<bool>) {
    predicate Valid() {
      && (forall id <- slots :: slots[id] < |cancelled|)
      && (forall a, b | a in slots && b in slots :: slots[a] == slots[b] ==> a == b)
    }

    /** No tracked request has the token. */
    predicate Retired(token: nat) {
      token < |cancelled| && forall id <- slots :: slots[id] != token
    }

    predicate Tells(id: RequestId)
      requires Valid()
    {
      id in slots && cancelled[slots[id]]
    }
  }

  const EMPTY := Table(map[], [])

  function Apply(t: Table, op: Op): (r: Table)
    requires t.Valid()
    ensures r.Valid()
  {
    match op
    case Begin(id) => Table(t.slots[id := |t.cancelled|], t.cancelled + [false])
    case Cancel(id) => if id in t.slots then t.(cancelled := t.cancelled[t.slots[id] := true]) else t
    case Finish(id) => t.(slots := t.slots - {id})
  }

  function After(ops: seq<Op>): (r: Table)
    ensures r.Valid()
  {
    if ops == [] then EMPTY else Apply(After(ops[..|ops| - 1]), ops[|ops| - 1])
  }

  // ----- what a table says about its history -----

  /** The request began with step `i` and has neither finished nor begun again since. */
  predicate TrackedSince(ops: seq<Op>, id: RequestId, i: nat) {
    && i < |ops| && ops[i] == Begin(id)
    && forall j :: i < j < |ops| ==> ops[j] != Begin(id) && ops[j] != Finish(id)
  }

  predicate CancelledAfter(ops: seq<Op>, id: RequestId, i: nat) {
    exists j :: i < j < |ops| && ops[j] == Cancel(id)
  }

  lemma CancelledStep(ops: seq<Op>, op: Op, id: RequestId, i: nat)
    requires i < |ops|
    ensures CancelledAfter(ops + [op], id, i) <==> CancelledAfter(ops, id, i) || op == Cancel(id)
  {
    var all := ops + [op];
    assert all[|ops|] == op && forall j :: 0 <= j < |ops| ==> all[j] == ops[j];
  }

  lemma TrackedStep(ops: seq<Op>, op: Op, id: RequestId, i: nat)
    ensures TrackedSince(ops + [op], id, i)
       <==> if i == |ops| then op == Begin(id) else TrackedSince(ops, id, i) && op != Begin(id) && op != Finish(id)
  {
    var all := ops + [op];
    assert all[|ops|] == op && forall j :: 0 <= j < |ops| ==> all[j] == ops[j];
  }

  lemma {:induction false} TrackedIsInTable(ops: seq<Op>, id: RequestId, i: nat)
    requires TrackedSince(ops, id, i)
    ensures id in After(ops).slots
    ensures After(ops).Tells(id) <==> CancelledAfter(ops, id, i)
  {
    var before, op := ops[..|ops| - 1], ops[|ops| - 1];
    assert ops == before + [op];
    TrackedStep(before, op, id, i);
    hide TrackedSince, CancelledAfter;
    if i == |before| {
      assert !CancelledAfter(ops, id, i) by {
        NothingAfterLast(ops, id);
      }
    } else {
      TrackedIsInTable(before, id, i);
      CancelledStep(before, op, id, i);
    }
  }

  lemma NothingAfterLast(ops: seq<Op>, id: RequestId)
    requires ops != []
    ensures !CancelledAfter(ops, id, |ops| - 1)
  {
  }

  lemma {:induction false} InTableIsTracked(ops: seq<Op>, id: RequestId) returns (i: nat)
    requires id in After(ops).slots
    ensures TrackedSince(ops, id, i)
  {
    var before, op := ops[..|ops| - 1], ops[|ops| - 1];
    assert ops == before + [op];
    hide TrackedSince;
    i := |before|;
    if op != Begin(id) {
      i := InTableIsTracked(before, id);
    }
    TrackedStep(before, op, id, i);
  }

  /**
   The table holds exactly the requests that have begun and not finished, and the token of each
   is cancelled exactly when a cancellation that names the request came after it began.
   */
  lemma TableIsHistory(ops: seq<Op>, id: RequestId)
    ensures id in After(ops).slots <==> exists i: nat :: TrackedSince(ops, id, i)
    ensures forall i: nat :: TrackedSince(ops, id, i) ==> (After(ops).Tells(id) <==> CancelledAfter(ops, id, i))
  {
    if id in After(ops).slots {
      var i := InTableIsTracked(ops, id);
    }
    forall i: nat | TrackedSince(ops, id, i)
      ensures id in After(ops).slots && (After(ops).Tells(id) <==> CancelledAfter(ops, id, i)) {
      TrackedIsInTable(ops, id, i);
    }
  }

  /** What finishing returns, for every run: whether a cancellation came since the request began. */
  lemma FinishTellsCancellation(ops: seq<Op>, id: RequestId)
    ensures After(ops).Tells(id) <==> exists i: nat :: TrackedSince(ops, id, i) && CancelledAfter(ops, id, i)
  {
    TableIsHistory(ops, id);
  }

  /** A token that no tracked request has never changes again, whatever identifiers come back. */
  lemma {:induction false} RetiredTokenIsFrozen(ops: seq<Op>, more: seq<Op>, token: nat)
    requires After(ops).Retired(token)
    ensures After(ops + more).Retired(token)
    ensures After(ops + more).cancelled[token] == After(ops).cancelled[token]
  {
    if more == [] {
      assert ops + more == ops;
    } else {
      var front := more[..|more| - 1];
      RetiredTokenIsFrozen(ops, front, token);
      assert (ops + more)[..|ops + more| - 1] == ops + front;
    }
  }

  /** A step about one request leaves the token of every other tracked request as it is. */
  lemma OtherTokensAreUntouched(ops: seq<Op>, op: Op, other: RequestId)
    requires other != op.id && other in After(ops).slots
    ensures var t, r := After(ops), After(ops + [op]);
      && other in r.slots && r.slots[other] == t.slots[other]
      && r.cancelled[r.slots[other]] == t.cancelled[t.slots[other]]
  {
    assert (ops + [op])[..|ops|] == ops;
  }

  // ----- the table in the heap -----

  class CancellationToken {
    var cancelled: bool

    constructor ()
      ensures !cancelled
    {
      cancelled := false;
    }

    method Cancel()
      modifies this
      ensures cancelled
    {
      cancelled := true;
    }
  }

  class Requests {
    var table: map<RequestId, CancellationToken>
    /** Every token that the table has issued. */
    ghost var issued: seq<CancellationToken>
    /** The locked sections so far. */
    ghost var ops: seq<Op>

    /** The heap is the value that the history gives. */
    ghost predicate Valid()
      reads this, issued
    {
      var t := After(ops);
      && |issued| == |t.cancelled|
      && (forall i, j :: 0 <= i < j < |issued| ==> issued[i] != issued[j])
      && (forall i :: 0 <= i < |issued| ==> issued[i].cancelled == t.cancelled[i])
      && table.Keys == t.slots.Keys
      && (forall id <- table :: table[id] == issued[t.slots[id]])
    }

    constructor ()
      ensures Valid() && ops == [] && issued == []
    {
      table, issued, ops := map[], [], [];
    }

    /** Track a request under a token of its own. A slot with the same identifier gives way. */
    method Begin(id: RequestId) returns (token: CancellationToken)
      requires Valid()
      modifies this
      ensures Valid() && ops == old(ops) + [Op.Begin(id)]
      ensures fresh(token) && issued == old(issued) + [token] && table == old(table)[id := token]
    {
      token := new CancellationToken();
      table := table[id := token];
      issued := issued + [token];
      ops := ops + [Op.Begin(id)];
      assert ops[..|ops| - 1] == old(ops);
    }

    /** Stop tracking a request, and tell whether its token had been cancelled. */
    method Finish(id: RequestId) returns (cancelled: bool)
      requires Valid()
      modifies this
      ensures Valid() && ops == old(ops) + [Op.Finish(id)] && issued == old(issued)
      ensures table == old(table) - {id}
      ensures cancelled == After(old(ops)).Tells(id)
    {
      cancelled := id in table && table[id].cancelled;
      table := table - {id};
      ops := ops + [Op.Finish(id)];
      assert ops[..|ops| - 1] == old(ops);
    }

    /** Only the token in the slot of the identifier can change. */
    method Cancel(id: RequestId)
      requires Valid()
      modifies this`ops, if id in table then {table[id]} else {}
      ensures Valid() && ops == old(ops) + [Op.Cancel(id)]
      ensures id in table ==> table[id].cancelled
    {
      if id in table {
        table[id].Cancel();
      }
      ops := ops + [Op.Cancel(id)];
      assert ops[..|ops| - 1] == old(ops);
    }
  }
}
