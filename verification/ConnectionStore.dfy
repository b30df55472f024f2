/** The connection operations of the client store, with the steps of other processes between their own. */
module ConnectionStore {
  import opened Basics
  import opened ConnectionModel
  import opened ConnectionLaws

  /** The steps of anybody but `p`. */
  predicate Foreign(a: Act, p: Proc) {
    a.Cancel? || a.p != p
  }

  predicate AllForeign(acts: seq<Act>, p: Proc) {
    forall i :: 0 <= i < |acts| ==> Foreign(acts[i], p)
  }

  class ClientConnections {
    var rows: Rows
    var procs: map<Proc, Local>
    var sent: seq<Id>
    var cancels: set<Id>
    ghost var trace: seq<Act>

    function S(): State
      reads this
    {
      State(rows, procs, sent, cancels)
    }

    ghost predicate Valid()
      reads this
    {
      Run(EMPTY, trace) == Some(S())
    }

    constructor ()
      ensures Valid() && S() == EMPTY && trace == []
    {
      rows, procs, sent, cancels := map[], map[], [], {};
      trace := [];
    }

    method Do(a: Act)
      requires Valid() && Enabled(S(), a)
      modifies this
      ensures Valid() && trace == old(trace) + [a] && S() == Next(old(S()), a)
    {
      ghost var before := S();
      var t := Next(S(), a);
      rows, procs, sent, cancels := t.rows, t.procs, t.sent, t.cancels;
      RunStep(EMPTY, trace, before, a);
      trace := trace + [a];
    }

    /** Other processes go on, as far as they can. */
    method Interfere(acts: seq<Act>, p: Proc)
      requires Valid() && AllForeign(acts, p)
      modifies this
      ensures Valid()
      ensures p in old(procs) ==> p in procs && procs[p] == old(procs)[p]
      ensures p !in old(procs) ==> p !in procs
      ensures acts == [] ==> S() == old(S())
    {
      for i := 0 to |acts|
        invariant Valid() && (i == 0 ==> S() == old(S()))
        invariant p in old(procs) ==> p in procs && procs[p] == old(procs)[p]
        invariant p !in old(procs) ==> p !in procs
      {
        assert Foreign(acts[i], p);
        if Enabled(S(), acts[i]) {
          Do(acts[i]);
        }
      }
    }

    /** The transaction that records a connection, or its cancellation. */
    method ConnectionRecord(call: Call, cancel: bool) returns (r: Result<Phase>, later: Rows)
      ensures r == Record(rows, call, cancel) && later == Recorded(rows, call, cancel)
    {
      later := rows;
      if !call.known { return Err("permission-denied"), rows; }
      if call.id !in rows {
        if |rows| >= MAX_ROWS { return Err("storage-insufficient"), rows; }
        var phase := if cancel then Cancelled else Connecting;
        return Ok(phase), rows[call.id := Row(call.target, phase, cancel)];
      }
      var row := rows[call.id];
      if row.target != call.target { return Err("idempotency-conflict"), rows; }
      if !cancel && row.phase != Cancelled { return Err("state-conflict"), rows; }
      if cancel && (row.phase == Connecting || row.phase == Unknown) {
        return Ok(Cancelled), rows[call.id := row.(phase := Cancelled, cancel := true)];
      }
      return Ok(row.phase), rows;
    }

    method CancelConnection(call: Call) returns (r: Result<Phase>)
      requires Valid()
      modifies this
      ensures Valid() && trace == old(trace) + [Cancel(call)]
      ensures r == Record(old(rows), call, true) && rows == Recorded(old(rows), call, true)
      ensures r.Ok? <==> call.known && if call.id in old(rows) then old(rows)[call.id].target == call.target else |old(rows)| < MAX_ROWS
      // an accepted cancellation always ends in the phase `Cancelled`, unless the connection had returned
      ensures r.Ok? ==>
        var row := if call.id in old(rows) && old(rows)[call.id].phase == Returned then old(rows)[call.id]
                   else Row(call.target, Cancelled, true);
        r == Ok(row.phase) && rows == old(rows)[call.id := row] && cancels == old(cancels) + {call.id}
      ensures r.Err? ==> rows == old(rows) && cancels == old(cancels)
      ensures r == Err("permission-denied") <==> !call.known
      ensures r == Err("idempotency-conflict") <==> call.known && call.id in old(rows) && old(rows)[call.id].target != call.target
      ensures r == Err("storage-insufficient") <==> call.known && call.id !in old(rows) && |old(rows)| >= MAX_ROWS
      ensures procs == old(procs) && sent == old(sent)
    {
      RunInv(trace);
      RecordMeaning(rows, cancels, call, true);
      ghost var before := S();
      var later;
      r, later := ConnectionRecord(call, true);
      rows := later;
      if r.Ok? { cancels := cancels + {call.id}; }
      RunStep(EMPTY, trace, before, Cancel(call));
      trace := trace + [Cancel(call)];
    }

    method Start(p: Proc, call: Call) returns (r: Result<Phase>)
      requires Valid() && p !in procs
      modifies this
      ensures Valid() && trace == old(trace) + [Begin(p, call)] && r == Record(old(rows), call, false)
      ensures S() == Next(old(S()), Begin(p, call))
    {
      ghost var before := S();
      var later;
      r, later := ConnectionRecord(call, false);
      rows := later;
      procs := procs[p := Local(call.id, call.target, StageFor(r))];
      RunStep(EMPTY, trace, before, Begin(p, call));
      trace := trace + [Begin(p, call)];
    }

    method Conclude(p: Proc, call: Call, failed: bool) returns (r: Result<Phase>)
      requires Valid() && p in procs && procs[p] == Local(call.id, call.target, Answered(failed))
      modifies this
      ensures Valid() && p !in procs && trace == old(trace) + [Finish(p), Leave(p)]
      ensures r == Ok(Cancelled) <==> CancelAccepted(old(trace), call.id)
      ensures r != Ok(Cancelled) ==> r == Ok(if failed then Unknown else Returned)
      ensures call.id in rows && Ok(rows[call.id].phase) == r && call.id in sent
      ensures call.id in old(rows) && sent == old(sent)
      ensures rows == old(rows)[call.id := old(rows)[call.id].(phase := Final(old(rows)[call.id], failed))]
    {
      RunInv(trace);
      assert LocalSound(S(), procs[p]);
      CancelDecides(trace, p);
      r := Ok(Final(rows[call.id], failed));
      Do(Finish(p));
      Do(Leave(p));
    }

    /** The attempt, its answer and the last transaction, of a process that has just recorded the connection. */
    method Attempt(p: Proc, call: Call, failed: bool, before: seq<Act>, during: seq<Act>)
      returns (r: Result<Phase>, ghost decided: seq<Act>)
      requires Valid() && p in procs && procs[p] == Local(call.id, call.target, Granted) && call.id in rows
      requires AllForeign(before, p) && AllForeign(during, p)
      modifies this
      ensures Valid() && p !in procs && trace == decided + [Finish(p), Leave(p)]
      ensures r == Ok(Cancelled) <==> CancelAccepted(decided, call.id)
      ensures r != Ok(Cancelled) ==> r == Ok(if failed then Unknown else Returned)
      ensures call.id in rows && Ok(rows[call.id].phase) == r && call.id in sent
      ensures before == during == [] ==>
        && sent == old(sent) + [call.id]
        && rows == old(rows)[call.id := old(rows)[call.id].(phase := Final(old(rows)[call.id], failed))]
    {
      Interfere(before, p);
      Do(Transmit(p));
      Interfere(during, p);
      Do(Answer(p, failed));
      decided := trace;
      r := Conclude(p, call, failed);
    }

    /**
     * A connection, with the steps of others before and during the attempt. `failed` says what the attempt brings back;
     * `decided` is the history up to the last transaction.
     */
    method Connect(p: Proc, call: Call, failed: bool, before: seq<Act>, during: seq<Act>)
      returns (r: Result<Phase>, ghost decided: seq<Act>)
      requires Valid() && p !in procs && AllForeign(before, p) && AllForeign(during, p)
      modifies this
      ensures Valid() && p !in procs
      // a new connection to a known target is attempted once, wherever there is room, and the last transaction decides
      ensures call.known && call.id !in old(rows) && |old(rows)| < MAX_ROWS ==>
        && trace == decided + [Finish(p), Leave(p)] && call.id !in old(sent) && call.id in sent
        && (r == Ok(Cancelled) <==> CancelAccepted(decided, call.id))
        && (r != Ok(Cancelled) ==> r == Ok(if failed then Unknown else Returned))
        && call.id in rows && Ok(rows[call.id].phase) == r
      // where nobody interferes, it ends as what came back
      ensures call.known && call.id !in old(rows) && |old(rows)| < MAX_ROWS && before == during == [] ==>
        var phase := if failed then Unknown else Returned;
        r == Ok(phase) && rows == old(rows)[call.id := Row(call.target, phase, false)] && sent == old(sent) + [call.id]
      // a recorded one is not attempted again
      ensures call.known && call.id in old(rows) && old(rows)[call.id].target == call.target ==>
        && r == (if old(rows)[call.id].phase == Cancelled then Ok(Cancelled) else Err("state-conflict"))
        && rows == old(rows) && sent == old(sent)
      ensures r.Err? ==> rows == old(rows) && sent == old(sent)
      ensures r == Err("permission-denied") <==> !call.known
      ensures r == Err("idempotency-conflict") <==> call.known && call.id in old(rows) && old(rows)[call.id].target != call.target
      ensures r == Err("storage-insufficient") <==> call.known && call.id !in old(rows) && |old(rows)| >= MAX_ROWS
      ensures forall i, j :: 0 <= i < j < |sent| ==> sent[i] != sent[j]
    {
      RunInv(trace);
      RecordMeaning(rows, cancels, call, false);
      decided := trace;
      r := Start(p, call);
      if r.Err? || r.value == Cancelled {
        Do(Leave(p));
      } else {
        r, decided := Attempt(p, call, failed, before, during);
      }
      RunInv(trace);
    }
  }
}
