/** The request operation of the client store, step by step; every history of it is a run of the machine. */
module RequestStore {
  import opened Basics
  import opened RequestModel
  import opened RequestLaws

  /** What the caller is told; `Killed` stands for a process that never answers. */
  datatype Outcome = Told(reply: Reply, phase: Phase) | Refused(code: string) | Busy | Killed

  class ClientStore {
    var rows: Rows
    var gate: Option<Proc>
    ghost var procs: map<Proc, Local>
    ghost var sends: seq<Sent>
    ghost var trace: seq<Act>

    ghost function S(): State
      reads this
    {
      State(rows, gate, procs, sends)
    }

    ghost predicate Valid()
      reads this
    {
      Run(EMPTY, trace) == Some(S())
    }

    constructor ()
      ensures Valid() && S() == EMPTY && trace == []
    {
      rows, gate := map[], None;
      procs, sends, trace := map[], [], [];
    }

    ghost method Log(before: State, a: Act)
      requires Run(EMPTY, trace) == Some(before) && Enabled(before, a) && S() == Next(before, a)
      modifies this`trace
      ensures Valid() && trace == old(trace) + [a]
    {
      RunStep(EMPTY, trace, before, a);
      trace := trace + [a];
    }

    method OpenGate(p: Proc, call: Call) returns (ok: bool)
      requires Valid()
      modifies this`gate, this`procs, this`trace
      ensures Valid() && (ok <==> old(gate).None?)
      ensures if ok then gate == Some(p) && procs == map[p := Local(call, Entered)] else S() == old(S())
    {
      ok := gate.None?;
      if ok {
        RunInv(trace);
        ghost var before := S();
        gate := Some(p);
        procs := procs[p := Local(call, Entered)];
        Log(before, Enter(p, call));
      }
    }

    /** The process ends, and its hold of the gate with it. */
    method Depart(p: Proc, ghost crash: bool)
      requires Valid() && gate == Some(p) && (crash || At(S(), p, Done))
      modifies this`gate, this`procs, this`trace
      ensures Valid() && gate == None && procs == old(procs) - {p}
    {
      RunInv(trace);
      ghost var before := S();
      gate := None;
      procs := procs - {p};
      Log(before, if crash then Crash(p) else Leave(p));
    }

    /** The first transaction: the attempt is recorded as under way, or settled without sending. */
    method Intend(p: Proc, call: Call) returns (d: Decision)
      requires Valid() && procs == map[p := Local(call, Entered)]
      modifies this`rows, this`procs, this`trace
      ensures Valid() && d == Decide(old(rows), call)
      ensures rows == if d.Go? then old(rows)[call.id := d.row] else old(rows)
      ensures procs == map[p := Local(call, if d.Go? then Prepared else Done)]
    {
      ghost var before := S();
      if call.id in rows {
        var row := rows[call.id];
        if row.target != call.target || row.payload != call.payload {
          d := Refuse("idempotency-conflict");
        } else if row.phase == Returned {
          d := Replay(row.response);
        } else if !call.retry {
          d := Refuse("state-conflict");
        } else {
          d := Go(row.(phase := Attempting, tries := row.tries + 1));
        }
      } else if call.retry {
        d := Refuse("state-conflict");
      } else if |rows| >= MAX_ROWS {
        d := Refuse("storage-insufficient");
      } else {
        d := Go(Row(call.target, call.payload, Attempting, 1, None));
      }
      if d.Go? { rows := rows[call.id := d.row]; }
      procs := procs[p := Local(call, if d.Go? then Prepared else Done)];
      Log(before, Prepare(p));
    }

    method Send(p: Proc, call: Call)
      requires Valid() && procs == map[p := Local(call, Prepared)] && call.id in rows
      modifies this`procs, this`sends, this`trace
      ensures Valid() && procs == map[p := Local(call, Sending)]
      ensures sends == old(sends) + [Sent(call.id, call.target, call.payload, call.retry, rows[call.id].tries)]
    {
      ghost var before := S();
      procs := procs[p := Local(call, Sending)];
      sends := sends + [Sent(call.id, call.target, call.payload, call.retry, rows[call.id].tries)];
      Log(before, Transmit(p));
    }

    /** The second transaction: the reply, or that there was none. */
    method Settle(p: Proc, call: Call, reply: Reply)
      requires Valid() && procs == map[p := Local(call, Answered(reply))] && call.id in rows
      modifies this`rows, this`procs, this`trace
      ensures Valid() && procs == map[p := Local(call, Done)]
      ensures rows == old(rows)[call.id := old(rows)[call.id].(phase := PhaseFor(reply), response := Some(reply))]
    {
      ghost var before := S();
      rows := rows[call.id := rows[call.id].(phase := if reply.failed then Unknown else Returned, response := Some(reply))];
      procs := procs[p := Local(call, Done)];
      Log(before, Record(p));
    }

    ghost method Hear(p: Proc, call: Call, reply: Reply)
      requires Valid() && procs == map[p := Local(call, Sending)]
      modifies this`procs, this`trace
      ensures Valid() && procs == map[p := Local(call, Answered(reply))]
    {
      ghost var before := S();
      procs := procs[p := Local(call, Answered(reply))];
      Log(before, Answer(p, reply));
    }

    method SendAndSettle(p: Proc, call: Call, reply: Reply, dies: nat) returns (r: Outcome)
      requires Valid() && gate == Some(p) && procs == map[p := Local(call, Prepared)] && call.id in rows && dies > 0
      modifies this
      ensures Valid() && gate == None && procs == map[] && !r.Busy?
      ensures r == if dies > 3 then Told(reply, PhaseFor(reply)) else Killed
      ensures var row := old(rows)[call.id];
        && rows == old(rows)[call.id := if dies > 2 then row.(phase := PhaseFor(reply), response := Some(reply)) else row]
        && sends == old(sends) + if dies > 1 then [Sent(call.id, call.target, call.payload, call.retry, row.tries)] else []
    {
      if dies == 1 { Depart(p, true); return Killed; }
      Send(p, call);
      Hear(p, call, reply);
      if dies == 2 { Depart(p, true); return Killed; }
      Settle(p, call, reply);
      Depart(p, false);
      return if dies > 3 then Told(reply, PhaseFor(reply)) else Killed;
    }

    /** A request, by what its first transaction decides; `reply` and `dies` as for `Request`. */
    method Attempt(p: Proc, call: Call, reply: Reply, dies: nat) returns (r: Outcome)
      requires Valid()
      modifies this
      ensures Valid() && gate == old(gate)
      ensures r.Busy? <==> old(gate).Some?
      ensures r.Busy? ==> S() == old(S())
      ensures old(gate).None? ==> procs == map[]
      // settled in the ledger, without sending
      ensures old(gate).None? && (dies == 0 || !Decide(old(rows), call).Go?) ==> rows == old(rows) && sends == old(sends)
      ensures old(gate).None? && dies > 3 ==>
        match Decide(old(rows), call)
        case Refuse(code) => r == Refused(code)
        case Replay(stored) => stored.Some? && r == Told(stored.value, Returned)
        case Go(row) => r == Told(reply, PhaseFor(reply))
      // recorded, then sent once, then recorded again, as far as the process lives
      ensures old(gate).None? && dies > 0 && Decide(old(rows), call).Go? ==>
        var row := Decide(old(rows), call).row;
        && rows == old(rows)[call.id := if dies > 2 then row.(phase := PhaseFor(reply), response := Some(reply)) else row]
        && sends == old(sends) + if dies > 1 then [Sent(call.id, call.target, call.payload, call.retry, row.tries)] else []
      ensures r.Refused? || dies == 0 ==> rows == old(rows) && sends == old(sends)
      ensures old(gate).None? && dies <= 3 ==> r == Killed
    {
      ReplayHasReply(trace, call);
      var ok := OpenGate(p, call);
      if !ok { return Busy; }
      if dies == 0 { Depart(p, true); return Killed; }
      var d := Intend(p, call);
      match d
      case Refuse(code) =>
        Depart(p, false);
        return if dies > 3 then Refused(code) else Killed;
      case Replay(stored) =>
        Depart(p, false);
        return if dies > 3 then Told(stored.value, Returned) else Killed;
      case Go(row) =>
        r := SendAndSettle(p, call, reply, dies);
    }

    /**
     * A mutating request. `reply` is what the transmission brings back; `dies` says before which of the steps the process is
     * killed, if at all: 0 the first transaction, 1 the transmission, 2 the second transaction, 3 the return.
     */
    method Request(p: Proc, call: Call, reply: Reply, dies: nat) returns (r: Outcome)
      requires Valid()
      modifies this
      ensures Valid() && gate == old(gate)
      ensures r.Busy? <==> old(gate).Some?
      ensures r.Busy? ==> S() == old(S())
      ensures old(gate).None? ==> procs == map[]
      ensures old(gate).None? && dies <= 3 ==> r == Killed
      // a new attempt, with room left, is recorded, sent once, and recorded again, as far as the process lives
      ensures old(gate).None? && dies > 0 && call.id !in old(rows) && !call.retry && |old(rows)| < MAX_ROWS ==>
        var phase := if reply.failed then Unknown else Returned;
        && rows == old(rows)[call.id := if dies > 2 then Row(call.target, call.payload, phase, 1, Some(reply))
                                        else Row(call.target, call.payload, Attempting, 1, None)]
        && sends == old(sends) + (if dies > 1 then [Sent(call.id, call.target, call.payload, false, 1)] else [])
        && (dies > 3 ==> r == Told(reply, phase))
      // so is one that has not returned, where that is asked for: it is counted and sent once more
      ensures old(gate).None? && dies > 0 && SameAttempt(old(rows), call) && old(rows)[call.id].phase != Returned && call.retry ==>
        var phase, tries := if reply.failed then Unknown else Returned, old(rows)[call.id].tries + 1;
        && rows == old(rows)[call.id := if dies > 2 then Row(call.target, call.payload, phase, tries, Some(reply))
                                        else Row(call.target, call.payload, Attempting, tries, old(rows)[call.id].response)]
        && sends == old(sends) + (if dies > 1 then [Sent(call.id, call.target, call.payload, true, tries)] else [])
        && (dies > 3 ==> r == Told(reply, phase))
      // one that has returned is answered from the ledger
      ensures old(gate).None? && SameAttempt(old(rows), call) && old(rows)[call.id].phase == Returned ==>
        && rows == old(rows) && sends == old(sends)
        && (dies > 3 ==> old(rows)[call.id].response.Some? && r == Told(old(rows)[call.id].response.value, Returned))
      // each refusal has its one reason, and changes nothing
      ensures old(gate).None? && dies > 3 ==>
        && (r == Refused("idempotency-conflict") <==>
              call.id in old(rows) && (old(rows)[call.id].target != call.target || old(rows)[call.id].payload != call.payload))
        && (r == Refused("state-conflict") <==>
              if call.id in old(rows) then SameAttempt(old(rows), call) && old(rows)[call.id].phase != Returned && !call.retry
              else call.retry)
        && (r == Refused("storage-insufficient") <==> call.id !in old(rows) && !call.retry && |old(rows)| >= MAX_ROWS)
      ensures r.Refused? || dies == 0 ==> rows == old(rows) && sends == old(sends)
    {
      DecideMeaning(rows, call);
      r := Attempt(p, call, reply, dies);
    }

    /** A retry sends exactly what the ledger has for the attempt. */
    method Retry(p: Proc, id: Id, reply: Reply, dies: nat) returns (r: Outcome)
      requires Valid()
      modifies this
      ensures Valid()
      ensures id !in old(rows) ==> r == Refused("state-conflict") && S() == old(S())
      ensures id in old(rows) && old(rows)[id].phase == Returned ==> rows == old(rows) && sends == old(sends)
      ensures id in old(rows) && old(gate).None? && dies > 3 ==>
        if old(rows)[id].phase == Returned then old(rows)[id].response.Some? && r == Told(old(rows)[id].response.value, Returned)
        else
          var row := old(rows)[id].(phase := if reply.failed then Unknown else Returned, tries := old(rows)[id].tries + 1,
                                    response := Some(reply));
          && r == Told(reply, row.phase) && rows == old(rows)[id := row]
          && sends == old(sends) + [Sent(id, row.target, row.payload, true, row.tries)]
    {
      if id !in rows { return Refused("state-conflict"); }
      r := Request(p, Call(id, rows[id].target, rows[id].payload, true), reply, dies);
    }
  }
}
