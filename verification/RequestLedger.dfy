/**
 * The ledger of mutating requests: any number of processes over one database, of which each can die at any point. An attempt
 * is recorded before it is sent, under a gate that is held from there to the recording of the reply.
 */
module RequestModel {
  import opened Basics

  type Id = string
  type Proc = nat

  const MAX_ROWS := 10000

  /** `failed` says that the reply is an error, or that there is none. */
  datatype Reply = Reply(failed: bool, body: string)
  datatype Phase = Attempting | Unknown | Returned
  datatype Row = Row(target: string, payload: string, phase: Phase, tries: nat, response: Option<Reply>)
  type Rows = map<Id, Row>

  datatype Call = Call(id: Id, target: string, payload: string, retry: bool)

  /** What one transaction makes of a call. */
  datatype Decision = Refuse(code: string) | Replay(reply: Option<Reply>) | Go(row: Row)

  function Decide(rows: Rows, call: Call): Decision {
    if call.id in rows then
      var row := rows[call.id];
      if row.target != call.target || row.payload != call.payload then Refuse("idempotency-conflict")
      else if row.phase == Returned then Replay(row.response)
      else if !call.retry then Refuse("state-conflict")
      else Go(row.(phase := Attempting, tries := row.tries + 1))
    else if call.retry then Refuse("state-conflict")
    else if |rows| >= MAX_ROWS then Refuse("storage-insufficient")
    else Go(Row(call.target, call.payload, Attempting, 1, None))
  }

  /** The ledger has this attempt, of the same target and payload. */
  predicate SameAttempt(rows: Rows, call: Call) {
    call.id in rows && rows[call.id].target == call.target && rows[call.id].payload == call.payload
  }

  function PhaseFor(reply: Reply): Phase {
    if reply.failed then Unknown else Returned
  }

  // ---------------------------------------------------------------- the machine

  datatype Stage = Entered | Prepared | Sending | Answered(reply: Reply) | Done
  datatype Local = Local(call: Call, stage: Stage)

  /** One transmission: the attempt, what was sent where, and the number the ledger had counted by then. */
  datatype Sent = Sent(id: Id, target: string, payload: string, retry: bool, number: nat)

  datatype State = State(rows: Rows, gate: Option<Proc>, procs: map<Proc, Local>, sends: seq<Sent>)

  const EMPTY := State(map[], None, map[], [])

  datatype Act =
    | Enter(p: Proc, call: Call)
    | Prepare(p: Proc)
    | Transmit(p: Proc)
    | Answer(p: Proc, reply: Reply)
    | Record(p: Proc)
    | Leave(p: Proc)
    | Crash(p: Proc)

  predicate At(s: State, p: Proc, stage: Stage) {
    p in s.procs && s.procs[p].stage == stage
  }

  predicate Enabled(s: State, a: Act) {
    match a
    case Enter(p, _) => p !in s.procs && s.gate.None?
    case Prepare(p) => At(s, p, Entered)
    case Transmit(p) => At(s, p, Prepared) && s.procs[p].call.id in s.rows
    case Answer(p, _) => At(s, p, Sending)
    case Record(p) => p in s.procs && s.procs[p].stage.Answered? && s.procs[p].call.id in s.rows
    case Leave(p) => At(s, p, Done)
    case Crash(p) => p in s.procs
  }

  function Moved(s: State, p: Proc, stage: Stage): State
    requires p in s.procs
  {
    s.(procs := s.procs[p := s.procs[p].(stage := stage)])
  }

  /** The process is gone, and with it its hold of the gate. */
  function Gone(s: State, p: Proc): State {
    s.(procs := s.procs - {p}, gate := if s.gate == Some(p) then None else s.gate)
  }

  function AfterPrepare(s: State, p: Proc): State
    requires Enabled(s, Prepare(p))
  {
    var call := s.procs[p].call;
    match Decide(s.rows, call)
    case Go(row) => Moved(s, p, Prepared).(rows := s.rows[call.id := row])
    case _ => Moved(s, p, Done)
  }

  function AfterTransmit(s: State, p: Proc): State
    requires Enabled(s, Transmit(p))
  {
    var call := s.procs[p].call;
    Moved(s, p, Sending).(sends := s.sends + [Sent(call.id, call.target, call.payload, call.retry, s.rows[call.id].tries)])
  }

  function AfterRecord(s: State, p: Proc): State
    requires Enabled(s, Record(p))
  {
    var id, reply := s.procs[p].call.id, s.procs[p].stage.reply;
    Moved(s, p, Done).(rows := s.rows[id := s.rows[id].(phase := PhaseFor(reply), response := Some(reply))])
  }

  function Next(s: State, a: Act): State
    requires Enabled(s, a)
  {
    match a
    case Enter(p, call) => s.(gate := Some(p), procs := s.procs[p := Local(call, Entered)])
    case Prepare(p) => AfterPrepare(s, p)
    case Transmit(p) => AfterTransmit(s, p)
    case Answer(p, reply) => Moved(s, p, Answered(reply))
    case Record(p) => AfterRecord(s, p)
    case Leave(p) => Gone(s, p)
    case Crash(p) => Gone(s, p)
  }

  ghost function Run(s: State, acts: seq<Act>): Option<State>
    decreases |acts|
  {
    if acts == [] then Some(s)
    else
      match Run(s, acts[..|acts| - 1])
      case None => None
      case Some(m) => if Enabled(m, acts[|acts| - 1]) then Some(Next(m, acts[|acts| - 1])) else None
  }

  lemma RunStep(s: State, acts: seq<Act>, m: State, a: Act)
    requires Run(s, acts) == Some(m) && Enabled(m, a)
    ensures Run(s, acts + [a]) == Some(Next(m, a))
  {
    assert (acts + [a])[..|acts|] == acts;
  }

  // ---------------------------------------------------------------- the invariant

  /** Whoever is at work holds the gate. */
  ghost predicate Exclusive(s: State) {
    && (forall p :: p in s.procs ==> s.gate == Some(p))
    && (s.gate.Some? ==> s.gate.value in s.procs)
  }

  ghost predicate RowSound(row: Row) {
    && row.tries >= 1
    && (row.phase == Returned ==> row.response.Some? && !row.response.value.failed)
    && (row.phase == Unknown ==> row.response.Some? && row.response.value.failed)
  }

  ghost predicate RowsSound(rows: Rows) {
    |rows| <= MAX_ROWS && forall id :: id in rows ==> RowSound(rows[id])
  }

  /** A transmission is of the target and the payload of its row, and only the first was not a retry. */
  ghost predicate Matches(rows: Rows, sent: Sent) {
    && sent.id in rows && sent.target == rows[sent.id].target && sent.payload == rows[sent.id].payload
    && 1 <= sent.number <= rows[sent.id].tries && (sent.number == 1 <==> !sent.retry)
  }

  ghost predicate Before(one: Sent, other: Sent) {
    one.id == other.id ==> one.number < other.number
  }

  ghost predicate Numbered(sends: seq<Sent>) {
    forall i, j {:trigger Before(sends[i], sends[j])} :: 0 <= i < j < |sends| ==> Before(sends[i], sends[j])
  }

  /** A process that may send, is sending, or has sent: its attempt is durably recorded as under way. */
  ghost predicate Backed(rows: Rows, call: Call) {
    && call.id in rows && rows[call.id].target == call.target && rows[call.id].payload == call.payload
    && rows[call.id].phase == Attempting && (rows[call.id].tries == 1 <==> !call.retry)
  }

  ghost predicate Unsent(rows: Rows, sends: seq<Sent>, id: Id) {
    forall i :: 0 <= i < |sends| && sends[i].id == id ==> id in rows && sends[i].number < rows[id].tries
  }

  ghost predicate LocalSound(s: State, local: Local) {
    && (local.stage.Prepared? || local.stage.Sending? || local.stage.Answered? ==> Backed(s.rows, local.call))
    && (local.stage.Prepared? ==> Unsent(s.rows, s.sends, local.call.id))
  }

  ghost predicate AllMatch(rows: Rows, sends: seq<Sent>) {
    forall i {:trigger Matches(rows, sends[i])} :: 0 <= i < |sends| ==> Matches(rows, sends[i])
  }

  ghost predicate Inv(s: State) {
    && Exclusive(s) && RowsSound(s.rows) && AllMatch(s.rows, s.sends) && Numbered(s.sends)
    && (forall p :: p in s.procs ==> LocalSound(s, s.procs[p]))
  }

  /** Rows never disappear, never change what they are about, and never count down; what has returned is settled. */
  ghost predicate Kept(rows: Rows, later: Rows, id: Id) {
    id in rows ==>
      && id in later && later[id].target == rows[id].target && later[id].payload == rows[id].payload
      && later[id].tries >= rows[id].tries && (rows[id].phase == Returned ==> later[id] == rows[id])
  }

  /** Nothing is sent for an attempt that has returned. */
  ghost predicate Quiet(s: State, t: State, id: Id) {
    && |t.sends| >= |s.sends| && t.sends[..|s.sends|] == s.sends
    && (id in s.rows && s.rows[id].phase == Returned ==> forall i :: |s.sends| <= i < |t.sends| ==> t.sends[i].id != id)
  }
}

/** What every run keeps. */
module RequestLaws {
  import opened Basics
  import opened RequestModel

  lemma RowPut(rows: Rows, sends: seq<Sent>, id: Id, row: Row)
    requires AllMatch(rows, sends) && RowSound(row)
    requires id in rows ==> row.target == rows[id].target && row.payload == rows[id].payload && row.tries >= rows[id].tries
    ensures AllMatch(rows[id := row], sends)
  {
    forall i | 0 <= i < |sends| ensures Matches(rows[id := row], sends[i]) {
      assert Matches(rows, sends[i]);
    }
  }

  lemma RowsPut(rows: Rows, id: Id, row: Row)
    requires RowsSound(rows) && RowSound(row) && (id !in rows ==> |rows| < MAX_ROWS)
    ensures RowsSound(rows[id := row])
  {
    assert rows[id := row].Keys == rows.Keys + {id};
  }

  lemma NewIsUnsent(rows: Rows, sends: seq<Sent>, call: Call)
    requires AllMatch(rows, sends) && RowsSound(rows) && Decide(rows, call).Go?
    ensures var row := Decide(rows, call).row;
            RowSound(row) && Unsent(rows[call.id := row], sends, call.id) && Backed(rows[call.id := row], call)
  {
    forall i | 0 <= i < |sends| && sends[i].id == call.id ensures sends[i].number < Decide(rows, call).row.tries && call.id in rows {
      assert Matches(rows, sends[i]);
    }
  }

  lemma PrepareKeeps(s: State, p: Proc)
    requires Inv(s) && Enabled(s, Prepare(p))
    ensures Inv(AfterPrepare(s, p)) && forall id :: Kept(s.rows, AfterPrepare(s, p).rows, id)
  {
    var call := s.procs[p].call;
    var d := Decide(s.rows, call);
    if d.Go? {
      NewIsUnsent(s.rows, s.sends, call);
      RowPut(s.rows, s.sends, call.id, d.row);
      RowsPut(s.rows, call.id, d.row);
    }
  }

  lemma TransmitKeeps(s: State, p: Proc)
    requires Inv(s) && Enabled(s, Transmit(p))
    ensures Inv(AfterTransmit(s, p))
  {
    var t := AfterTransmit(s, p);
    var call := s.procs[p].call;
    var n := |s.sends|;
    assert LocalSound(s, s.procs[p]);
    forall i | 0 <= i <= n ensures Matches(t.rows, t.sends[i]) {
      assert i < n ==> Matches(s.rows, s.sends[i]);
    }
    forall i, j | 0 <= i < j <= n ensures Before(t.sends[i], t.sends[j]) {
      if j < n {
        assert Before(s.sends[i], s.sends[j]);
      } else {
        assert t.sends[i] == s.sends[i];
      }
    }
  }

  lemma RecordKeeps(s: State, p: Proc)
    requires Inv(s) && Enabled(s, Record(p))
    ensures Inv(AfterRecord(s, p)) && forall id :: Kept(s.rows, AfterRecord(s, p).rows, id)
  {
    var id, reply := s.procs[p].call.id, s.procs[p].stage.reply;
    var row := s.rows[id].(phase := PhaseFor(reply), response := Some(reply));
    assert LocalSound(s, s.procs[p]) && RowSound(s.rows[id]);
    RowPut(s.rows, s.sends, id, row);
    RowsPut(s.rows, id, row);
  }

  lemma NextKeeps(s: State, a: Act)
    requires Inv(s) && Enabled(s, a)
    ensures Inv(Next(s, a)) && forall id :: Kept(s.rows, Next(s, a).rows, id)
  {
    match a {
      case Prepare(p) => PrepareKeeps(s, p);
      case Transmit(p) => TransmitKeeps(s, p);
      case Record(p) => RecordKeeps(s, p);
      case _ =>
    }
  }

  lemma NextQuiet(s: State, a: Act, id: Id)
    requires Inv(s) && Enabled(s, a)
    ensures Quiet(s, Next(s, a), id)
  {
    if a.Transmit? {
      assert LocalSound(s, s.procs[a.p]);
    }
  }

  lemma {:induction false} RunInv(acts: seq<Act>)
    requires Run(EMPTY, acts).Some?
    ensures Inv(Run(EMPTY, acts).value)
    decreases |acts|
  {
    if acts != [] {
      RunInv(acts[..|acts| - 1]);
      NextKeeps(Run(EMPTY, acts[..|acts| - 1]).value, acts[|acts| - 1]);
    }
  }

  /** Whatever comes after a reachable state: attempts keep what they are about, and one that has returned is never touched
      or sent again. */
  lemma {:induction false} ReturnedIsFinal(s: State, acts: seq<Act>, id: Id)
    requires Inv(s) && Run(s, acts).Some?
    ensures var t := Run(s, acts).value;
            Inv(t) && Kept(s.rows, t.rows, id) && Quiet(s, t, id)
    decreases |acts|
  {
    if acts != [] {
      var front, a := acts[..|acts| - 1], acts[|acts| - 1];
      ReturnedIsFinal(s, front, id);
      var m := Run(s, front).value;
      NextKeeps(m, a);
      NextQuiet(m, a, id);
      QuietTwice(s, m, Next(m, a), id);
    }
  }

  lemma QuietTwice(s: State, m: State, t: State, id: Id)
    requires Quiet(s, m, id) && Quiet(m, t, id) && Kept(s.rows, m.rows, id)
    ensures Quiet(s, t, id)
  {
    assert t.sends[..|s.sends|] == t.sends[..|m.sends|][..|s.sends|];
    forall i | |s.sends| <= i < |t.sends| && id in s.rows && s.rows[id].phase == Returned ensures t.sends[i].id != id {
      if i < |m.sends| { assert t.sends[i] == t.sends[..|m.sends|][i]; }
    }
  }

  function SendsOf(sends: seq<Sent>, id: Id): seq<Sent>
    decreases |sends|
  {
    if sends == [] then []
    else SendsOf(sends[..|sends| - 1], id) + if sends[|sends| - 1].id == id then [sends[|sends| - 1]] else []
  }

  lemma {:induction false} SendsOfCount(sends: seq<Sent>, id: Id, bound: nat)
    requires Numbered(sends) && forall i :: 0 <= i < |sends| && sends[i].id == id ==> 1 <= sends[i].number <= bound
    ensures |SendsOf(sends, id)| <= bound
    decreases |sends|
  {
    if sends != [] {
      var front, last := sends[..|sends| - 1], sends[|sends| - 1];
      forall i, j | 0 <= i < j < |front| ensures Before(front[i], front[j]) {
        assert Before(sends[i], sends[j]);
      }
      if last.id == id {
        forall i | 0 <= i < |front| && front[i].id == id ensures front[i].number <= last.number - 1 {
          assert Before(sends[i], sends[|sends| - 1]);
        }
        SendsOfCount(front, id, last.number - 1);
      } else {
        SendsOfCount(front, id, bound);
      }
    }
  }

  /** In every reachable state: all transmissions of an attempt are of one target and payload, those of its row; there are no
      more of them than the row has counted; and at most one of them, the first, was not asked for as a retry. */
  lemma SendsAreCounted(acts: seq<Act>, id: Id)
    requires Run(EMPTY, acts).Some?
    ensures var s := Run(EMPTY, acts).value;
      && |s.rows| <= MAX_ROWS
      && (forall i :: 0 <= i < |s.sends| && s.sends[i].id == id ==>
            id in s.rows && s.sends[i].target == s.rows[id].target && s.sends[i].payload == s.rows[id].payload)
      && |SendsOf(s.sends, id)| <= (if id in s.rows then s.rows[id].tries else 0)
      && (forall i, j :: 0 <= i < j < |s.sends| && s.sends[i].id == s.sends[j].id == id ==> s.sends[j].retry)
  {
    RunInv(acts);
    var s := Run(EMPTY, acts).value;
    forall i | 0 <= i < |s.sends| ensures Matches(s.rows, s.sends[i]) {}
    SendsOfCount(s.sends, id, if id in s.rows then s.rows[id].tries else 0);
    forall i, j | 0 <= i < j < |s.sends| && s.sends[i].id == s.sends[j].id == id ensures s.sends[j].retry {
      assert Before(s.sends[i], s.sends[j]);
    }
  }

  /** Whoever is about to send has the attempt durably recorded as under way, as it is about to be sent, with a higher count
      than ever sent before; and nobody else is sending. */
  lemma SendIsRecordedFirst(acts: seq<Act>, p: Proc)
    requires Run(EMPTY, acts).Some? && Enabled(Run(EMPTY, acts).value, Transmit(p))
    ensures var s := Run(EMPTY, acts).value;
            var call := s.procs[p].call;
      && s.gate == Some(p) && (forall q :: q in s.procs ==> q == p)
      && s.rows[call.id].phase == Attempting && s.rows[call.id].target == call.target && s.rows[call.id].payload == call.payload
      && (forall i :: 0 <= i < |s.sends| && s.sends[i].id == call.id ==> s.sends[i].number < s.rows[call.id].tries)
  {
    RunInv(acts);
    assert LocalSound(Run(EMPTY, acts).value, Run(EMPTY, acts).value.procs[p]);
  }

  /** What one transaction makes of every call: a new attempt goes ahead exactly when it is not asked for as a retry and there
      is room; one that has not returned exactly when it is a retry of the same target and payload; one that has returned is
      answered; and each refusal has its one reason. */
  lemma DecideMeaning(rows: Rows, call: Call)
    ensures var d := Decide(rows, call);
      && (d.Go? <==> if call.id in rows then SameAttempt(rows, call) && rows[call.id].phase != Returned && call.retry
                     else !call.retry && |rows| < MAX_ROWS)
      && (d.Go? ==> d.row == if call.id in rows then Row(call.target, call.payload, Attempting, rows[call.id].tries + 1, rows[call.id].response)
                             else Row(call.target, call.payload, Attempting, 1, None))
      && (d.Replay? <==> SameAttempt(rows, call) && rows[call.id].phase == Returned)
      && (d.Replay? ==> d.reply == rows[call.id].response)
      && (d == Refuse("idempotency-conflict") <==>
            call.id in rows && (rows[call.id].target != call.target || rows[call.id].payload != call.payload))
      && (d == Refuse("state-conflict") <==>
            if call.id in rows then SameAttempt(rows, call) && rows[call.id].phase != Returned && !call.retry else call.retry)
      && (d == Refuse("storage-insufficient") <==> call.id !in rows && !call.retry && |rows| >= MAX_ROWS)
  {
    assert "idempotency-conflict"[0] == 'i' && "state-conflict"[2] == 'a' && "storage-insufficient"[2] == 'o';
  }

  lemma ReplayHasReply(acts: seq<Act>, call: Call)
    requires Run(EMPTY, acts).Some?
    ensures var d := Decide(Run(EMPTY, acts).value.rows, call);
            d.Replay? ==> d.reply.Some? && !d.reply.value.failed
  {
    RunInv(acts);
    var rows := Run(EMPTY, acts).value.rows;
    assert call.id in rows ==> RowSound(rows[call.id]);
  }

  /** A repeated call of a returned attempt is answered from the ledger. */
  lemma ReturnedIsReplayed(acts: seq<Act>, p: Proc)
    requires Run(EMPTY, acts).Some? && Enabled(Run(EMPTY, acts).value, Prepare(p))
    ensures var s := Run(EMPTY, acts).value;
            var call := s.procs[p].call;
            call.id in s.rows && s.rows[call.id].phase == Returned ==>
              Next(s, Prepare(p)).rows == s.rows && At(Next(s, Prepare(p)), p, Done)
              && (s.rows[call.id].target == call.target && s.rows[call.id].payload == call.payload ==>
                    Decide(s.rows, call).Replay? && Decide(s.rows, call).reply.Some? && !Decide(s.rows, call).reply.value.failed)
  {
    ReplayHasReply(acts, Run(EMPTY, acts).value.procs[p].call);
  }
}
