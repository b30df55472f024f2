/**
 * Connecting and cancelling: a connection is recorded before it is attempted, anyone may cancel it by its identifier at any
 * time, and a last transaction decides between the reply and the cancellation. Any process can die at any point.
 */
module ConnectionModel {
  import opened Basics

  type Id = string
  type Proc = nat

  const MAX_ROWS := 4096

  datatype Phase = Connecting | Cancelled | Returned | Unknown
  datatype Row = Row(target: string, phase: Phase, cancel: bool)
  type Rows = map<Id, Row>

  /** `known` says that the target is saved, or that the connection is a preview, which needs none. */
  datatype Call = Call(id: Id, target: string, known: bool)

  /** The transaction that both connecting and cancelling start with: the phase it leaves. */
  function Record(rows: Rows, call: Call, cancel: bool): Result<Phase> {
    if !call.known then Err("permission-denied")
    else if call.id !in rows then
      if |rows| >= MAX_ROWS then Err("storage-insufficient") else Ok(if cancel then Cancelled else Connecting)
    else
      var row := rows[call.id];
      if row.target != call.target then Err("idempotency-conflict")
      else if !cancel && row.phase != Cancelled then Err("state-conflict")
      else if cancel && (row.phase == Connecting || row.phase == Unknown) then Ok(Cancelled)
      else Ok(row.phase)
  }

  function Recorded(rows: Rows, call: Call, cancel: bool): Rows {
    match Record(rows, call, cancel)
    case Err(_) => rows
    case Ok(phase) =>
      if call.id !in rows then rows[call.id := Row(call.target, phase, cancel)]
      else if phase != rows[call.id].phase then rows[call.id := rows[call.id].(phase := phase, cancel := true)]
      else rows
  }

  // ---------------------------------------------------------------- the machine

  datatype Outcome = Refused(code: string) | Seen(phase: Phase)
  datatype Stage = Granted | Sending | Answered(failed: bool) | Done(outcome: Outcome)
  datatype Local = Local(id: Id, target: string, stage: Stage)

  /** `sent` lists the connections attempted, `cancels` those for which a cancellation was accepted. */
  datatype State = State(rows: Rows, procs: map<Proc, Local>, sent: seq<Id>, cancels: set<Id>)

  const EMPTY := State(map[], map[], [], {})

  datatype Act =
    | Begin(p: Proc, call: Call)
    | Transmit(p: Proc)
    | Answer(p: Proc, failed: bool)
    | Finish(p: Proc)
    | Leave(p: Proc)
    | Crash(p: Proc)
    | Cancel(call: Call)

  predicate Enabled(s: State, a: Act) {
    match a
    case Begin(p, _) => p !in s.procs
    case Transmit(p) => p in s.procs && s.procs[p].stage == Granted
    case Answer(p, _) => p in s.procs && s.procs[p].stage == Sending
    case Finish(p) => p in s.procs && s.procs[p].stage.Answered? && s.procs[p].id in s.rows
    case Leave(p) => p in s.procs && s.procs[p].stage.Done?
    case Crash(p) => p in s.procs
    case Cancel(_) => true
  }

  function Moved(s: State, p: Proc, stage: Stage): map<Proc, Local>
    requires p in s.procs
  {
    s.procs[p := s.procs[p].(stage := stage)]
  }

  /** Only a connection recorded just now may be attempted. */
  function StageFor(r: Result<Phase>): Stage {
    match r
    case Err(code) => Done(Refused(code))
    case Ok(phase) => if phase == Cancelled then Done(Seen(Cancelled)) else Granted
  }

  /** The last transaction: an accepted cancellation overrides whatever came back. */
  function Final(row: Row, failed: bool): Phase {
    if row.cancel then Cancelled else if failed then Unknown else Returned
  }

  function Next(s: State, a: Act): State
    requires Enabled(s, a)
  {
    match a
    case Begin(p, call) =>
      s.(rows := Recorded(s.rows, call, false),
         procs := s.procs[p := Local(call.id, call.target, StageFor(Record(s.rows, call, false)))])
    case Transmit(p) => s.(procs := Moved(s, p, Sending), sent := s.sent + [s.procs[p].id])
    case Answer(p, failed) => s.(procs := Moved(s, p, Answered(failed)))
    case Finish(p) =>
      var id := s.procs[p].id;
      var phase := Final(s.rows[id], s.procs[p].stage.failed);
      s.(rows := s.rows[id := s.rows[id].(phase := phase)], procs := Moved(s, p, Done(Seen(phase))))
    case Leave(p) => s.(procs := s.procs - {p})
    case Crash(p) => s.(procs := s.procs - {p})
    case Cancel(call) =>
      s.(rows := Recorded(s.rows, call, true),
         cancels := if Record(s.rows, call, true).Ok? then s.cancels + {call.id} else s.cancels)
  }

  ghost function Run(s: State, acts: seq<Act>): Option<State>
    decreases |acts|
  {
    if acts == [] then Some(s)
    else
      match Run(s, acts[..|acts| - 1])
      case None => None
      case Some(m) => if Enabled(m, acts[|acts| - 1]) then Some(Next(m, acts[|acts| - 1])) else None
  }

  lemma RunStep(s: State, acts: seq<Act>, m: State, a: Act)
    requires Run(s, acts) == Some(m) && Enabled(m, a)
    ensures Run(s, acts + [a]) == Some(Next(m, a))
  {
    assert (acts + [a])[..|acts|] == acts;
  }

  // ---------------------------------------------------------------- the invariant

  /** The flag is set exactly in the phase `Cancelled`, which every accepted cancellation leads to unless the reply was first. */
  ghost predicate RowSound(row: Row, cancelled: bool) {
    && (row.cancel <==> row.phase == Cancelled)
    && (row.phase == Cancelled ==> cancelled)
    && (cancelled ==> row.phase == Cancelled || row.phase == Returned)
  }

  ghost predicate RowsSound(rows: Rows, cancels: set<Id>) {
    && |rows| <= MAX_ROWS && cancels <= rows.Keys
    && forall id {:trigger rows[id]} :: id in rows ==> RowSound(rows[id], id in cancels)
  }

  predicate Working(local: Local) {
    !local.stage.Done?
  }

  /** Still to be finished: only a cancellation can have touched the row. */
  ghost predicate Open(rows: Rows, local: Local) {
    && local.id in rows && rows[local.id].target == local.target
    && (rows[local.id].phase == Connecting || rows[local.id].phase == Cancelled)
  }

  ghost predicate LocalSound(s: State, local: Local) {
    Working(local) ==> Open(s.rows, local) && (local.stage.Granted? <==> local.id !in s.sent)
  }

  ghost predicate Apart(one: Local, other: Local) {
    Working(one) && Working(other) ==> one.id != other.id
  }

  ghost predicate Separate(procs: map<Proc, Local>) {
    forall p, q {:trigger Apart(procs[p], procs[q])} :: p in procs && q in procs && p != q ==> Apart(procs[p], procs[q])
  }

  ghost predicate SentOnce(rows: Rows, sent: seq<Id>) {
    && (forall i, j :: 0 <= i < j < |sent| ==> sent[i] != sent[j])
    && (forall id {:trigger id in sent} :: id in sent ==> id in rows)
  }

  ghost predicate Inv(s: State) {
    && RowsSound(s.rows, s.cancels) && SentOnce(s.rows, s.sent) && Separate(s.procs)
    && (forall p {:trigger s.procs[p]} :: p in s.procs ==> LocalSound(s, s.procs[p]))
  }

  /** What a row may still become. */
  ghost predicate Kept(rows: Rows, later: Rows, id: Id) {
    id in rows ==>
      && id in later && later[id].target == rows[id].target
      && (rows[id].phase == Cancelled || rows[id].phase == Returned ==> later[id] == rows[id])
      && (rows[id].phase == Unknown ==> later[id].phase == Unknown || later[id].phase == Cancelled)
  }
}

module ConnectionLaws {
  import opened Basics
  import opened ConnectionModel

  lemma RecordedKeeps(rows: Rows, cancels: set<Id>, call: Call, cancel: bool)
    requires RowsSound(rows, cancels)
    ensures var later := Recorded(rows, call, cancel);
      && RowsSound(later, if cancel && Record(rows, call, cancel).Ok? then cancels + {call.id} else cancels)
      && rows.Keys <= later.Keys && (forall id :: Kept(rows, later, id))
      && (forall id :: id in rows && id != call.id ==> later[id] == rows[id])
      && (call.id in rows ==> later[call.id] == rows[call.id] || later[call.id].phase == Cancelled)
  {
    var later := Recorded(rows, call, cancel);
    assert later.Keys == rows.Keys || later.Keys == rows.Keys + {call.id};
    assert call.id in rows ==> RowSound(rows[call.id], call.id in cancels);
  }

  /** What the transaction makes of every call, connecting or cancelling, as far as that is in the fields of the row. */
  lemma RecordMeaning(rows: Rows, cancels: set<Id>, call: Call, cancel: bool)
    requires RowsSound(rows, cancels)
    ensures var r, later := Record(rows, call, cancel), Recorded(rows, call, cancel);
      && (r == Err("permission-denied") <==> !call.known)
      && (r == Err("idempotency-conflict") <==> call.known && call.id in rows && rows[call.id].target != call.target)
      && (r == Err("storage-insufficient") <==> call.known && call.id !in rows && |rows| >= MAX_ROWS)
      && (r == Err("state-conflict") <==>
            !cancel && call.known && call.id in rows && rows[call.id].target == call.target && rows[call.id].phase != Cancelled)
      && (r.Err? ==> later == rows)
      && (r.Ok? ==>
            var row := if call.id in rows && rows[call.id].phase == Returned then rows[call.id]
                       else Row(call.target, if cancel || call.id in rows then Cancelled else Connecting, cancel || call.id in rows);
            r == Ok(row.phase) && later == rows[call.id := row])
  {
    assert call.id in rows ==> RowSound(rows[call.id], call.id in cancels);
    var r := Record(rows, call, cancel);
    if r.Ok? && call.id in rows {
      assert rows[call.id].phase != Connecting || cancel;
      assert rows == rows[call.id := rows[call.id]];
    }
  }

  lemma OthersStay(s: State, t: State, q: Proc)
    requires q in s.procs && LocalSound(s, s.procs[q]) && Working(s.procs[q])
    requires t.sent == s.sent && s.procs[q].id in t.rows && t.rows[s.procs[q].id].target == s.rows[s.procs[q].id].target
    requires t.rows[s.procs[q].id] == s.rows[s.procs[q].id] || t.rows[s.procs[q].id].phase == Cancelled
    ensures LocalSound(t, s.procs[q])
  {
  }

  lemma BeginKeeps(s: State, p: Proc, call: Call)
    requires Inv(s) && Enabled(s, Begin(p, call))
    ensures Inv(Next(s, Begin(p, call)))
  {
    var t := Next(s, Begin(p, call));
    RecordedKeeps(s.rows, s.cancels, call, false);
    forall q | q in s.procs && Working(s.procs[q]) ensures LocalSound(t, s.procs[q]) {
      assert LocalSound(s, s.procs[q]);
      OthersStay(s, t, q);
    }
    assert Working(t.procs[p]) ==> call.id !in s.rows;
    forall q | q in t.procs ensures LocalSound(t, t.procs[q]) {
      if q != p { assert t.procs[q] == s.procs[q]; }
    }
    forall q, r | q in t.procs && r in t.procs && q != r ensures Apart(t.procs[q], t.procs[r]) {
      if q != p && r != p {
        assert Apart(s.procs[q], s.procs[r]);
      } else if q != p {
        assert LocalSound(s, s.procs[q]);
      } else {
        assert LocalSound(s, s.procs[r]);
      }
    }
  }

  lemma TransmitKeeps(s: State, p: Proc)
    requires Inv(s) && Enabled(s, Transmit(p))
    ensures Inv(Next(s, Transmit(p)))
  {
    var t := Next(s, Transmit(p));
    assert LocalSound(s, s.procs[p]);
    MovedIsSeparate(s, p, Sending);
    forall q | q in t.procs ensures LocalSound(t, t.procs[q]) {
      assert LocalSound(s, s.procs[q]);
      assert q != p ==> Apart(s.procs[q], s.procs[p]);
    }
  }

  lemma MovedIsSeparate(s: State, p: Proc, stage: Stage)
    requires Separate(s.procs) && p in s.procs && Working(s.procs[p])
    ensures Separate(Moved(s, p, stage))
  {
    var procs := Moved(s, p, stage);
    forall q, r | q in procs && r in procs && q != r ensures Apart(procs[q], procs[r]) {
      assert Apart(s.procs[q], s.procs[r]);
    }
  }

  lemma AnswerKeeps(s: State, p: Proc, failed: bool)
    requires Inv(s) && Enabled(s, Answer(p, failed))
    ensures Inv(Next(s, Answer(p, failed)))
  {
    var t := Next(s, Answer(p, failed));
    MovedIsSeparate(s, p, Answered(failed));
    forall q | q in t.procs ensures LocalSound(t, t.procs[q]) {
      assert LocalSound(s, s.procs[q]);
    }
  }

  lemma FinishKeeps(s: State, p: Proc)
    requires Inv(s) && Enabled(s, Finish(p))
    ensures Inv(Next(s, Finish(p))) && forall id :: Kept(s.rows, Next(s, Finish(p)).rows, id)
  {
    var t := Next(s, Finish(p));
    var id := s.procs[p].id;
    assert LocalSound(s, s.procs[p]) && RowSound(s.rows[id], id in s.cancels);
    MovedIsSeparate(s, p, t.procs[p].stage);
    assert t.rows.Keys == s.rows.Keys;
    forall q | q in t.procs ensures LocalSound(t, t.procs[q]) {
      assert LocalSound(s, s.procs[q]);
      assert q != p ==> Apart(s.procs[q], s.procs[p]);
    }
  }

  lemma CancelKeeps(s: State, call: Call)
    requires Inv(s)
    ensures Inv(Next(s, Cancel(call)))
  {
    var t := Next(s, Cancel(call));
    RecordedKeeps(s.rows, s.cancels, call, true);
    forall q | q in s.procs ensures LocalSound(t, s.procs[q]) {
      assert LocalSound(s, s.procs[q]);
      if Working(s.procs[q]) {
        assert Kept(s.rows, t.rows, s.procs[q].id);
        OthersStay(s, t, q);
      }
    }
  }

  lemma GoneKeeps(s: State, p: Proc)
    requires Inv(s)
    ensures Inv(s.(procs := s.procs - {p}))
  {
    var t := s.(procs := s.procs - {p});
    forall q | q in t.procs ensures LocalSound(t, t.procs[q]) {
      assert LocalSound(s, s.procs[q]);
    }
    forall q, r | q in t.procs && r in t.procs && q != r ensures Apart(t.procs[q], t.procs[r]) {
      assert Apart(s.procs[q], s.procs[r]);
    }
  }

  lemma NextKeeps(s: State, a: Act)
    requires Inv(s) && Enabled(s, a)
    ensures Inv(Next(s, a))
  {
    match a {
      case Begin(p, call) => BeginKeeps(s, p, call);
      case Transmit(p) => TransmitKeeps(s, p);
      case Answer(p, failed) => AnswerKeeps(s, p, failed);
      case Finish(p) => FinishKeeps(s, p);
      case Leave(p) => GoneKeeps(s, p);
      case Crash(p) => GoneKeeps(s, p);
      case Cancel(call) => CancelKeeps(s, call);
    }
  }

  lemma NextRows(s: State, a: Act, id: Id)
    requires Inv(s) && Enabled(s, a)
    ensures Kept(s.rows, Next(s, a).rows, id) && s.cancels <= Next(s, a).cancels
  {
    match a {
      case Begin(p, call) => RecordedKeeps(s.rows, s.cancels, call, false);
      case Finish(p) => FinishKeeps(s, p);
      case Cancel(call) => RecordedKeeps(s.rows, s.cancels, call, true);
      case _ =>
    }
  }

  lemma {:induction false} RunInv(acts: seq<Act>)
    requires Run(EMPTY, acts).Some?
    ensures Inv(Run(EMPTY, acts).value)
    decreases |acts|
  {
    if acts != [] {
      RunInv(acts[..|acts| - 1]);
      NextKeeps(Run(EMPTY, acts[..|acts| - 1]).value, acts[|acts| - 1]);
    }
  }

  /** Under every interleaving: the flag is set exactly in the phase `Cancelled`; a cancellation was accepted whenever that is
      the phase, and when one was accepted the phase is that or `Returned`; no connection is attempted twice, and there are
      never too many of them. */
  lemma CancelFlagIsPhase(acts: seq<Act>, id: Id)
    requires Run(EMPTY, acts).Some? && id in Run(EMPTY, acts).value.rows
    ensures var s := Run(EMPTY, acts).value;
            var row := s.rows[id];
      && (row.cancel <==> row.phase == Cancelled) && (row.phase == Cancelled ==> id in s.cancels)
      && (id in s.cancels ==> row.phase == Cancelled || row.phase == Returned)
      && |s.rows| <= MAX_ROWS && (forall i, j :: 0 <= i < j < |s.sent| ==> s.sent[i] != s.sent[j])
  {
    RunInv(acts);
    assert RowSound(Run(EMPTY, acts).value.rows[id], id in Run(EMPTY, acts).value.cancels);
  }

  /** `Cancelled` and `Returned` are final, and an unknown outcome can only be cancelled. */
  lemma {:induction false} SettledIsFinal(s: State, acts: seq<Act>, id: Id)
    requires Inv(s) && Run(s, acts).Some?
    ensures Inv(Run(s, acts).value) && Kept(s.rows, Run(s, acts).value.rows, id)
    decreases |acts|
  {
    if acts != [] {
      SettledIsFinal(s, acts[..|acts| - 1], id);
      NextKeeps(Run(s, acts[..|acts| - 1]).value, acts[|acts| - 1]);
      NextRows(Run(s, acts[..|acts| - 1]).value, acts[|acts| - 1], id);
    }
  }

  /** An accepted cancellation in the history of a run. */
  ghost predicate CancelAccepted(acts: seq<Act>, id: Id) {
    exists i :: 0 <= i < |acts| && AcceptedAt(acts, i, id)
  }

  /** A cancellation is accepted exactly of a known target, and of an identifier that is new, with room left, or is recorded
      for this target, whatever its phase. */
  predicate Cancellable(rows: Rows, call: Call) {
    call.known && if call.id in rows then rows[call.id].target == call.target else |rows| < MAX_ROWS
  }

  ghost predicate AcceptsCancel(m: Option<State>, a: Act, id: Id) {
    m.Some? && a.Cancel? && a.call.id == id && Cancellable(m.value.rows, a.call)
  }

  ghost predicate AcceptedAt(acts: seq<Act>, i: nat, id: Id)
    requires i < |acts|
  {
    AcceptsCancel(Run(EMPTY, acts[..i]), acts[i], id)
  }

  lemma AcceptedOneMore(front: seq<Act>, a: Act, id: Id)
    ensures CancelAccepted(front + [a], id) <==> CancelAccepted(front, id) || AcceptsCancel(Run(EMPTY, front), a, id)
  {
    var acts := front + [a];
    forall i: nat | i < |front| ensures AcceptedAt(acts, i, id) <==> AcceptedAt(front, i, id) {
      assert acts[..i] == front[..i];
    }
    assert acts[..|front|] == front;
    assert AcceptedAt(acts, |front|, id) <==> AcceptsCancel(Run(EMPTY, front), a, id);
    if CancelAccepted(front, id) {
      var i :| 0 <= i < |front| && AcceptedAt(front, i, id);
      assert AcceptedAt(acts, i, id);
    }
    if CancelAccepted(acts, id) {
      var i :| 0 <= i < |acts| && AcceptedAt(acts, i, id);
      if i < |front| { assert AcceptedAt(front, i, id); }
    }
  }

  lemma CancelsOneMore(s: State, a: Act, id: Id)
    requires Enabled(s, a)
    ensures id in Next(s, a).cancels <==> id in s.cancels || AcceptsCancel(Some(s), a, id)
  {
  }

  lemma {:induction false} CancelsAreAccepted(acts: seq<Act>, id: Id)
    requires Run(EMPTY, acts).Some?
    ensures id in Run(EMPTY, acts).value.cancels <==> CancelAccepted(acts, id)
    decreases |acts|
  {
    if acts != [] {
      var front, a := acts[..|acts| - 1], acts[|acts| - 1];
      assert acts == front + [a];
      CancelsAreAccepted(front, id);
      CancelsOneMore(Run(EMPTY, front).value, a, id);
      AcceptedOneMore(front, a, id);
    }
  }

  /** The caller is told that the connection was cancelled exactly when a cancellation was accepted before the last
      transaction, whatever came back; otherwise it is told what came back. */
  lemma CancelDecides(acts: seq<Act>, p: Proc)
    requires Run(EMPTY, acts).Some? && Enabled(Run(EMPTY, acts).value, Finish(p))
    ensures var s := Run(EMPTY, acts).value;
            var told := Next(s, Finish(p)).procs[p].stage;
      && told.Done? && told.outcome.Seen?
      && (told.outcome.phase == Cancelled <==> CancelAccepted(acts, s.procs[p].id))
      && (told.outcome.phase != Cancelled ==> told.outcome.phase == if s.procs[p].stage.failed then Unknown else Returned)
  {
    RunInv(acts);
    var s := Run(EMPTY, acts).value;
    CancelsAreAccepted(acts, s.procs[p].id);
    assert LocalSound(s, s.procs[p]) && RowSound(s.rows[s.procs[p].id], s.procs[p].id in s.cancels);
  }

  /** Nobody is about to attempt the connection. */
  ghost predicate Unclaimed(s: State, id: Id) {
    forall p {:trigger s.procs[p]} :: p in s.procs && s.procs[p].id == id ==> !s.procs[p].stage.Granted?
  }

  lemma UnclaimedStays(s: State, a: Act, id: Id)
    requires Inv(s) && Enabled(s, a) && id in s.rows && Unclaimed(s, id)
    ensures Unclaimed(Next(s, a), id) && (id in Next(s, a).sent <==> id in s.sent)
  {
    var t := Next(s, a);
    forall p | p in t.procs && t.procs[p].id == id ensures !t.procs[p].stage.Granted? {
      if p in s.procs { assert LocalSound(s, s.procs[p]); }
    }
  }

  /** Only the process that records a connection may attempt it: once it is recorded and nobody is about to attempt it, whether
      it is cancelled, answered, unknown or its process is dead, it is never attempted again, whoever connects or cancels. */
  lemma {:induction false} NeverAttemptedAgain(s: State, acts: seq<Act>, id: Id)
    requires Inv(s) && Run(s, acts).Some? && id in s.rows && Unclaimed(s, id)
    ensures var t := Run(s, acts).value; id in t.rows && Unclaimed(t, id) && (id in t.sent <==> id in s.sent)
    decreases |acts|
  {
    if acts != [] {
      var front := acts[..|acts| - 1];
      NeverAttemptedAgain(s, front, id);
      SettledIsFinal(s, front, id);
      var m := Run(s, front).value;
      UnclaimedStays(m, acts[|acts| - 1], id);
      NextRows(m, acts[|acts| - 1], id);
    }
  }

  /** A connection that is cancelled before it is attempted is never attempted after: whoever connects is told so. */
  lemma CancelledIsNotAttempted(acts: seq<Act>, p: Proc, call: Call)
    requires Run(EMPTY, acts).Some? && call.id in Run(EMPTY, acts).value.rows
    requires Run(EMPTY, acts).value.rows[call.id].phase == Cancelled && Enabled(Run(EMPTY, acts).value, Begin(p, call))
    ensures var s := Run(EMPTY, acts).value;
            var t := Next(s, Begin(p, call));
      && t.rows == s.rows && t.procs[p].stage.Done?
      && (call.known && call.target == s.rows[call.id].target ==> t.procs[p].stage.outcome == Seen(Cancelled))
  {
    RunInv(acts);
  }
}
