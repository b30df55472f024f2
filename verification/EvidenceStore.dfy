/** The download operation of the evidence client, over everything the server, the user and the machine may do. */
module EvidenceStore {
  import opened Basics
  import opened EvidenceModel
  import opened EvidenceLaws

  /** `bound` says that the reply repeats the request. */
  datatype Reply = Reply(bound: bool, block: Bytes, eof: bool) | Broken

  /**
   * The world around one run: the answer to the k-th request, which asks for the bytes from an offset on; whether a
   * cancellation is recorded before the k-th request; and the request after which the process is killed, with the number of
   * bytes of the block that reach the file. `moved` says that the saved target changes meanwhile.
   */
  datatype World = World(reply: (nat, nat) -> Reply, cancelled: nat -> bool, dies: Option<(nat, nat)>, moved: bool)

  /** Every request is answered with the next chunk of one file. */
  ghost predicate Honest(w: World, original: Bytes) {
    forall k: nat, at: nat {:trigger w.reply(k, at)} :: at <= |original| ==>
      w.reply(k, at) == Reply(true, original[at..Min(at + CHUNK, |original|)], at + CHUNK >= |original|)
  }

  ghost predicate NeverCancelled(w: World) {
    forall k: nat :: !w.cancelled(k)
  }

  ghost predicate Undisturbed(w: World) {
    !w.moved && w.dies.None? && NeverCancelled(w)
  }

  /** A run may begin: on an unfinished record of this payload, where that is asked for, or else on a new one, with room. */
  predicate Opens(row: Option<Row>, payload: Payload, resume: bool, room: bool) {
    if row.Some? then row.value.payload == payload && row.value.phase != Verified && resume else !resume && room
  }

  /** One of several runs; `cancelled` says that the user cancels the download before it. */
  datatype Visit = Visit(cancelled: bool, space: bool, chunks: nat, world: World)

  ghost predicate AllHonest(visits: seq<Visit>, original: Bytes) {
    forall i {:trigger visits[i]} :: 0 <= i < |visits| ==> visits[i].chunks > 0 && Honest(visits[i].world, original)
  }

  datatype Progress = Going | Complete | Failed | Dead

  datatype Outcome = Refused(code: string) | Shown(row: Row) | Killed

  class ClientEvidence {
    const hash: Hash
    var row: Option<Row>
    var file: Option<Bytes>
    ghost var work: Option<Work>
    ghost var checks: seq<Bytes>
    ghost var trace: seq<Act>

    ghost function S(): State
      reads this
    {
      State(row, file, work, checks)
    }

    ghost predicate Coherent()
      reads this
    {
      Run(EMPTY, trace, hash) == Some(S())
    }

    /** Between runs, nobody holds the lock. */
    ghost predicate Valid()
      reads this
    {
      Coherent() && work == None
    }

    constructor (hash: Hash)
      ensures Valid() && S() == EMPTY && this.hash == hash && trace == []
    {
      this.hash := hash;
      row, file := None, None;
      work, checks, trace := None, [], [];
    }

    ghost method Log(before: State, a: Act)
      requires Run(EMPTY, trace, hash) == Some(before) && Enabled(before, a, hash) && S() == Next(before, a, hash)
      modifies this`trace
      ensures Coherent() && trace == old(trace) + [a]
    {
      RunStep(EMPTY, trace, hash, before, a);
      trace := trace + [a];
    }

    method RecordCancel()
      requires Coherent()
      modifies this`row, this`trace
      ensures Coherent()
      ensures row == if old(row).Some? && old(row).value.phase != Verified then Some(old(row).value.(cancel := true)) else old(row)
    {
      if row.Some? && row.value.phase != Verified {
        ghost var before := S();
        row := Some(row.value.(cancel := true));
        Log(before, Cancel);
      }
    }

    ghost method Die()
      requires Coherent() && work.Some?
      modifies this`work, this`trace
      ensures Valid()
    {
      ghost var before := S();
      work := None;
      Log(before, Crash);
    }

    /** The first transaction. */
    method OpenRecord(payload: Payload, resume: bool, room: bool) returns (d: Decision)
      requires Valid()
      modifies this`row, this`work, this`trace
      ensures Coherent() && d == Decide(old(row), payload, resume, room)
      ensures if d.Go? then row == Some(d.row) && work == Some(Work(payload, [], Opened)) else row == old(row) && work == None
      ensures d.Go? <==> if old(row).Some? then old(row).value.payload == payload && old(row).value.phase != Verified && resume
                         else !resume && room
      // a record that is opened is receiving, and no longer cancelled
      ensures d.Go? ==> d.row == Row(payload, if old(row).Some? then old(row).value.received else 0, Receiving, false)
      ensures d.Already? <==> old(row).Some? && old(row).value.payload == payload && old(row).value.phase == Verified
      ensures d == Refuse("idempotency-conflict") <==> old(row).Some? && old(row).value.payload != payload
      ensures d == Refuse("state-conflict") <==>
        old(row).Some? && old(row).value.payload == payload && old(row).value.phase != Verified && !resume
      ensures d == Refuse("storage-insufficient") <==> old(row).None? && (resume || !room)
    {
      ghost var before := S();
      if row.Some? {
        if row.value.payload != payload {
          d := Refuse("idempotency-conflict");
        } else if row.value.phase == Verified {
          d := Already;
        } else if !resume {
          d := Refuse("state-conflict");
        } else {
          d := Go(row.value.(cancel := false, phase := Receiving));
        }
      } else if resume || !room {
        d := Refuse("storage-insufficient");
      } else {
        d := Go(Row(payload, 0, Receiving, false));
      }
      if d.Go? {
        row := Some(d.row);
        work := Some(Work(payload, [], Opened));
      }
      Log(before, Open(payload, resume, room));
    }

    method OpenFile(payload: Payload, space: bool) returns (ok: bool)
      requires Coherent() && row.Some? && work == Some(Work(payload, [], Opened))
      modifies this`file, this`work, this`trace
      ensures Coherent() && file == Some(Content(old(file))) && (ok <==> |Content(old(file))| <= payload.size && space)
      ensures work == if ok then Some(Work(payload, [], Ready)) else None
    {
      ghost var before := S();
      if file.None? { file := Some([]); }
      ok := |file.value| <= payload.size && space;
      work := if ok then Some(Work(payload, [], Ready)) else None;
      Log(before, Prepare(space));
    }

    /** Appends what the file does not have of a block, or, when the process is killed meanwhile, the beginning of that. */
    method WriteBlock(payload: Payload, current: nat, block: Bytes, eof: bool, torn: Option<nat>)
      requires Coherent() && row.Some? && file.Some? && work.Some? && |work.value.served| == current
      requires work.value == Work(payload, work.value.served, Writing(block, eof))
      modifies this`file, this`work, this`trace
      ensures Coherent()
      ensures file == Some(old(file).value +
        var missing := Missing(old(file).value, old(work).value.served, block);
        if torn.Some? then missing[..Min(torn.value, |missing|)] else missing)
      ensures torn.None? ==> work == Some(Work(payload, old(work).value.served + block, Written(eof)))
      ensures torn.Some? ==> work == old(work)
    {
      ghost var before := S();
      assert Missing(file.value, work.value.served, block)[..|Missing(file.value, work.value.served, block)|]
          == Missing(file.value, work.value.served, block);
      RunKeeps(EMPTY, trace, hash);
      var existing := Existing(file.value, current, |block|);
      var missing := if |existing| <= |block| then block[|existing|..] else [];
      var count := if torn.Some? then Min(torn.value, |missing|) else |missing|;
      file := Some(file.value + missing[..count]);
      Log(before, Write(count));
      if torn.None? {
        before := S();
        RunKeeps(EMPTY, trace, hash);
        AllWritten(old(file).value, work.value.served, payload.size, block, eof);
        work := Some(work.value.(served := work.value.served + block, stage := Written(eof)));
        Log(before, Flush);
      }
    }

    method NoteReceived(payload: Payload, current: nat, eof: bool)
      requires Coherent() && row.Some? && work.Some? && |work.value.served| == current
      requires work.value == Work(payload, work.value.served, Written(eof))
      modifies this`row, this`work, this`trace
      ensures Coherent() && row == Some(old(row).value.(received := current))
      ensures work == Some(Work(payload, old(work).value.served, if eof then Checking else Ready))
    {
      ghost var before := S();
      row := Some(row.value.(received := current));
      work := Some(work.value.(stage := if eof then Checking else Ready));
      Log(before, Note);
    }

    /** The acceptance of one reply. */
    method Accept(payload: Payload, current: nat, reply: Reply) returns (ok: bool)
      requires Coherent() && row.Some? && file.Some? && work.Some? && |work.value.served| == current
      requires work.value == Work(payload, work.value.served, Ready)
      modifies this`work, this`trace
      ensures Coherent()
      ensures ok <==> !row.value.cancel && reply.Reply? && reply.bound
                      && Acceptable(file.value, old(work).value.served, payload.size, reply.block, reply.eof)
      ensures work == if ok then Some(Work(payload, old(work).value.served, Writing(reply.block, reply.eof))) else old(work)
    {
      if row.value.cancel || reply.Broken? || !reply.bound { return false; }
      var block, eof := reply.block, reply.eof;
      ok := |block| <= CHUNK && current + |block| <= payload.size && (block != [] || eof)
            && eof == (current + |block| == payload.size) && Existing(file.value, current, |block|) <= block;
      if ok {
        ghost var before := S();
        work := Some(work.value.(stage := Writing(block, eof)));
        Log(before, Take(block, eof));
      }
    }

    method CheckFile(payload: Payload) returns (ok: bool)
      requires Coherent() && row.Some? && file.Some? && work.Some? && work.value == Work(payload, work.value.served, Checking)
      modifies this`work, this`checks, this`trace
      ensures Coherent() && (ok <==> Genuine(file.value, payload, hash))
      ensures work == if ok then Some(old(work).value.(stage := Ended(Verified))) else old(work)
    {
      ok := |file.value| == payload.size && hash(file.value) == payload.digest;
      if ok {
        ghost var before := S();
        work := Some(work.value.(stage := Ended(Verified)));
        checks := checks + [file.value];
        Log(before, Check);
      }
    }

    /** One turn of the chunk loop, from a request to the record of what was received. */
    method ReceiveChunk(payload: Payload, current: nat, k: nat, w: World) returns (p: Progress, next: nat)
      requires Coherent() && row.Some? && row.value.phase == Receiving && file.Some?
      requires work.Some? && |work.value.served| == current && work.value == Work(payload, work.value.served, Ready)
      modifies this
      ensures Coherent() && row.Some? && file.Some? && work.Some? && work.value.payload == payload
      ensures row.value.phase == Receiving && work.value.stage != Opened && old(file).value <= file.value
      ensures row.value.payload == old(row).value.payload
      ensures p.Going? ==> work.value.stage == Ready
      ensures p.Complete? ==> work.value.stage == Ended(Verified)
      ensures p.Dead? <==> w.dies.Some? && w.dies.value.0 == k && TakesReply(old(S()), payload, k, w)
      ensures w.cancelled(k) ==> p.Failed? && file == old(file) && row.value.cancel
      ensures !w.cancelled(k) ==> row.value.cancel == old(row).value.cancel
      ensures !TakesReply(old(S()), payload, k, w) ==> p.Failed? && file == old(file)
      ensures p.Dead? ==>
        var missing := Missing(old(file).value, old(work).value.served, w.reply(k, current).block);
        file.value == old(file).value + missing[..Min(w.dies.value.1, |missing|)]
      ensures TakesReply(old(S()), payload, k, w) && !p.Dead? ==>
        var reply := w.reply(k, current);
        && next == current + |reply.block| && work.value.served == old(work).value.served + reply.block
        && file.value == old(file).value + Missing(old(file).value, old(work).value.served, reply.block)
        && row.value.received == next
        && (p.Going? <==> !reply.eof) && (p.Complete? <==> reply.eof && Genuine(file.value, payload, hash))
    {
      next := current;
      if w.cancelled(k) { RecordCancel(); }
      var reply := w.reply(k, current);
      var ok := Accept(payload, current, reply);
      if !ok { return Failed, next; }
      var dying := w.dies.Some? && w.dies.value.0 == k;
      RunKeeps(EMPTY, trace, hash);
      WriteBlock(payload, current, reply.block, reply.eof, if dying then Some(w.dies.value.1) else None);
      if dying { return Dead, next; }
      next := current + |reply.block|;
      NoteReceived(payload, next, reply.eof);
      if !reply.eof { return Going, next; }
      var genuine := CheckFile(payload);
      return if genuine then Complete else Failed, next;
    }

    /** The end of a run: the phase is recorded and the lock released. */
    method CloseRecord(phase: Phase)
      requires Coherent() && row.Some? && work.Some? && work.value.stage == Ended(phase)
      modifies this`row, this`work, this`trace
      ensures Valid() && row == Some(old(row).value.(phase := phase))
    {
      ghost var before := S();
      row := Some(row.value.(phase := phase));
      work := None;
      Log(before, Close);
    }

    ghost method GiveUp(a: Act)
      requires Coherent() && (a == Fail || a == Pause) && Enabled(S(), a, hash)
      modifies this`work, this`trace
      ensures Coherent() && S() == Next(old(S()), a, hash)
    {
      ghost var before := S();
      work := Next(S(), a, hash).work;
      Log(before, a);
    }

    /** A turn, as far as the loop depends on it: what an honest server and an undisturbed world make of it. */
    method Turn(payload: Payload, current: nat, k: nat, w: World, ghost original: Bytes) returns (p: Progress, next: nat)
      requires Coherent() && row.Some? && row.value.phase == Receiving && file.Some?
      requires work.Some? && |work.value.served| == current && work.value == Work(payload, work.value.served, Ready)
      modifies this
      ensures Coherent() && row.Some? && file.Some? && work.Some? && work.value.payload == payload
      ensures row.value.phase == Receiving && work.value.stage != Opened && old(file).value <= file.value
      ensures row.value.payload == old(row).value.payload
      ensures p.Going? ==> work.value.stage == Ready && |work.value.served| == next <= current + CHUNK && row.value.received == next
      ensures p.Complete? ==> work.value.stage == Ended(Verified) && payload.size <= current + CHUNK
      ensures p.Dead? ==> w.dies.Some?
      ensures NeverCancelled(w) ==> row.value.cancel == old(row).value.cancel
      ensures Honest(w, original) && |original| == payload.size && old(file).value <= original ==> file.value <= original
      ensures Untroubled(old(S()), payload, w, original, hash) && old(work).value.served <= original ==>
        && !row.value.cancel && !p.Dead?
        && (p.Going? ==> next == current + CHUNK < payload.size && work.value.served <= original)
        && (p.Complete? ==> row.value.received == payload.size && file.value == original)
        && (old(file).value <= original ==> if current + CHUNK >= payload.size then p.Complete? else p.Going?)
    {
      FileIsWhatWasServed(trace, hash);
      if Honest(w, original) && |original| == payload.size && current <= payload.size {
        HonestReply(w, k, original, file.value, work.value.served, if w.dies.Some? then w.dies.value.1 else 0);
      }
      p, next := ReceiveChunk(payload, current, k, w);
      if p.Complete? { FileIsWhatWasServed(trace, hash); }
    }

    /** The chunk loop. `original` is the file that an honest server serves. */
    method ReceiveAll(payload: Payload, chunks: nat, w: World, ghost original: Bytes) returns (p: Progress)
      requires Coherent() && row.Some? && row.value.phase == Receiving && file.Some? && chunks > 0
      requires work == Some(Work(payload, [], Ready))
      modifies this
      ensures Coherent() && row.Some? && file.Some? && work.Some? && work.value.payload == payload
      ensures row.value.phase == Receiving && work.value.stage != Opened && old(file).value <= file.value
      ensures row.value.payload == old(row).value.payload
      ensures p.Going? ==> work.value.stage == Ready
      ensures p.Complete? ==> work.value.stage == Ended(Verified)
      ensures p.Dead? ==> w.dies.Some?
      ensures p.Complete? ==> payload.size <= chunks * CHUNK
      ensures NeverCancelled(w) ==> row.value.cancel == old(row).value.cancel
      ensures Honest(w, original) && |original| == payload.size && old(file).value <= original ==> file.value <= original
      ensures Untroubled(old(S()), payload, w, original, hash) ==>
        && !row.value.cancel
        && (payload.size <= chunks * CHUNK ==> if old(file).value <= original then p.Complete? else p.Failed?)
      ensures Fair(old(S()), payload, w, original, hash) ==>
        && file.value <= original
        && (if payload.size <= chunks * CHUNK then p.Complete? && file.value == original && row.value.received == payload.size
            else p.Going? && row.value.received == chunks * CHUNK)
    {
      var current := 0;
      var k := 0;
      p := Going;
      ghost var calm := Untroubled(S(), payload, w, original, hash);
      ghost var honest := Honest(w, original) && |original| == payload.size && file.value <= original;
      while k < chunks
        invariant Coherent() && row.Some? && row.value.phase == Receiving && file.Some? && k <= chunks
        invariant work.Some? && |work.value.served| == current && work.value == Work(payload, work.value.served, Ready)
        invariant old(file).value <= file.value && p.Going? && row.value.payload == old(row).value.payload
        invariant current <= k * CHUNK && (NeverCancelled(w) ==> row.value.cancel == old(row).value.cancel)
        invariant honest ==> file.value <= original
        invariant calm ==> Untroubled(S(), payload, w, original, hash) && current == k * CHUNK
                           && work.value.served <= original && (k > 0 ==> row.value.received == current < payload.size)
        decreases chunks - k
      {
        p, current := Turn(payload, current, k, w, original);
        if !p.Going? { return; }
        k := k + 1;
      }
    }

    /**
     * Starts or resumes a download. A verified one is only shown. A run that cannot begin leaves the record as it was opened;
     * one that is killed leaves it as far as it came; any other ends in a phase that says what is known.
     */
    method RunDownload(payload: Payload, resume: bool, room: bool, space: bool, chunks: nat, w: World, ghost original: Bytes)
      returns (r: Outcome)
      requires Valid() && chunks > 0
      modifies this
      ensures Valid() && Grows(old(S()), S())
      ensures old(row).Some? && old(row).value.payload == payload && old(row).value.phase == Verified ==>
        r == Shown(old(row).value) && S() == old(S())
      // each refusal has its one reason
      ensures old(row).Some? && old(row).value.payload != payload ==> r == Refused("idempotency-conflict") && S() == old(S())
      ensures old(row).Some? && old(row).value.payload == payload && old(row).value.phase != Verified && !resume ==>
        r == Refused("state-conflict") && S() == old(S())
      ensures old(row).None? && (resume || !room) ==> r == Refused("storage-insufficient") && S() == old(S())
      // anything else is opened, whatever phase a run before left it in, and only lack of space stops it there
      ensures Opens(old(row), payload, resume, room) ==>
        && row.Some? && row.value.payload == payload && (r.Refused? <==> !space) && (NeverCancelled(w) ==> !row.value.cancel)
        && (r.Refused? ==>
              && r == Refused("storage-insufficient") && file == Some(Content(old(file)))
              && row.value == Row(payload, if old(row).Some? then old(row).value.received else 0, Receiving, false))
        && (r.Shown? ==> r == Shown(row.value) && row.value.phase != Receiving) && (r.Killed? ==> w.dies.Some?)
        && (row.value.phase == Verified ==>
              |Content(file)| == payload.size && hash(Content(file)) == payload.digest && payload.size <= chunks * CHUNK)
      // with an honest server, nothing disturbed, and requests enough: verified exactly if the runs before left no wrong byte
      ensures Opens(old(row), payload, resume, room) && space && payload.size <= chunks * CHUNK
              && Honest(w, original) && Undisturbed(w) && Genuine(original, payload, hash) ==>
        r.Shown? && row.value.phase == if Content(old(file)) <= original then Verified else Unknown
      // and with whatever number of requests, progress to the end
      ensures Opens(old(row), payload, resume, room) && space && Content(old(file)) <= original
              && Honest(w, original) && Undisturbed(w) && Genuine(original, payload, hash) ==>
        && r.Shown? && Content(file) <= original
        && (if payload.size <= chunks * CHUNK
            then row.value.phase == Verified && Content(file) == original && row.value.received == payload.size
            else row.value.phase == Paused && row.value.received == chunks * CHUNK)
      // an honest server leaves no wrong byte, however the run is cut short
      ensures Honest(w, original) && |original| == payload.size && Content(old(file)) <= original ==> Content(file) <= original
    {
      RunKeeps(EMPTY, trace, hash);
      var d := OpenRecord(payload, resume, room);
      if d.Refuse? { return Refused(d.code); }
      if d.Already? { return Shown(row.value); }
      r := Proceed(payload, space, chunks, w, original);
    }

    /**
     * A download in several runs, of which each but the last may be paused, cancelled, refused for lack of space or killed at any
     * point, with any part of a block written, and may find the saved target changed: as long as the server is honest, no wrong
     * byte remains, and one more run that nothing disturbs, with requests enough for the whole file, ends it verified.
     */
    method DownloadInRuns(payload: Payload, visits: seq<Visit>, ghost original: Bytes)
      requires Valid() && row.None? && visits != []
      requires AllHonest(visits, original) && Genuine(original, payload, hash)
      modifies this
      ensures Valid() && row.Some? && row.value.payload == payload && Content(file) <= original
      ensures row.value.phase == Verified ==> Content(file) == original
      ensures var last := visits[|visits| - 1];
        last.space && Undisturbed(last.world) && payload.size <= last.chunks * CHUNK ==> row.value.phase == Verified
      // each run begins anew, so that one with too few requests for the whole file never ends it, however many there were before
      ensures (forall i {:trigger visits[i]} :: 0 <= i < |visits| ==> visits[i].chunks * CHUNK < payload.size) ==>
        row.value.phase != Verified
    {
      RunKeeps(EMPTY, trace, hash);
      for i := 0 to |visits|
        invariant Valid() && Content(file) <= original
        invariant if i == 0 then row.None? else row.Some? && row.value.payload == payload
        invariant i > 0 ==> (row.value.phase == Verified ==> Content(file) == original)
        invariant i > 0 ==>
          (visits[i - 1].space && Undisturbed(visits[i - 1].world) && payload.size <= visits[i - 1].chunks * CHUNK ==>
             row.value.phase == Verified)
        invariant i > 0 && (forall j {:trigger visits[j]} :: 0 <= j < |visits| ==> visits[j].chunks * CHUNK < payload.size) ==>
          row.value.phase != Verified
      {
        var v := visits[i];
        if v.cancelled { RecordCancel(); }
        ghost var known := row;
        var r := RunDownload(payload, row.Some?, true, v.space, v.chunks, v.world, original);
        if known.Some? && known.value.phase == Verified { assert row == known; }
      }
    }

    /** What a run does once its record is open. */
    method Proceed(payload: Payload, space: bool, chunks: nat, w: World, ghost original: Bytes) returns (r: Outcome)
      requires Coherent() && row.Some? && row.value.phase == Receiving && !row.value.cancel && row.value.payload == payload
      requires work == Some(Work(payload, [], Opened)) && chunks > 0
      modifies this
      ensures Valid() && row.Some? && row.value.payload == payload && Content(old(file)) <= Content(file)
      ensures old(file).Some? ==> file.Some?
      ensures (r.Shown? ==> r == Shown(row.value)) && (r.Killed? ==> w.dies.Some?)
      ensures r.Refused? <==> |Content(old(file))| > payload.size || !space
      ensures r.Refused? && |Content(old(file))| <= payload.size ==>
        r == Refused("storage-insufficient") && row == old(row) && file == Some(Content(old(file)))
      ensures NeverCancelled(w) ==> !row.value.cancel
      ensures row.value.phase == Verified ==> payload.size <= chunks * CHUNK
      ensures Honest(w, original) && |original| == payload.size && Content(old(file)) <= original ==> Content(file) <= original
      ensures r.Shown? ==> row.value.phase != Receiving
      ensures row.value.phase == Verified ==> Genuine(Content(file), payload, hash)
      ensures space && |Content(old(file))| <= payload.size && payload.size <= chunks * CHUNK
              && Honest(w, original) && Undisturbed(w) && Genuine(original, payload, hash) ==>
        r.Shown? && row.value.phase == if Content(old(file)) <= original then Verified else Unknown
      ensures space && Content(old(file)) <= original && Honest(w, original) && Undisturbed(w) && Genuine(original, payload, hash) ==>
        && r.Shown? && Content(file) <= original
        && (if payload.size <= chunks * CHUNK
            then row.value.phase == Verified && Content(file) == original && row.value.received == payload.size
            else row.value.phase == Paused && row.value.received == chunks * CHUNK)
    {
      var ok := OpenFile(payload, space);
      if !ok {
        return Refused(if |file.value| > payload.size then "identity-unknown" else "storage-insufficient");
      }
      var p := ReceiveAll(payload, chunks, w, original);
      r := Conclude(payload, p, w);
    }

    method Conclude(payload: Payload, p: Progress, w: World) returns (r: Outcome)
      requires Coherent() && row.Some? && row.value.phase == Receiving && file.Some? && work.Some?
      requires work.value.payload == payload && work.value.stage != Opened
      requires (p.Going? ==> work.value.stage == Ready) && (p.Complete? ==> work.value.stage == Ended(Verified))
      modifies this`row, this`work, this`trace
      ensures Valid() && row.Some? && row.value.received == old(row).value.received && !r.Refused?
      ensures row.value.payload == old(row).value.payload
      ensures p.Dead? <==> r.Killed?
      ensures r.Shown? ==> r == Shown(row.value) && row.value.phase != Receiving
      ensures row.value.phase == Verified ==> Genuine(file.value, payload, hash) && p.Complete?
      ensures row.value.cancel == old(row).value.cancel
      ensures p.Going? && !w.moved ==> row.value.phase == Paused
      ensures p.Complete? && !w.moved ==> row.value.phase == Verified
      ensures p.Failed? ==> row.value.phase == if old(row).value.cancel then Paused else Unknown
    {
      if p.Dead? {
        Die();
        return Killed;
      }
      RunKeeps(EMPTY, trace, hash);
      var phase;
      if p.Failed? || w.moved {
        phase := if row.value.cancel then Paused else Unknown;
        GiveUp(Fail);
      } else if p.Going? {
        phase := Paused;
        GiveUp(Pause);
      } else {
        phase := Verified;
      }
      CloseRecord(phase);
      return Shown(row.value);
    }
  }

  /** The k-th reply is accepted in this state. */
  ghost predicate TakesReply(s: State, payload: Payload, k: nat, w: World)
    requires s.work.Some? && s.file.Some? && s.row.Some?
  {
    var reply := w.reply(k, |s.work.value.served|);
    && !w.cancelled(k) && !s.row.value.cancel && reply.Reply? && reply.bound
    && Acceptable(s.file.value, s.work.value.served, payload.size, reply.block, reply.eof)
  }

  /** A run that nothing disturbs, with an honest server of the original. */
  ghost predicate Untroubled(s: State, payload: Payload, w: World, original: Bytes, hash: Hash) {
    && Honest(w, original) && Undisturbed(w) && Genuine(original, payload, hash)
    && s.row.Some? && !s.row.value.cancel
  }

  /** The same, and the local file is the beginning of the original. */
  ghost predicate Fair(s: State, payload: Payload, w: World, original: Bytes, hash: Hash) {
    Untroubled(s, payload, w, original, hash) && Content(s.file) <= original
  }

  /** The next chunk of the original continues a local file that is the beginning of it. */
  lemma HonestChunk(original: Bytes, file: Bytes, served: Bytes, at: nat)
    requires file <= original && at <= |original| && served == original[..at] && served <= file
    ensures var block, eof := original[at..Min(at + CHUNK, |original|)], at + CHUNK >= |original|;
      && Acceptable(file, served, |original|, block, eof)
      && served + block == original[..Min(at + CHUNK, |original|)]
      && file + Missing(file, served, block) <= original
      && (eof ==> file + Missing(file, served, block) == original)
  {
    var end := Min(at + CHUNK, |original|);
    var block := original[at..end];
    var have := Existing(file, at, |block|);
    assert file == original[..|file|];
    if at + |block| >= |file| {
      assert have == original[at..|file|] && block[|have|..] == original[|file|..end];
      assert file + block[|have|..] == original[..end];
    } else {
      assert have == block && Missing(file, served, block) == [];
      assert file + [] == file;
    }
  }

  /** What a turn makes of an honest reply, however much of it is written. */
  lemma HonestReply(w: World, k: nat, original: Bytes, file: Bytes, served: Bytes, count: nat)
    requires Honest(w, original) && served <= file && |served| <= |original|
    ensures var reply := w.reply(k, |served|);
      && reply.Reply? && reply.bound && |served| + |reply.block| == Min(|served| + CHUNK, |original|)
      && (reply.eof <==> |served| + CHUNK >= |original|)
      && (served <= original ==> served + reply.block <= original)
      && (file <= original ==>
            var missing := Missing(file, served, reply.block);
            && Acceptable(file, served, |original|, reply.block, reply.eof)
            && file + missing <= original && file + missing[..Min(count, |missing|)] <= original
            && (reply.eof ==> file + missing == original))
  {
    var at := |served|;
    var end := Min(at + CHUNK, |original|);
    var reply := w.reply(k, at);
    assert reply == Reply(true, original[at..end], at + CHUNK >= |original|);
    if served <= original {
      assert original[..at] + original[at..end] == original[..end];
    }
    if file <= original {
      HonestChunk(original, file, served, at);
      var missing := Missing(file, served, reply.block);
      assert file + missing[..Min(count, |missing|)] <= file + missing;
    }
  }

  lemma AllWritten(file: Bytes, served: Bytes, size: nat, block: Bytes, eof: bool)
    requires served <= file && |file| <= size && Acceptable(file, served, size, block, eof)
    ensures Missing(file + Missing(file, served, block), served, block) == []
  {
    var have := Existing(file, |served|, |block|);
    if Missing(file, served, block) == [] {
      assert file + Missing(file, served, block) == file;
    } else {
      assert file == served + have;
      assert file + Missing(file, served, block) == served + block;
      assert Existing(served + block, |served|, |block|) == block;
    }
  }
}
