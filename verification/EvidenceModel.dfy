/**
 * The download of one sealed evidence file into a local file that only ever grows: chunk by chunk from the beginning, comparing
 * what is already there and appending what is not, across pauses, cancellations, crashes and any number of runs.
 */
module EvidenceModel {
  import opened Basics

  type Bytes = seq<byte>

  const CHUNK := 32768

  /** What is to be downloaded; `name` stands for the target, the instance, the export and the file. */
  datatype Payload = Payload(name: string, size: nat, digest: string)

  datatype Phase = Receiving | Paused | Unknown | Verified
  datatype Row = Row(payload: Payload, received: nat, phase: Phase, cancel: bool)

  /** `served` is what this run has taken from the server. */
  datatype Work = Work(payload: Payload, served: Bytes, stage: Stage)

  datatype Stage =
    | Opened
    | Ready
    | Writing(block: Bytes, eof: bool)
    | Written(eof: bool)
    | Checking
    | Ended(phase: Phase)

  /** The record, the file, and the run that holds the lock. `checks` has the contents that passed the final check. */
  datatype State = State(row: Option<Row>, file: Option<Bytes>, work: Option<Work>, checks: seq<Bytes>)

  const EMPTY := State(None, None, None, [])

  /** A digest of file contents; nothing is assumed about it. */
  type Hash = Bytes -> string

  datatype Act =
    | Open(payload: Payload, resume: bool, room: bool)
    | Prepare(space: bool)
    | Take(block: Bytes, eof: bool)
    | Write(count: nat)
    | Flush
    | Note
    | Check
    | Pause
    | Fail
    | Close
    | Cancel
    | Crash

  datatype Decision = Refuse(code: string) | Already | Go(row: Row)

  /** The first transaction of a run. `room` says that another record may be added. */
  function Decide(row: Option<Row>, payload: Payload, resume: bool, room: bool): Decision {
    match row
    case Some(known) =>
      if known.payload != payload then Refuse("idempotency-conflict")
      else if known.phase == Verified then Already
      else if !resume then Refuse("state-conflict")
      else Go(known.(cancel := false, phase := Receiving))
    case None =>
      if resume || !room then Refuse("storage-insufficient") else Go(Row(payload, 0, Receiving, false))
  }

  function Content(file: Option<Bytes>): Bytes {
    match file case None => [] case Some(b) => b
  }

  /** What the file has where the block belongs. */
  function Existing(file: Bytes, at: nat, count: nat): Bytes {
    if at >= |file| then [] else if at + count >= |file| then file[at..] else file[at..at + count]
  }

  /** What is asked of a reply: its shape, that it stays within the size, that its end is announced exactly there, and that it
      continues as the file does. */
  predicate Acceptable(file: Bytes, served: Bytes, size: nat, block: Bytes, eof: bool) {
    && |block| <= CHUNK && |served| + |block| <= size && (block != [] || eof) && (eof <==> |served| + |block| == size)
    && Existing(file, |served|, |block|) <= block
  }

  /** How much of the block the file has by now. */
  function Missing(file: Bytes, served: Bytes, block: Bytes): Bytes {
    var have := |Existing(file, |served|, |block|)|;
    if have <= |block| then block[have..] else []
  }

  predicate Busy(s: State) {
    s.work.Some? && s.row.Some?
  }

  predicate Enabled(s: State, a: Act, hash: Hash) {
    match a
    case Open(_, _, _) => s.work.None?
    case Prepare(_) => Busy(s) && s.work.value.stage == Opened
    case Take(block, eof) =>
      && Busy(s) && s.work.value.stage == Ready && !s.row.value.cancel
      && Acceptable(Content(s.file), s.work.value.served, s.work.value.payload.size, block, eof)
    case Write(count) =>
      && Busy(s) && s.work.value.stage.Writing? && s.file.Some?
      && count <= |Missing(s.file.value, s.work.value.served, s.work.value.stage.block)|
    case Flush =>
      && Busy(s) && s.work.value.stage.Writing? && s.file.Some?
      && Missing(s.file.value, s.work.value.served, s.work.value.stage.block) == []
    case Note => Busy(s) && s.work.value.stage.Written?
    case Check =>
      && Busy(s) && s.work.value.stage == Checking && s.file.Some?
      && |s.file.value| == s.work.value.payload.size && hash(s.file.value) == s.work.value.payload.digest
    case Pause => Busy(s) && s.work.value.stage == Ready
    case Fail => Busy(s) && s.work.value.stage != Opened
    case Close => Busy(s) && s.work.value.stage.Ended?
    case Cancel => s.row.Some? && s.row.value.phase != Verified
    case Crash => s.work.Some?
  }

  function Staged(s: State, stage: Stage): State
    requires s.work.Some?
  {
    s.(work := Some(s.work.value.(stage := stage)))
  }

  function AfterOpen(s: State, payload: Payload, resume: bool, room: bool): State {
    match Decide(s.row, payload, resume, room)
    case Go(row) => s.(row := Some(row), work := Some(Work(payload, [], Opened)))
    case _ => s
  }

  /** A missing file is created; a run that cannot go on leaves its record as it is. */
  function AfterPrepare(s: State, space: bool): State
    requires s.work.Some?
  {
    var t := s.(file := Some(Content(s.file)));
    if |Content(s.file)| <= s.work.value.payload.size && space then Staged(t, Ready) else t.(work := None)
  }

  function AfterFlush(s: State): State
    requires s.work.Some? && s.work.value.stage.Writing?
  {
    var w := s.work.value;
    s.(work := Some(w.(served := w.served + w.stage.block, stage := Written(w.stage.eof))))
  }

  function Next(s: State, a: Act, hash: Hash): State
    requires Enabled(s, a, hash)
  {
    match a
    case Open(payload, resume, room) => AfterOpen(s, payload, resume, room)
    case Prepare(space) => AfterPrepare(s, space)
    case Take(block, eof) => Staged(s, Writing(block, eof))
    case Write(count) =>
      s.(file := Some(s.file.value + Missing(s.file.value, s.work.value.served, s.work.value.stage.block)[..count]))
    case Flush => AfterFlush(s)
    case Note =>
      Staged(s, if s.work.value.stage.eof then Checking else Ready)
        .(row := Some(s.row.value.(received := |s.work.value.served|)))
    case Check => Staged(s, Ended(Verified)).(checks := s.checks + [s.file.value])
    case Pause => Staged(s, Ended(Paused))
    case Fail => Staged(s, Ended(if s.row.value.cancel then Paused else Unknown))
    case Close => s.(row := Some(s.row.value.(phase := s.work.value.stage.phase)), work := None)
    case Cancel => s.(row := Some(s.row.value.(cancel := true)))
    case Crash => s.(work := None)
  }

  ghost function Run(s: State, acts: seq<Act>, hash: Hash): Option<State>
    decreases |acts|
  {
    if acts == [] then Some(s)
    else
      match Run(s, acts[..|acts| - 1], hash)
      case None => None
      case Some(m) => if Enabled(m, acts[|acts| - 1], hash) then Some(Next(m, acts[|acts| - 1], hash)) else None
  }

  lemma RunStep(s: State, acts: seq<Act>, hash: Hash, m: State, a: Act)
    requires Run(s, acts, hash) == Some(m) && Enabled(m, a, hash)
    ensures Run(s, acts + [a], hash) == Some(Next(m, a, hash))
  {
    assert (acts + [a])[..|acts|] == acts;
  }

  // ---------------------------------------------------------------- the invariant

  /** The file checked: the exact size and digest. */
  predicate Genuine(file: Bytes, payload: Payload, hash: Hash) {
    |file| == payload.size && hash(file) == payload.digest
  }

  ghost predicate RowSound(row: Row, file: Bytes, checks: seq<Bytes>, hash: Hash) {
    && row.received <= |file| <= row.payload.size
    && (row.phase == Verified ==> Genuine(file, row.payload, hash) && file in checks)
  }

  /** The beginning of the file is what this run was served; the file never outgrows the size. */
  ghost predicate WorkSound(w: Work, row: Row, file: Option<Bytes>, checks: seq<Bytes>, hash: Hash) {
    && w.payload == row.payload && row.phase == Receiving
    && w.served <= Content(file)
    && (w.stage == Opened ==> w.served == [])
    && (w.stage != Opened ==> file.Some? && |file.value| <= w.payload.size)
    && (w.stage.Writing? ==> Acceptable(file.value, w.served, w.payload.size, w.stage.block, w.stage.eof))
    && (w.stage.Written? ==> (w.stage.eof <==> |w.served| == w.payload.size))
    && (w.stage == Checking ==> file.value == w.served)
    && (w.stage.Ended? ==> w.stage.phase != Receiving)
    && (w.stage == Ended(Verified) ==> Genuine(file.value, w.payload, hash) && file.value in checks && file.value == w.served)
  }

  ghost predicate Inv(s: State, hash: Hash) {
    && (s.row.None? ==> s.file.None? && s.work.None?)
    && (s.row.Some? ==> RowSound(s.row.value, Content(s.file), s.checks, hash))
    && (s.work.Some? ==> s.row.Some? && WorkSound(s.work.value, s.row.value, s.file, s.checks, hash))
  }

  /** The file only grows; the record keeps what it is about, and a verified one is never touched again, nor is its file. */
  ghost predicate Grows(s: State, t: State) {
    && (s.file.Some? ==> t.file.Some? && s.file.value <= t.file.value)
    && (s.row.Some? ==> t.row.Some? && t.row.value.payload == s.row.value.payload)
    && (s.row.Some? && s.row.value.phase == Verified ==> t.row == s.row && t.file == s.file)
  }
}

/** What every run keeps. */
module EvidenceLaws {
  import opened Basics
  import opened EvidenceModel

  /** Writing some of what is missing makes the file longer and the block no less acceptable. */
  lemma WriteContinues(file: Bytes, served: Bytes, size: nat, block: Bytes, eof: bool, count: nat)
    requires served <= file && |file| <= size && Acceptable(file, served, size, block, eof)
    requires count <= |Missing(file, served, block)|
    ensures var more := file + Missing(file, served, block)[..count];
            && file <= more && served <= more && |more| <= size && Acceptable(more, served, size, block, eof)
  {
    var have := Existing(file, |served|, |block|);
    var more := file + Missing(file, served, block)[..count];
    if count > 0 {
      assert file == served + have;
      assert more == served + (have + block[|have|..][..count]);
      assert have + block[|have|..][..count] == block[..|have| + count];
      assert Existing(more, |served|, |block|) == block[..|have| + count];
    } else {
      assert more == file;
    }
  }

  /** With nothing missing, the file begins with what was served and the block. */
  lemma NothingMissing(file: Bytes, served: Bytes, size: nat, block: Bytes, eof: bool)
    requires served <= file && Acceptable(file, served, size, block, eof) && Missing(file, served, block) == []
    ensures served + block <= file
  {
    var have := Existing(file, |served|, |block|);
    assert have == block;
    assert file[..|served|] == served;
    assert file[|served|..|served| + |block|] == block;
    assert file[..|served| + |block|] == file[..|served|] + file[|served|..|served| + |block|];
  }

  lemma WriteKeeps(s: State, count: nat, hash: Hash)
    requires Inv(s, hash) && Enabled(s, Write(count), hash)
    ensures Inv(Next(s, Write(count), hash), hash) && Grows(s, Next(s, Write(count), hash))
  {
    var w := s.work.value;
    WriteContinues(s.file.value, w.served, w.payload.size, w.stage.block, w.stage.eof, count);
  }

  lemma FlushKeeps(s: State, hash: Hash)
    requires Inv(s, hash) && Enabled(s, Flush, hash)
    ensures Inv(Next(s, Flush, hash), hash) && Grows(s, Next(s, Flush, hash))
  {
    var w := s.work.value;
    NothingMissing(s.file.value, w.served, w.payload.size, w.stage.block, w.stage.eof);
  }

  lemma EntryKeeps(s: State, a: Act, hash: Hash)
    requires a.Open? || a.Prepare? || a.Cancel? || a.Close?
    requires Inv(s, hash) && Enabled(s, a, hash)
    ensures Inv(Next(s, a, hash), hash) && Grows(s, Next(s, a, hash))
  {
  }

  lemma NextKeeps(s: State, a: Act, hash: Hash)
    requires Inv(s, hash) && Enabled(s, a, hash)
    ensures Inv(Next(s, a, hash), hash) && Grows(s, Next(s, a, hash))
  {
    if a.Write? {
      WriteKeeps(s, a.count, hash);
    } else if a.Flush? {
      FlushKeeps(s, hash);
    } else if a.Open? || a.Prepare? || a.Cancel? || a.Close? {
      EntryKeeps(s, a, hash);
    }
  }

  lemma {:induction false} RunKeeps(s: State, acts: seq<Act>, hash: Hash)
    requires Inv(s, hash) && Run(s, acts, hash).Some?
    ensures Inv(Run(s, acts, hash).value, hash) && Grows(s, Run(s, acts, hash).value)
    decreases |acts|
  {
    if acts != [] {
      var front := acts[..|acts| - 1];
      RunKeeps(s, front, hash);
      NextKeeps(Run(s, front, hash).value, acts[|acts| - 1], hash);
    }
  }

  /** In every reachable state the recorded count is no more than the file has, and a verified record is of a file that was
      checked as it is: exact size, exact digest. */
  lemma VerifiedIsChecked(acts: seq<Act>, hash: Hash)
    requires Run(EMPTY, acts, hash).Some? && Run(EMPTY, acts, hash).value.row.Some?
    ensures var s := Run(EMPTY, acts, hash).value;
            var row, file := s.row.value, Content(s.file);
      && row.received <= |file|
      && (row.phase == Verified ==> |file| == row.payload.size && hash(file) == row.payload.digest && file in s.checks)
  {
    RunKeeps(EMPTY, acts, hash);
  }

  /** While a run is at work, the beginning of the file is exactly what that run was served, and the file is never longer than
      it may be; when the run is about to conclude that the file is genuine, all of it is what was served. */
  lemma FileIsWhatWasServed(acts: seq<Act>, hash: Hash)
    requires Run(EMPTY, acts, hash).Some? && Run(EMPTY, acts, hash).value.work.Some?
    ensures var s := Run(EMPTY, acts, hash).value;
            var w := s.work.value;
      && w.served <= Content(s.file)
      && (w.stage != Opened ==> |Content(s.file)| <= w.payload.size)
      && (w.stage == Checking || w.stage == Ended(Verified) ==> Content(s.file) == w.served)
  {
    RunKeeps(EMPTY, acts, hash);
  }

  /** Whatever happens later, the file keeps what it has, and a verified download is final. */
  lemma FileOnlyGrows(before: seq<Act>, after: seq<Act>, hash: Hash)
    requires Run(EMPTY, before, hash).Some? && Run(Run(EMPTY, before, hash).value, after, hash).Some?
    ensures Grows(Run(EMPTY, before, hash).value, Run(Run(EMPTY, before, hash).value, after, hash).value)
  {
    RunKeeps(EMPTY, before, hash);
    RunKeeps(Run(EMPTY, before, hash).value, after, hash);
  }

  // ---------------------------------------------------------------- wrong bytes

  /** Wrong bytes, served once, are in the file: the digest is refused, and the file keeps them. */
  lemma WrongBytesStay(name: string, original: Bytes, wrong: Bytes, hash: Hash) returns (acts: seq<Act>, t: State)
    requires 0 < |wrong| == |original| <= CHUNK && hash(wrong) != hash(original)
    ensures Run(EMPTY, acts, hash) == Some(t) && t.work.None? && t.file == Some(wrong)
    ensures t.row == Some(Row(Payload(name, |original|, hash(original)), |wrong|, Unknown, false))
  {
    var payload := Payload(name, |original|, hash(original));
    var s1 := EMPTY.(row := Some(Row(payload, 0, Receiving, false)), work := Some(Work(payload, [], Opened)));
    var s2 := s1.(file := Some([]), work := Some(Work(payload, [], Ready)));
    var s3 := s2.(work := Some(Work(payload, [], Writing(wrong, true))));
    var s4 := s3.(file := Some(wrong));
    var s5 := s4.(work := Some(Work(payload, wrong, Written(true))));
    var s6 := s5.(row := Some(Row(payload, |wrong|, Receiving, false)), work := Some(Work(payload, wrong, Checking)));
    var s7 := s6.(work := Some(Work(payload, wrong, Ended(Unknown))));
    t := s7.(row := Some(Row(payload, |wrong|, Unknown, false)), work := None);
    assert Missing([], [], wrong) == wrong && [] + wrong[..|wrong|] == wrong;
    assert Missing(wrong, [], wrong) == [] && [] + wrong == wrong;
    acts := [];
    acts := Extend(acts, EMPTY, Open(payload, false, true), s1, hash);
    acts := Extend(acts, s1, Prepare(true), s2, hash);
    acts := Extend(acts, s2, Take(wrong, true), s3, hash);
    acts := Extend(acts, s3, Write(|wrong|), s4, hash);
    acts := Extend(acts, s4, Flush, s5, hash);
    acts := Extend(acts, s5, Note, s6, hash);
    acts := Extend(acts, s6, Fail, s7, hash);
    acts := Extend(acts, s7, Close, t, hash);
  }

  lemma Extend(acts: seq<Act>, m: State, a: Act, t: State, hash: Hash) returns (more: seq<Act>)
    requires Run(EMPTY, acts, hash) == Some(m) && Enabled(m, a, hash) && Next(m, a, hash) == t
    ensures Run(EMPTY, more, hash) == Some(t)
  {
    RunStep(EMPTY, acts, hash, m, a);
    more := acts + [a];
  }

  /** A file that is not the beginning of the original never becomes it: if it is ever verified, it is another file of the same
      size and digest. */
  lemma WrongFileIsForever(before: seq<Act>, after: seq<Act>, hash: Hash, original: Bytes)
    requires Run(EMPTY, before, hash).Some? && Run(Run(EMPTY, before, hash).value, after, hash).Some?
    requires !(Content(Run(EMPTY, before, hash).value.file) <= original)
    ensures var t := Run(Run(EMPTY, before, hash).value, after, hash).value;
      && !(Content(t.file) <= original)
      && (t.row.Some? && t.row.value.phase == Verified ==>
            && |Content(t.file)| == t.row.value.payload.size && hash(Content(t.file)) == t.row.value.payload.digest
            && Content(t.file) != original)
  {
    var s := Run(EMPTY, before, hash).value;
    RunKeeps(EMPTY, before, hash);
    RunKeeps(s, after, hash);
  }
}
