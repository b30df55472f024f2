/**
 * The durable state of the content cache and every step that can change it.
 *
 * The database is changed inside one exclusive transaction (`txn`) and takes effect only when it
 * commits; files and receipts take effect at once. A crash, or any exception, drops the
 * transaction and keeps the rest.
 */
module CacheModel {
  import opened Basics
  import opened MapSum

  /** A SHA-256 name: 64 hexadecimal digits read as a number, so sorted names are sorted numbers. */
  type Sha = nat
  type Op = string

  datatype Path = Object(sha: Sha) | Partial(sha: Sha) | Quarantine(sha: Sha, actual: Sha) | Staged(id: string)

  /** `stamp` is the file's identity and time stamps: no two files, past or present, share one. */
  datatype File = File(size: nat, digest: Sha, stamp: nat)
  type Files = map<Path, File>

  /** What a collection plan records of one object. */
  datatype Item = Item(sha: Sha, size: nat, stamp: nat, digest: Sha)

  function Snapshot(sha: Sha, f: File): Item {
    Item(sha, f.size, f.stamp, f.digest)
  }

  datatype UploadPhase = Uploading | Complete | Corrupt
  datatype Upload = Upload(sha: Sha, size: nat, received: nat, phase: UploadPhase)

  datatype Db = Db(refs: set<(string, Sha)>, budget: Option<nat>, uploads: map<string, Upload>)

  datatype Outcome = Removed | Preserved
  datatype Stage = Ready | Tried | Checked | Settled(outcome: Outcome)

  /** An unlink that took effect: for which operation, what was planned, and the file that went. */
  datatype Removal = Removal(op: Op, item: Item, taken: File)

  /** What the holder of the exclusive transaction is doing. */
  datatype Work =
    | Fresh
    | Done
    | Sweeping(op: Op, plan: seq<Item>, index: nat, stage: Stage)
    | Fetching(sha: Sha, size: nat, open: bool)
    | Chunking(id: string)
    | Published(id: string)

  datatype Txn = Txn(db: Db, work: Work)

  datatype State = State(
    db: Db,
    txn: Option<Txn>,
    files: Files,
    intents: map<Op, seq<Item>>,
    attempts: map<(Op, Sha), Item>,
    results: map<(Op, Sha), Outcome>,
    nextStamp: nat,
    unlinked: seq<Removal>)   // history

  const MAX_OBJECTS := 20000
  const MAX_JOBS := 256
  const MAX_BYTES := 0x100_0000_0000   // 1024**4

  const EMPTY := State(Db({}, None, map[]), None, map[], map[], map[], map[], 0, [])

  datatype SessionAct = Lock | Commit | Crash

  datatype RegisterAct = Pin(owner: string, sha: Sha) | Unpin(owner: string, sha: Sha) | SetBudget(maximum: nat)

  datatype CollectAct =
    | Plan(op: Op, items: seq<Item>)
    | Replan(op: Op)
    | Skip
    | Attempt
    | Recheck
    | Unlink(ok: bool)
    | Settle

  datatype FetchAct =
    | Fetch(sha: Sha, size: nat)
    | Open
    | Write(count: nat, digest: Sha)
    | Promote
    | Isolate

  datatype UploadAct =
    | Begin(id: string, sha: Sha, size: nat)
    | Store(id: string, count: nat, digest: Sha)
    | Record(id: string)
    | Refuse(id: string)
    | Reference(id: string)
    | Publish(id: string)
    | Finish(id: string)

  /** Steps of programs that ignore the lock; the quota and the references promise nothing about them. */
  datatype OutsideAct = Replace(path: Path, size: nat, digest: Sha) | Remove(path: Path)

  datatype Act =
    | Session(session: SessionAct)
    | Register(register: RegisterAct)
    | Collect(collect: CollectAct)
    | Download(fetch: FetchAct)
    | Transfer(upload: UploadAct)
    | Outside(outside: OutsideAct)

  predicate Managed(a: Act) {
    !a.Outside?
  }

  // ---------------------------------------------------------------- references

  const INSTANCE := "instance-"
  const UPLOAD := "remote-upload-"

  predicate InstanceOwner(owner: string) {
    HasPrefix(INSTANCE, owner)
  }

  predicate Identifier(s: string) {
    && 1 <= |s| <= 96
    && AlphaNumeric(s[0])
    && forall i :: 0 <= i < |s| ==> AlphaNumeric(s[i]) || s[i] in ['.', '_', '-']
  }

  predicate AlphaNumeric(c: char) {
    'a' <= c <= 'z' || 'A' <= c <= 'Z' || '0' <= c <= '9'
  }

  predicate Referenced(refs: set<(string, Sha)>, sha: Sha) {
    exists r :: r in refs && r.1 == sha
  }

  // ---------------------------------------------------------------- the byte budget

  function FileSizes(files: Files): map<Path, nat> {
    map p | p in files :: files[p].size
  }

  /** The bytes an upload may still claim; one whose staged file is gone claims `absent` bytes. */
  function Claim(id: string, row: Upload, files: Files, absent: nat): nat {
    if row.phase != Uploading then 0
    else if Staged(id) !in files then absent
    else if files[Staged(id)].size <= row.size then row.size - files[Staged(id)].size
    else 0
  }

  /** `strict` reserves the full size of an upload whose staged file is gone. */
  function Claims(uploads: map<string, Upload>, files: Files, strict: bool): map<string, nat> {
    map id | id in uploads :: Claim(id, uploads[id], files, if strict then uploads[id].size else 0)
  }

  ghost function Charge(db: Db, files: Files, strict: bool): nat {
    Total(FileSizes(files)) + Total(Claims(db.uploads, files, strict))
  }

  /** Payload plus reservations: what the cache counts against its budget. */
  ghost function Committed(db: Db, files: Files): nat {
    Charge(db, files, true)
  }

  /** The accounting refuses a staged file that is shorter than recorded or longer than declared. */
  predicate Countable(db: Db, files: Files) {
    forall id :: id in db.uploads && db.uploads[id].phase == Uploading && Staged(id) in files
      ==> db.uploads[id].received <= files[Staged(id)].size <= db.uploads[id].size
  }

  ghost predicate Admits(db: Db, files: Files, additional: nat) {
    db.budget.Some? ==> Countable(db, files) && Committed(db, files) + additional <= db.budget.value
  }

  // ---------------------------------------------------------------- collection plans

  function Objects(files: Files): set<Sha> {
    set p | p in files && p.Object? :: p.sha
  }

  ghost predicate Ascending(items: seq<Item>) {
    forall i, j :: 0 <= i < j < |items| ==> items[i].sha < items[j].sha
  }

  /** A plan lists, in order of name, a snapshot of every object nobody references, and nothing else. */
  ghost predicate IsPlan(items: seq<Item>, db: Db, files: Files) {
    && Ascending(items)
    && (forall x :: x in items ==>
          Object(x.sha) in files && !Referenced(db.refs, x.sha) && x == Snapshot(x.sha, files[Object(x.sha)]))
    && (forall sha :: Object(sha) in files && !Referenced(db.refs, sha) ==> Snapshot(sha, files[Object(sha)]) in items)
  }

  /** What a scan can have recorded that other programs disturbed: of each unreferenced object, some file it once was. */
  ghost predicate WasScanned(items: seq<Item>, db: Db, nextStamp: nat) {
    Ascending(items) && forall x :: x in items ==> !Referenced(db.refs, x.sha) && x.stamp < nextStamp
  }

  predicate Intact(item: Item, files: Files) {
    Object(item.sha) in files && Snapshot(item.sha, files[Object(item.sha)]) == item
  }

  datatype Phase = Unattempted | Unknown | Settled_(outcome: Outcome)

  function PhaseOf(s: State, op: Op, sha: Sha): Phase {
    if (op, sha) in s.results then Settled_(s.results[(op, sha)])
    else if (op, sha) in s.attempts then Unknown
    else Unattempted
  }

  predicate Eligible(s: State, db: Db, op: Op, item: Item) {
    PhaseOf(s, op, item.sha) == Unattempted && Intact(item, s.files) && !Referenced(db.refs, item.sha)
  }

  /** Every row not yet attempted is still exactly as planned, and there is one. */
  predicate Resumable(s: State, db: Db, op: Op)
    requires op in s.intents
  {
    && (exists x :: x in s.intents[op] && PhaseOf(s, op, x.sha) == Unattempted)
    && (forall x :: x in s.intents[op] && PhaseOf(s, op, x.sha) == Unattempted ==> Eligible(s, db, op, x))
  }

  predicate Finished(s: State, op: Op)
    requires op in s.intents
  {
    forall x :: x in s.intents[op] ==> PhaseOf(s, op, x.sha).Settled_?
  }

  /** No intent and no receipt, however old, carries this operation id. */
  predicate NewOperation(s: State, op: Op) {
    && op !in s.intents
    && (forall k :: k in s.attempts ==> k.0 != op)
    && (forall k :: k in s.results ==> k.0 != op)
  }

  // ---------------------------------------------------------------- steps

  predicate Busy(s: State, work: Work) {
    s.txn.Some? && s.txn.value.work == work
  }

  predicate SweepingAt(s: State, stage: Stage) {
    && s.txn.Some? && s.txn.value.work.Sweeping?
    && var w := s.txn.value.work; w.stage == stage && w.index < |w.plan|
  }

  function Current(s: State): Item
    requires s.txn.Some? && s.txn.value.work.Sweeping? && s.txn.value.work.index < |s.txn.value.work.plan|
  {
    s.txn.value.work.plan[s.txn.value.work.index]
  }

  /** The unlink takes whatever file has the name by then. */
  function Taken(s: State): Removal
    requires s.txn.Some? && s.txn.value.work.Sweeping? && s.txn.value.work.index < |s.txn.value.work.plan|
    requires Object(Current(s).sha) in s.files
  {
    Removal(s.txn.value.work.op, Current(s), s.files[Object(Current(s).sha)])
  }

  predicate UploadReady(s: State, id: string) {
    && s.txn.Some? && id in s.txn.value.db.uploads
    && var row := s.txn.value.db.uploads[id]; row.phase == Uploading && row.received == row.size
  }

  predicate Holds(files: Files, p: Path, size: nat, digest: Sha) {
    p in files && files[p].size == size && files[p].digest == digest
  }

  function PartSize(files: Files, sha: Sha): nat {
    if Partial(sha) in files then files[Partial(sha)].size else 0
  }

  function Move(files: Files, source: Path, target: Path): Files
    requires source in files
  {
    (files - {source})[target := files[source]]
  }

  function WithDb(s: State, db: Db): State
    requires s.txn.Some?
  {
    s.(txn := Some(Txn(db, Done)))
  }

  function WithWork(s: State, work: Work): State
    requires s.txn.Some?
  {
    s.(txn := Some(s.txn.value.(work := work)))
  }

  ghost predicate Enabled(s: State, a: Act) {
    match a
    case Session(x) => CanSession(s, x)
    case Register(x) => CanRegister(s, x)
    case Collect(x) => CanCollect(s, x)
    case Download(x) => CanFetch(s, x)
    case Transfer(x) => CanUpload(s, x)
    case Outside(x) => x.Replace? || x.path in s.files
  }

  ghost function Next(s: State, a: Act): State
    requires Enabled(s, a)
  {
    match a
    case Session(x) => DoSession(s, x)
    case Register(x) => DoRegister(s, x)
    case Collect(x) => DoCollect(s, x)
    case Download(x) => DoFetch(s, x)
    case Transfer(x) => DoUpload(s, x)
    case Outside(x) => DoOutside(s, x)
  }

  ghost predicate CanSession(s: State, a: SessionAct) {
    match a
    case Lock => s.txn.None?
    case Commit =>
      s.txn.Some? && (s.txn.value.work in {Fresh, Done}
                      || (s.txn.value.work.Sweeping? && s.txn.value.work.stage == Ready
                          && s.txn.value.work.index == |s.txn.value.work.plan|))
    case Crash => true
  }

  function DoSession(s: State, a: SessionAct): State
    requires CanSession(s, a)
  {
    match a
    case Lock => s.(txn := Some(Txn(s.db, Fresh)))
    case Commit => s.(db := s.txn.value.db, txn := None)
    case Crash => s.(txn := None)
  }

  ghost predicate CanRegister(s: State, a: RegisterAct) {
    match a
    case Pin(owner, sha) =>
      Busy(s, Fresh) && Identifier(owner) && Object(sha) in s.files && s.files[Object(sha)].digest == sha
    case Unpin(owner, sha) => Busy(s, Fresh) && Identifier(owner) && !InstanceOwner(owner)
    case SetBudget(maximum) =>
      && Busy(s, Fresh) && 1 <= maximum <= MAX_BYTES
      && Countable(s.txn.value.db, s.files) && Committed(s.txn.value.db, s.files) <= maximum
  }

  function DoRegister(s: State, a: RegisterAct): State
    requires CanRegister(s, a)
  {
    match a
    case Pin(owner, sha) => WithDb(s, s.txn.value.db.(refs := s.txn.value.db.refs + {(owner, sha)}))
    case Unpin(owner, sha) => WithDb(s, s.txn.value.db.(refs := s.txn.value.db.refs - {(owner, sha)}))
    case SetBudget(maximum) => WithDb(s, s.txn.value.db.(budget := Some(maximum)))
  }

  ghost predicate CanCollect(s: State, a: CollectAct) {
    match a
    case Plan(op, items) =>
      && Busy(s, Fresh) && WasScanned(items, s.txn.value.db, s.nextStamp) && NewOperation(s, op)
      && |s.txn.value.db.refs| <= MAX_OBJECTS && |items| <= MAX_OBJECTS && |s.intents| < MAX_JOBS
    case Replan(op) => Busy(s, Fresh) && op in s.intents && Resumable(s, s.txn.value.db, op)
    case Skip =>
      SweepingAt(s, Ready) && (s.txn.value.work.op, Current(s).sha) in s.attempts
    case Attempt =>
      && SweepingAt(s, Ready)
      && (s.txn.value.work.op, Current(s).sha) !in s.attempts && (s.txn.value.work.op, Current(s).sha) !in s.results
      && Intact(Current(s), s.files) && !Referenced(s.txn.value.db.refs, Current(s).sha)
    case Recheck => SweepingAt(s, Tried) && Intact(Current(s), s.files)
    case Unlink(ok) => SweepingAt(s, Checked) && (ok ==> Object(Current(s).sha) in s.files)
    case Settle =>
      && s.txn.Some? && s.txn.value.work.Sweeping? && s.txn.value.work.stage.Settled?
      && s.txn.value.work.index < |s.txn.value.work.plan|
  }

  function DoCollect(s: State, a: CollectAct): State
    requires CanCollect(s, a)
  {
    match a
    case Plan(op, items) => WithWork(s, Sweeping(op, items, 0, Ready)).(intents := s.intents[op := items])
    case Replan(op) => WithWork(s, Sweeping(op, s.intents[op], 0, Ready))
    case Skip => WithWork(s, s.txn.value.work.(index := s.txn.value.work.index + 1))
    case Attempt =>
      WithWork(s, s.txn.value.work.(stage := Tried))
        .(attempts := s.attempts[(s.txn.value.work.op, Current(s).sha) := Current(s)])
    case Recheck => WithWork(s, s.txn.value.work.(stage := Checked))
    case Unlink(ok) =>
      if ok then
        WithWork(s, s.txn.value.work.(stage := Settled(Removed)))
          .(files := s.files - {Object(Current(s).sha)}, unlinked := s.unlinked + [Taken(s)])
      else
        WithWork(s, s.txn.value.work.(stage := Settled(Preserved)))
    case Settle =>
      WithWork(s, s.txn.value.work.(stage := Ready, index := s.txn.value.work.index + 1))
        .(results := s.results[(s.txn.value.work.op, Current(s).sha) := s.txn.value.work.stage.outcome])
  }

  ghost predicate CanFetch(s: State, a: FetchAct) {
    match a
    case Fetch(sha, size) =>
      && Busy(s, Fresh) && Object(sha) !in s.files && 1 <= size <= MAX_BYTES
      && PartSize(s.files, sha) <= size
      && Admits(s.txn.value.db, s.files, size - PartSize(s.files, sha))
    case Open =>
      && s.txn.Some? && s.txn.value.work.Fetching? && !s.txn.value.work.open
      && var w := s.txn.value.work;
         (Partial(w.sha) in s.files ==> 0 < s.files[Partial(w.sha)].size < w.size)
    case Write(count, digest) =>
      && s.txn.Some? && s.txn.value.work.Fetching? && s.txn.value.work.open && 1 <= count
      && Partial(s.txn.value.work.sha) in s.files
      && s.files[Partial(s.txn.value.work.sha)].size + count <= s.txn.value.work.size
    case Promote =>
      && s.txn.Some? && s.txn.value.work.Fetching?
      && var w := s.txn.value.work; Holds(s.files, Partial(w.sha), w.size, w.sha)
    case Isolate =>
      && s.txn.Some? && s.txn.value.work.Fetching?
      && var w := s.txn.value.work;
         && Partial(w.sha) in s.files && s.files[Partial(w.sha)].size == w.size
         && s.files[Partial(w.sha)].digest != w.sha && Quarantine(w.sha, s.files[Partial(w.sha)].digest) !in s.files
  }

  function DoFetch(s: State, a: FetchAct): State
    requires CanFetch(s, a)
  {
    match a
    case Fetch(sha, size) => WithWork(s, Fetching(sha, size, false))
    case Open =>
      var w := s.txn.value.work;
      if Partial(w.sha) in s.files then WithWork(s, w.(open := true))
      else CreateFile(WithWork(s, w.(open := true)), Partial(w.sha), 0)
    case Write(count, digest) =>
      s.(files := Grow(s.files, Partial(s.txn.value.work.sha), count, digest))
    case Promote =>
      var w := s.txn.value.work;
      WithWork(s, Done).(files := Move(s.files, Partial(w.sha), Object(w.sha)))
    case Isolate =>
      var w := s.txn.value.work;
      s.(txn := None, files := Move(s.files, Partial(w.sha), Quarantine(w.sha, s.files[Partial(w.sha)].digest)))
  }

  ghost predicate CanUpload(s: State, a: UploadAct) {
    match a
    case Begin(id, sha, size) =>
      && Busy(s, Fresh) && id !in s.txn.value.db.uploads && 1 <= size <= MAX_BYTES
      && (if Object(sha) in s.files then Holds(s.files, Object(sha), size, sha)
          else Admits(s.txn.value.db, s.files, size) && Staged(id) !in s.files)
    case Store(id, count, digest) =>
      && (Busy(s, Fresh) || Busy(s, Chunking(id))) && 1 <= count
      && id in s.txn.value.db.uploads && Staged(id) in s.files
      && var row := s.txn.value.db.uploads[id];
         row.phase == Uploading && row.received <= s.files[Staged(id)].size
         && s.files[Staged(id)].size + count <= row.size
    case Record(id) =>
      && (Busy(s, Fresh) || Busy(s, Chunking(id)))
      && id in s.txn.value.db.uploads && Staged(id) in s.files
      && var row := s.txn.value.db.uploads[id];
         row.phase == Uploading && row.received < s.files[Staged(id)].size <= row.size
    case Refuse(id) =>
      && Busy(s, Fresh) && UploadReady(s, id) && Staged(id) in s.files
      && var row := s.txn.value.db.uploads[id];
         s.files[Staged(id)].size == row.size && s.files[Staged(id)].digest != row.sha
    case Reference(id) =>
      && Busy(s, Fresh) && UploadReady(s, id)
      && var row := s.txn.value.db.uploads[id];
         Holds(s.files, if Staged(id) in s.files then Staged(id) else Object(row.sha), row.size, row.sha)
    case Publish(id) =>
      && Busy(s, Fresh) && UploadReady(s, id)
      && var row := s.txn.value.db.uploads[id];
         Object(row.sha) !in s.files && Holds(s.files, Staged(id), row.size, row.sha)
    case Finish(id) =>
      && (Busy(s, Fresh) || Busy(s, Published(id))) && UploadReady(s, id)
      && var row := s.txn.value.db.uploads[id]; Holds(s.files, Object(row.sha), row.size, row.sha)
  }

  function DoUpload(s: State, a: UploadAct): State
    requires CanUpload(s, a)
  {
    match a
    case Begin(id, sha, size) =>
      var db := s.txn.value.db;
      if Object(sha) in s.files then
        WithDb(s, db.(refs := db.refs + {(UPLOAD + id, sha)}, uploads := db.uploads[id := Upload(sha, size, size, Complete)]))
      else
        CreateFile(WithDb(s, db.(uploads := db.uploads[id := Upload(sha, size, 0, Uploading)])), Staged(id), 0)
    case Store(id, count, digest) =>
      WithWork(s, Chunking(id)).(files := Grow(s.files, Staged(id), count, digest))
    case Record(id) =>
      SetUpload(s, id, s.txn.value.db.uploads[id].(received := s.files[Staged(id)].size))
    case Refuse(id) => SetUpload(s, id, s.txn.value.db.uploads[id].(phase := Corrupt))
    case Reference(id) =>
      var db := s.txn.value.db;
      WithDb(s, db.(refs := db.refs + {(UPLOAD + id, db.uploads[id].sha)}))
    case Publish(id) =>
      WithWork(s, Published(id)).(files := Move(s.files, Staged(id), Object(s.txn.value.db.uploads[id].sha)))
    case Finish(id) => SetUpload(s, id, s.txn.value.db.uploads[id].(phase := Complete))
  }

  function DoOutside(s: State, a: OutsideAct): State {
    match a
    case Replace(path, size, digest) => s.(files := s.files[path := File(size, digest, s.nextStamp)], nextStamp := s.nextStamp + 1)
    case Remove(path) => s.(files := s.files - {path})
  }

  function CreateFile(s: State, p: Path, digest: Sha): State {
    s.(files := s.files[p := File(0, digest, s.nextStamp)], nextStamp := s.nextStamp + 1)
  }

  function Grow(files: Files, p: Path, count: nat, digest: Sha): Files
    requires p in files
  {
    files[p := files[p].(size := files[p].size + count, digest := digest)]
  }

  function SetUpload(s: State, id: string, row: Upload): State
    requires s.txn.Some?
  {
    var db := s.txn.value.db;
    WithDb(s, db.(uploads := db.uploads[id := row]))
  }

  // ---------------------------------------------------------------- runs

  /** The state after a sequence of steps, or None when some step was not possible. */
  ghost function Run(s: State, acts: seq<Act>): Option<State>
    decreases |acts|
  {
    if acts == [] then Some(s)
    else
      var last := |acts| - 1;
      match Run(s, acts[..last])
      case None => None
      case Some(m) => if Enabled(m, acts[last]) then Some(Next(m, acts[last])) else None
  }

  ghost predicate ManagedRun(acts: seq<Act>) {
    forall i :: 0 <= i < |acts| ==> Managed(acts[i])
  }

  lemma RunStep(s: State, acts: seq<Act>, m: State, a: Act)
    requires Run(s, acts) == Some(m)
    requires Enabled(m, a)
    ensures Run(s, acts + [a]) == Some(Next(m, a))
  {
    assert (acts + [a])[..|acts|] == acts;
  }

  lemma {:induction false} RunConcat(s: State, first: seq<Act>, m: State, rest: seq<Act>)
    requires Run(s, first) == Some(m)
    ensures Run(s, first + rest) == Run(m, rest)
    decreases |rest|
  {
    if rest == [] {
      assert first + rest == first;
    } else {
      var last := |rest| - 1;
      RunConcat(s, first, m, rest[..last]);
      assert (first + rest)[..|first + rest| - 1] == first + rest[..last];
    }
  }
}
