/**
 * What a recorded reference guarantees, in every state reachable by programs that take the lock.
 */
module CacheRefs {
  import opened Basics
  import opened CacheModel

  /** The reference protects an object that is there and has its own digest. */
  predicate Present(files: Files, sha: Sha) {
    Object(sha) in files && files[Object(sha)].digest == sha
  }

  /** The reference was recorded ahead of the object, whose bytes are completely staged. */
  predicate Pending(db: Db, files: Files, owner: string, sha: Sha) {
    && HasPrefix(UPLOAD, owner)
    && var id := owner[|UPLOAD|..];
       && id in db.uploads
       && var row := db.uploads[id];
          row.sha == sha && row.phase == Uploading && row.received == row.size && Holds(files, Staged(id), row.size, sha)
  }

  ghost predicate Backed(db: Db, files: Files) {
    forall r :: r in db.refs ==> Present(files, r.1) || Pending(db, files, r.0, r.1)
  }

  /** What the transaction in progress has changed, and what it relies on. */
  ghost predicate InFlight(s: State) {
    s.txn.Some? ==>
      var db, w := s.txn.value.db, s.txn.value.work;
      && (w != Done ==> db == s.db)
      && (w.Sweeping? && (w.stage == Tried || w.stage == Checked) && w.index < |w.plan| ==> !Referenced(db.refs, w.plan[w.index].sha))
      && (w.Fetching? ==> Object(w.sha) !in s.files)
      && (forall r :: r in s.db.refs && InstanceOwner(r.0) ==> r in db.refs)
  }

  ghost predicate RefInv(s: State) {
    Backed(s.db, s.files) && (s.txn.Some? ==> Backed(s.txn.value.db, s.files)) && InFlight(s)
  }

  /** A step that only adds or keeps what the references of `db` rest on. */
  lemma BackedByMore(db: Db, before: Files, after: Files)
    requires Backed(db, before)
    requires forall r :: r in db.refs && Present(before, r.1) ==> Present(after, r.1)
    requires forall r :: r in db.refs && Pending(db, before, r.0, r.1) ==> Present(after, r.1) || Pending(db, after, r.0, r.1)
    ensures Backed(db, after)
  {
  }

  lemma SessionKeepsRefs(s: State, a: SessionAct)
    requires RefInv(s) && CanSession(s, a)
    ensures RefInv(DoSession(s, a))
  {
  }

  lemma RegisterKeepsRefs(s: State, a: RegisterAct)
    requires RefInv(s) && CanRegister(s, a)
    ensures RefInv(DoRegister(s, a))
  {
  }

  lemma CollectKeepsRefs(s: State, a: CollectAct)
    requires RefInv(s) && CanCollect(s, a)
    ensures RefInv(DoCollect(s, a))
  {
    if a == Unlink(true) {
      var t := DoCollect(s, a);
      BackedByMore(s.db, s.files, t.files);
    }
  }

  lemma FetchKeepsRefs(s: State, a: FetchAct)
    requires RefInv(s) && CanFetch(s, a)
    ensures RefInv(DoFetch(s, a))
  {
    var t := DoFetch(s, a);
    BackedByMore(s.db, s.files, t.files);
    BackedByMore(s.txn.value.db, s.files, t.files);
  }

  lemma UploadFilesKeepRefs(s: State, a: UploadAct)
    requires RefInv(s) && CanUpload(s, a)
    ensures Backed(s.db, DoUpload(s, a).files) && InFlight(DoUpload(s, a))
  {
    var t := DoUpload(s, a);
    forall r | r in s.db.refs && Pending(s.db, s.files, r.0, r.1)
      ensures Present(t.files, r.1) || Pending(s.db, t.files, r.0, r.1)
    {
      if a.Begin? {
        assert r.0[|UPLOAD|..] in s.db.uploads;
      }
    }
    BackedByMore(s.db, s.files, t.files);
  }

  lemma UploadRowsKeepRefs(s: State, a: UploadAct)
    requires RefInv(s) && CanUpload(s, a)
    ensures Backed(DoUpload(s, a).txn.value.db, DoUpload(s, a).files)
  {
    var t, db := DoUpload(s, a), s.txn.value.db;
    UploadFilesKeepRefs(s, a);
    assert db == s.db;
    assert (UPLOAD + a.id)[|UPLOAD|..] == a.id;
    forall r | r in t.txn.value.db.refs
      ensures Present(t.files, r.1) || Pending(t.txn.value.db, t.files, r.0, r.1)
    {
      if r in db.refs {
        assert Present(t.files, r.1) || Pending(db, t.files, r.0, r.1);
      }
    }
  }

  lemma RefStep(s: State, a: Act)
    requires RefInv(s) && Enabled(s, a) && Managed(a)
    ensures RefInv(Next(s, a))
  {
    match a {
      case Session(x) => SessionKeepsRefs(s, x);
      case Register(x) => RegisterKeepsRefs(s, x);
      case Collect(x) => CollectKeepsRefs(s, x);
      case Download(x) => FetchKeepsRefs(s, x);
      case Transfer(x) => UploadFilesKeepRefs(s, x); UploadRowsKeepRefs(s, x);
    }
  }

  lemma {:induction false} RefRun(s: State, acts: seq<Act>, t: State)
    requires RefInv(s) && ManagedRun(acts) && Run(s, acts) == Some(t)
    ensures RefInv(t)
    decreases |acts|
  {
    if acts != [] {
      var last := |acts| - 1;
      var m := Run(s, acts[..last]).value;
      RefRun(s, acts[..last], m);
      RefStep(m, acts[last]);
    }
  }

  /** In every reachable state each reference has its object, or is an upload's own reference whose bytes wait, complete,
      in the staging directory. Only the second kind can be without an object. */
  lemma ReferencesAreBacked(acts: seq<Act>, t: State, owner: string, sha: Sha)
    requires ManagedRun(acts) && Run(EMPTY, acts) == Some(t) && (owner, sha) in t.db.refs
    ensures Object(sha) in t.files || Pending(t.db, t.files, owner, sha)
    ensures !Pending(t.db, t.files, owner, sha) ==> Present(t.files, sha)
    ensures !HasPrefix(UPLOAD, owner) ==> Present(t.files, sha)
  {
    RefRun(EMPTY, acts, t);
  }

  // ---------------------------------------------------------------- exactly when a reference goes without

  ghost predicate Furnished(db: Db, files: Files) {
    forall r :: r in db.refs ==> Object(r.1) in files
  }

  /** Every reference, durable or about to be, has its object. */
  ghost predicate AllFurnished(s: State) {
    Furnished(s.db, s.files) && (s.txn.Some? ==> Furnished(s.txn.value.db, s.files))
  }

  /** The step that records a reference ahead of its object. */
  ghost predicate ReferencesAhead(s: State, a: Act) {
    && a.Transfer? && a.upload.Reference? && CanUpload(s, a.upload)
    && Object(s.txn.value.db.uploads[a.upload.id].sha) !in s.files
  }

  lemma CollectFurnishes(s: State, a: CollectAct)
    requires RefInv(s) && AllFurnished(s) && CanCollect(s, a)
    ensures AllFurnished(DoCollect(s, a))
  {
  }

  lemma FetchFurnishes(s: State, a: FetchAct)
    requires RefInv(s) && AllFurnished(s) && CanFetch(s, a)
    ensures AllFurnished(DoFetch(s, a))
  {
  }

  lemma UploadFurnishes(s: State, a: UploadAct)
    requires RefInv(s) && AllFurnished(s) && CanUpload(s, a)
    ensures AllFurnished(DoUpload(s, a)) <==> !ReferencesAhead(s, Transfer(a))
  {
    if a.Reference? {
      var sha := s.txn.value.db.uploads[a.id].sha;
      assert (UPLOAD + a.id, sha) in DoUpload(s, a).txn.value.db.refs;
    }
  }

  /** While every reference has its object, one step and only one leaves a reference without: an upload that records its own
      reference before its object is there. */
  lemma OnlyUploadsReferenceAhead(s: State, a: Act)
    requires RefInv(s) && AllFurnished(s) && Enabled(s, a) && Managed(a)
    ensures AllFurnished(Next(s, a)) <==> !ReferencesAhead(s, a)
  {
    match a {
      case Session(x) => assert AllFurnished(DoSession(s, x));
      case Register(x) => assert AllFurnished(DoRegister(s, x));
      case Collect(x) => CollectFurnishes(s, x);
      case Download(x) => FetchFurnishes(s, x);
      case Transfer(x) => UploadFurnishes(s, x);
    }
  }

  // ---------------------------------------------------------------- instances

  /** The step from `s` to `t` leaves the instance's reference and its object alone. */
  ghost predicate Protects(s: State, t: State, owner: string, sha: Sha) {
    && (owner, sha) in t.db.refs
    && Present(s.files, sha) && Object(sha) in t.files && t.files[Object(sha)] == s.files[Object(sha)]
  }

  lemma NotAnUpload(owner: string)
    requires InstanceOwner(owner)
    ensures !HasPrefix(UPLOAD, owner)
  {
    assert owner[0] == INSTANCE[0];
  }

  lemma CollectProtects(s: State, a: CollectAct, owner: string, sha: Sha)
    requires RefInv(s) && CanCollect(s, a) && (owner, sha) in s.db.refs && Present(s.files, sha)
    ensures Protects(s, DoCollect(s, a), owner, sha)
  {
    if a == Unlink(true) {
      assert !Referenced(s.txn.value.db.refs, Current(s).sha);
    }
  }

  lemma FetchProtects(s: State, a: FetchAct, owner: string, sha: Sha)
    requires RefInv(s) && CanFetch(s, a) && (owner, sha) in s.db.refs && Present(s.files, sha)
    ensures Protects(s, DoFetch(s, a), owner, sha)
  {
  }

  lemma UploadProtects(s: State, a: UploadAct, owner: string, sha: Sha)
    requires RefInv(s) && CanUpload(s, a) && (owner, sha) in s.db.refs && Present(s.files, sha)
    ensures Protects(s, DoUpload(s, a), owner, sha)
  {
  }

  lemma InstanceRefStep(s: State, a: Act, owner: string, sha: Sha)
    requires RefInv(s) && Enabled(s, a) && Managed(a)
    requires (owner, sha) in s.db.refs && InstanceOwner(owner)
    ensures Protects(s, Next(s, a), owner, sha)
  {
    NotAnUpload(owner);
    assert Present(s.files, sha);
    match a {
      case Session(x) =>
      case Register(x) => assert DoRegister(s, x).db == s.db;
      case Collect(x) => CollectProtects(s, x, owner, sha);
      case Download(x) => FetchProtects(s, x, owner, sha);
      case Transfer(x) => UploadProtects(s, x, owner, sha);
    }
  }

  /** An object an instance has pinned is never unlinked or replaced again, by any later interleaving or crash. */
  lemma {:induction false} InstanceObjectsAreForever(s: State, acts: seq<Act>, t: State, owner: string, sha: Sha)
    requires RefInv(s) && ManagedRun(acts) && Run(s, acts) == Some(t)
    requires (owner, sha) in s.db.refs && InstanceOwner(owner)
    ensures Protects(s, t, owner, sha)
    decreases |acts|
  {
    NotAnUpload(owner);
    if acts != [] {
      var last := |acts| - 1;
      var m := Run(s, acts[..last]).value;
      InstanceObjectsAreForever(s, acts[..last], m, owner, sha);
      RefRun(s, acts[..last], m);
      InstanceRefStep(m, acts[last], owner, sha);
    }
  }

  // ---------------------------------------------------------------- interrupted downloads

  /** A partial file that was created and never written: the next download opens it exclusively, and fails. */
  predicate Blocked(sha: Sha, files: Files) {
    Partial(sha) in files && files[Partial(sha)].size == 0
  }

  /** A partial file of full size and the wrong digest, for which there is no room in quarantine: its place there is taken. */
  predicate Condemned(sha: Sha, size: nat, files: Files) {
    && Partial(sha) in files && files[Partial(sha)].size == size && files[Partial(sha)].digest != sha
    && Quarantine(sha, files[Partial(sha)].digest) in files
  }

  /** A download created this partial file and stopped before its first byte; nobody has it open. */
  ghost predicate Stranded(s: State, sha: Sha) {
    && Blocked(sha, s.files)
    && !(s.txn.Some? && s.txn.value.work.Fetching? && s.txn.value.work.sha == sha
         && (s.txn.value.work.open || s.txn.value.work.size == 0))
  }

  lemma FetchStrands(s: State, a: FetchAct, sha: Sha)
    requires Stranded(s, sha) && CanFetch(s, a)
    ensures Stranded(DoFetch(s, a), sha) && DoFetch(s, a).files[Partial(sha)] == s.files[Partial(sha)]
  {
  }

  lemma UploadStrands(s: State, a: UploadAct, sha: Sha)
    requires Stranded(s, sha) && CanUpload(s, a)
    ensures Stranded(DoUpload(s, a), sha) && DoUpload(s, a).files[Partial(sha)] == s.files[Partial(sha)]
  {
  }

  lemma CollectStrands(s: State, a: CollectAct, sha: Sha)
    requires Stranded(s, sha) && CanCollect(s, a)
    ensures Stranded(DoCollect(s, a), sha) && DoCollect(s, a).files[Partial(sha)] == s.files[Partial(sha)]
  {
  }

  lemma StrandedStep(s: State, a: Act, sha: Sha)
    requires Stranded(s, sha) && Enabled(s, a) && Managed(a)
    ensures Stranded(Next(s, a), sha) && Next(s, a).files[Partial(sha)] == s.files[Partial(sha)]
  {
    match a {
      case Session(x) => assert DoSession(s, x).files == s.files;
      case Register(x) => assert DoRegister(s, x).files == s.files;
      case Collect(x) => CollectStrands(s, x, sha);
      case Download(x) => FetchStrands(s, x, sha);
      case Transfer(x) => UploadStrands(s, x, sha);
    }
  }

  /** An empty partial file is never written, promoted or set aside by any later step: no download of that name gets its bytes
      until somebody outside removes the file. */
  lemma {:induction false} EmptyPartialIsForever(s: State, acts: seq<Act>, t: State, sha: Sha)
    requires Stranded(s, sha) && ManagedRun(acts) && Run(s, acts) == Some(t)
    ensures Stranded(t, sha) && t.files[Partial(sha)] == s.files[Partial(sha)]
    decreases |acts|
  {
    if acts != [] {
      var last := |acts| - 1;
      var m := Run(s, acts[..last]).value;
      EmptyPartialIsForever(s, acts[..last], m, sha);
      StrandedStep(m, acts[last], sha);
    }
  }

  /** Nobody is fetching the name with another size. */
  ghost predicate Convicted(s: State, sha: Sha, size: nat) {
    && Condemned(sha, size, s.files)
    && !(s.txn.Some? && s.txn.value.work.Fetching? && s.txn.value.work.sha == sha && s.txn.value.work.size != size)
  }

  /** The declared size of a name does not change: it is the digest of the content. */
  predicate KeepsSize(a: Act, sha: Sha, size: nat) {
    a.Download? && a.fetch.Fetch? && a.fetch.sha == sha ==> a.fetch.size == size
  }

  lemma FetchConvicts(s: State, a: FetchAct, sha: Sha, size: nat)
    requires Convicted(s, sha, size) && CanFetch(s, a) && KeepsSize(Download(a), sha, size)
    ensures Convicted(DoFetch(s, a), sha, size) && DoFetch(s, a).files[Partial(sha)] == s.files[Partial(sha)]
  {
  }

  lemma UploadConvicts(s: State, a: UploadAct, sha: Sha, size: nat)
    requires Convicted(s, sha, size) && CanUpload(s, a)
    ensures Convicted(DoUpload(s, a), sha, size) && DoUpload(s, a).files[Partial(sha)] == s.files[Partial(sha)]
  {
  }

  lemma CollectConvicts(s: State, a: CollectAct, sha: Sha, size: nat)
    requires Convicted(s, sha, size) && CanCollect(s, a)
    ensures Convicted(DoCollect(s, a), sha, size) && DoCollect(s, a).files[Partial(sha)] == s.files[Partial(sha)]
  {
  }

  lemma ConvictedStep(s: State, a: Act, sha: Sha, size: nat)
    requires Convicted(s, sha, size) && Enabled(s, a) && Managed(a) && KeepsSize(a, sha, size)
    ensures Convicted(Next(s, a), sha, size) && Next(s, a).files[Partial(sha)] == s.files[Partial(sha)]
  {
    match a {
      case Session(x) => assert DoSession(s, x).files == s.files;
      case Register(x) => assert DoRegister(s, x).files == s.files;
      case Collect(x) => CollectConvicts(s, x, sha, size);
      case Download(x) => FetchConvicts(s, x, sha, size);
      case Transfer(x) => UploadConvicts(s, x, sha, size);
    }
  }

  /** Nor is a full partial file with a wrong digest whose place in quarantine is taken. */
  lemma {:induction false} CondemnedPartialIsForever(s: State, acts: seq<Act>, t: State, sha: Sha, size: nat)
    requires Convicted(s, sha, size) && ManagedRun(acts) && Run(s, acts) == Some(t)
    requires forall i :: 0 <= i < |acts| ==> KeepsSize(acts[i], sha, size)
    ensures Convicted(t, sha, size) && t.files[Partial(sha)] == s.files[Partial(sha)]
    decreases |acts|
  {
    if acts != [] {
      var last := |acts| - 1;
      var m := Run(s, acts[..last]).value;
      CondemnedPartialIsForever(s, acts[..last], m, sha, size);
      ConvictedStep(m, acts[last], sha, size);
    }
  }

  /** The two states of a partial file that nothing but an outside program can end. */
  predicate Stuck(sha: Sha, size: nat, files: Files) {
    Blocked(sha, files) || Condemned(sha, size, files)
  }

  /** From either of them, with nobody at work, every later run leaves the partial file exactly as it is. */
  lemma StuckIsForever(s: State, acts: seq<Act>, t: State, sha: Sha, size: nat)
    requires Stuck(sha, size, s.files) && s.txn.None? && ManagedRun(acts) && Run(s, acts) == Some(t)
    requires forall i :: 0 <= i < |acts| ==> KeepsSize(acts[i], sha, size)
    ensures Stuck(sha, size, t.files) && t.files[Partial(sha)] == s.files[Partial(sha)]
  {
    if Blocked(sha, s.files) {
      EmptyPartialIsForever(s, acts, t, sha);
    } else {
      CondemnedPartialIsForever(s, acts, t, sha, size);
    }
  }
}
