/**
 * The byte budget: payload plus reservations, over every run of programs that take the lock.
 */
module CacheBudget {
  import opened Basics
  import opened MapSum
  import opened CacheModel

  // ---------------------------------------------------------------- how the charge moves

  /** A file that is not staged is charged its size and changes no claim. */
  lemma ChargeOfFile(db: Db, files: Files, p: Path, f: File, strict: bool)
    requires !p.Staged? || p.id !in db.uploads
    ensures Charge(db, files[p := f], strict) + (if p in files then files[p].size else 0) == Charge(db, files, strict) + f.size
  {
    assert FileSizes(files[p := f]) == FileSizes(files)[p := f.size];
    TotalPut(FileSizes(files), p, f.size);
    assert Claims(db.uploads, files[p := f], strict) == Claims(db.uploads, files, strict);
  }

  lemma ChargeWithout(db: Db, files: Files, p: Path, strict: bool)
    requires p in files && !p.Staged?
    ensures Charge(db, files, strict) == Charge(db, files - {p}, strict) + files[p].size
  {
    assert FileSizes(files - {p}) == FileSizes(files) - {p};
    TotalRemove(FileSizes(files), p);
    assert Claims(db.uploads, files - {p}, strict) == Claims(db.uploads, files, strict);
  }

  /** Storing staged bytes turns reservation into payload. */
  lemma ChargeOfStore(db: Db, files: Files, id: string, f: File, strict: bool)
    requires id in db.uploads && Staged(id) in files && db.uploads[id].phase == Uploading
    requires files[Staged(id)].size <= db.uploads[id].size && f.size <= db.uploads[id].size
    ensures Charge(db, files[Staged(id) := f], strict) == Charge(db, files, strict)
  {
    var p, after := Staged(id), files[Staged(id) := f];
    assert FileSizes(after) == FileSizes(files)[p := f.size];
    TotalPut(FileSizes(files), p, f.size);
    var claims := Claims(db.uploads, files, strict);
    assert Claims(db.uploads, after, strict) == claims[id := db.uploads[id].size - f.size];
    TotalPut(claims, id, db.uploads[id].size - f.size);
  }

  lemma ChargeOfRow(db: Db, files: Files, id: string, row: Upload, strict: bool)
    ensures var after := db.(uploads := db.uploads[id := row]);
            Charge(after, files, strict) + (if id in db.uploads then Claims(db.uploads, files, strict)[id] else 0)
            == Charge(db, files, strict) + Claim(id, row, files, if strict then row.size else 0)
  {
    var claims, v := Claims(db.uploads, files, strict), Claim(id, row, files, if strict then row.size else 0);
    assert Claims(db.uploads[id := row], files, strict) == claims[id := v];
    TotalPut(claims, id, v);
  }

  /** Publishing moves a full staged file into the objects; until the row is updated its whole size stays reserved. */
  lemma ChargeOfPublish(db: Db, files: Files, id: string, target: Path, strict: bool)
    requires id in db.uploads && db.uploads[id].phase == Uploading
    requires Staged(id) in files && files[Staged(id)].size == db.uploads[id].size
    requires target !in files && !target.Staged?
    ensures Charge(db, Move(files, Staged(id), target), strict)
            == Charge(db, files, strict) + if strict then db.uploads[id].size else 0
  {
    var p, row := Staged(id), db.uploads[id];
    var without := files - {p};
    assert FileSizes(without) == FileSizes(files) - {p};
    TotalRemove(FileSizes(files), p);
    var claims := Claims(db.uploads, files, strict);
    var claim := if strict then row.size else 0;
    assert Claims(db.uploads, without, strict) == claims[id := claim];
    TotalPut(claims, id, claim);
    ChargeOfFile(db, without, target, files[p], strict);
  }

  lemma ChargeOfMove(db: Db, files: Files, source: Path, target: Path, strict: bool)
    requires source in files && !source.Staged? && target !in files && !target.Staged?
    ensures Charge(db, Move(files, source, target), strict) == Charge(db, files, strict)
  {
    ChargeWithout(db, files, source, strict);
    ChargeOfFile(db, files - {source}, target, files[source], strict);
  }

  // ---------------------------------------------------------------- the invariant

  ghost predicate Fits(db: Db, files: Files, additional: nat, strict: bool) {
    db.budget.Some? ==> Charge(db, files, strict) + additional <= db.budget.value
  }

  /** Bytes the download in progress has been admitted for and not yet written. */
  function Admitted(w: Work, files: Files): nat {
    if w.Fetching? && PartSize(files, w.sha) <= w.size then w.size - PartSize(files, w.sha) else 0
  }

  ghost predicate Within(s: State, strict: bool) {
    && Fits(s.db, s.files, 0, strict)
    && (s.txn.Some? ==> Fits(s.txn.value.db, s.files, Admitted(s.txn.value.work, s.files), strict))
  }

  ghost predicate Orderly(s: State) {
    && Countable(s.db, s.files)
    && (s.txn.Some? ==>
          var db, w := s.txn.value.db, s.txn.value.work;
          && Countable(db, s.files)
          && (w != Done ==> db == s.db)
          && (w.Fetching? ==> PartSize(s.files, w.sha) <= w.size && Object(w.sha) !in s.files))
  }

  /** The step that the strict count can refuse. */
  ghost predicate Overdraws(s: State, a: Act) {
    && a.Transfer? && a.upload.Publish? && CanUpload(s, a.upload) && s.db.budget.Some?
    && Committed(s.db, s.files) + s.txn.value.db.uploads[a.upload.id].size > s.db.budget.value
  }

  lemma RelaxedIsLess(db: Db, files: Files)
    ensures Charge(db, files, false) <= Charge(db, files, true)
  {
    TotalMonotone(Claims(db.uploads, files, false), Claims(db.uploads, files, true));
  }

  lemma SessionWithin(s: State, a: SessionAct, strict: bool)
    requires Orderly(s) && Within(s, strict) && CanSession(s, a)
    ensures Orderly(DoSession(s, a)) && Within(DoSession(s, a), strict)
  {
  }

  lemma RegisterWithin(s: State, a: RegisterAct, strict: bool)
    requires Orderly(s) && Within(s, strict) && CanRegister(s, a)
    ensures Orderly(DoRegister(s, a)) && Within(DoRegister(s, a), strict)
  {
    RelaxedIsLess(s.txn.value.db, s.files);
    var db := DoRegister(s, a).txn.value.db;
    assert Charge(db, s.files, strict) == Charge(s.txn.value.db, s.files, strict);
  }

  lemma CollectWithin(s: State, a: CollectAct, strict: bool)
    requires Orderly(s) && Within(s, strict) && CanCollect(s, a)
    ensures Orderly(DoCollect(s, a)) && Within(DoCollect(s, a), strict)
  {
    if a == Unlink(true) {
      ChargeWithout(s.db, s.files, Object(Current(s).sha), strict);
    }
  }

  lemma FetchOrderly(s: State, a: FetchAct)
    requires Orderly(s) && CanFetch(s, a)
    ensures Orderly(DoFetch(s, a))
  {
  }

  lemma FetchWithin(s: State, a: FetchAct, strict: bool)
    requires Orderly(s) && Within(s, strict) && CanFetch(s, a)
    ensures Within(DoFetch(s, a), strict)
  {
    var t, w := DoFetch(s, a), s.txn.value.work;
    assert s.txn.value.db == s.db;
    match a {
      case Fetch(sha, size) => RelaxedIsLess(s.db, s.files);
      case Open =>
        if Partial(w.sha) !in s.files { ChargeOfFile(s.db, s.files, Partial(w.sha), t.files[Partial(w.sha)], strict); }
      case Write(count, digest) => ChargeOfFile(s.db, s.files, Partial(w.sha), t.files[Partial(w.sha)], strict);
      case Promote => ChargeOfMove(s.db, s.files, Partial(w.sha), Object(w.sha), strict);
      case Isolate =>
        ChargeOfMove(s.db, s.files, Partial(w.sha), Quarantine(w.sha, s.files[Partial(w.sha)].digest), strict);
    }
  }

  lemma UploadOrderly(s: State, a: UploadAct)
    requires Orderly(s) && CanUpload(s, a)
    ensures Orderly(DoUpload(s, a))
  {
  }

  lemma CachedBeginWithin(s: State, a: UploadAct, strict: bool)
    requires Orderly(s) && Within(s, strict) && CanUpload(s, a) && a.Begin? && Object(a.sha) in s.files
    ensures Within(DoUpload(s, a), strict)
  {
    var db := s.txn.value.db;
    var more := db.(refs := db.refs + {(UPLOAD + a.id, a.sha)});
    assert Charge(more, s.files, strict) == Charge(db, s.files, strict);
    ChargeOfRow(more, s.files, a.id, Upload(a.sha, a.size, a.size, Complete), strict);
  }

  lemma ReserveWithin(db: Db, files: Files, id: string, row: Upload, f: File, strict: bool)
    requires id !in db.uploads && Staged(id) !in files && row.phase == Uploading && f.size == 0
    ensures Charge(db, files[Staged(id) := f], strict) == Charge(db, files, strict)
    ensures Charge(db.(uploads := db.uploads[id := row]), files[Staged(id) := f], strict) == Charge(db, files, strict) + row.size
  {
    ChargeOfFile(db, files, Staged(id), f, strict);
    ChargeOfRow(db, files[Staged(id) := f], id, row, strict);
  }

  lemma NewBeginWithin(s: State, a: UploadAct, strict: bool)
    requires Orderly(s) && Within(s, strict) && CanUpload(s, a) && a.Begin? && Object(a.sha) !in s.files
    ensures Within(DoUpload(s, a), strict)
  {
    RelaxedIsLess(s.db, s.files);
    ReserveWithin(s.db, s.files, a.id, Upload(a.sha, a.size, 0, Uploading), File(0, 0, s.nextStamp), strict);
  }

  lemma UploadWithin(s: State, a: UploadAct, strict: bool)
    requires Orderly(s) && Within(s, strict) && CanUpload(s, a)
    requires strict ==> !Overdraws(s, Transfer(a))
    ensures Within(DoUpload(s, a), strict)
  {
    var t, db := DoUpload(s, a), s.txn.value.db;
    assert db == s.db;
    match a {
      case Begin(id, sha, size) =>
        if Object(sha) in s.files { CachedBeginWithin(s, a, strict); } else { NewBeginWithin(s, a, strict); }
      case Store(id, count, digest) => ChargeOfStore(db, s.files, id, t.files[Staged(id)], strict);
      case Publish(id) => ChargeOfPublish(db, s.files, id, Object(db.uploads[id].sha), strict);
      case Reference(id) => assert Charge(t.txn.value.db, s.files, strict) == Charge(db, s.files, strict);
      case _ => ChargeOfRow(db, s.files, a.id, t.txn.value.db.uploads[a.id], strict);
    }
  }

  lemma BudgetStep(s: State, a: Act, strict: bool)
    requires Orderly(s) && Within(s, strict) && Enabled(s, a) && Managed(a)
    requires strict ==> !Overdraws(s, a)
    ensures Orderly(Next(s, a)) && Within(Next(s, a), strict)
  {
    match a {
      case Session(x) => SessionWithin(s, x, strict);
      case Register(x) => RegisterWithin(s, x, strict);
      case Collect(x) => CollectWithin(s, x, strict);
      case Download(x) => FetchOrderly(s, x); FetchWithin(s, x, strict);
      case Transfer(x) => UploadOrderly(s, x); UploadWithin(s, x, strict);
    }
  }

  lemma {:induction false} BudgetRun(s: State, acts: seq<Act>, t: State)
    requires Orderly(s) && Within(s, false) && ManagedRun(acts) && Run(s, acts) == Some(t)
    ensures Orderly(t) && Within(t, false)
    decreases |acts|
  {
    if acts != [] {
      var last := |acts| - 1;
      var m := Run(s, acts[..last]).value;
      BudgetRun(s, acts[..last], m);
      BudgetStep(m, acts[last], false);
    }
  }

  lemma BudgetHolds(acts: seq<Act>, t: State)
    requires ManagedRun(acts) && Run(EMPTY, acts) == Some(t)
    ensures Orderly(t) && Within(t, false)
  {
    assert FileSizes(EMPTY.files) == map[] && Claims(EMPTY.db.uploads, EMPTY.files, false) == map[];
    BudgetRun(EMPTY, acts, t);
  }

  // ---------------------------------------------------------------- main results

  /** Declared sizes of the open uploads whose staged file is gone: published, and not yet recorded so. */
  function Unsettled(uploads: map<string, Upload>, files: Files): map<string, nat> {
    map id | id in uploads && uploads[id].phase == Uploading && Staged(id) !in files :: uploads[id].size
  }

  lemma {:induction false} ClaimsSplit(uploads: map<string, Upload>, files: Files)
    ensures Total(Claims(uploads, files, true)) == Total(Claims(uploads, files, false)) + Total(Unsettled(uploads, files))
    decreases |uploads|
  {
    if uploads != map[] {
      var id :| id in uploads;
      ClaimsSplit(uploads - {id}, files);
      ClaimsOf(uploads, files, id, true);
      ClaimsOf(uploads, files, id, false);
      UnsettledOf(uploads, files, id);
    } else {
      assert Claims(uploads, files, true) == map[] && Unsettled(uploads, files) == map[];
    }
  }

  lemma ClaimsOf(uploads: map<string, Upload>, files: Files, id: string, strict: bool)
    requires id in uploads
    ensures Total(Claims(uploads, files, strict))
            == Claim(id, uploads[id], files, if strict then uploads[id].size else 0) + Total(Claims(uploads - {id}, files, strict))
  {
    assert Claims(uploads, files, strict) - {id} == Claims(uploads - {id}, files, strict);
    TotalRemove(Claims(uploads, files, strict), id);
  }

  lemma UnsettledOf(uploads: map<string, Upload>, files: Files, id: string)
    requires id in uploads
    ensures Total(Unsettled(uploads, files))
            == Total(Unsettled(uploads - {id}, files))
               + if uploads[id].phase == Uploading && Staged(id) !in files then uploads[id].size else 0
  {
    assert Unsettled(uploads, files) - {id} == Unsettled(uploads - {id}, files);
    if id in Unsettled(uploads, files) {
      TotalRemove(Unsettled(uploads, files), id);
    } else {
      assert Unsettled(uploads, files) == Unsettled(uploads - {id}, files);
    }
  }

  /** In every reachable state, crashes included, the committed bytes exceed a registered budget by at most the
      uploads published and not yet recorded, for those are counted twice. */
  lemma CommittedIsBounded(acts: seq<Act>, t: State)
    requires ManagedRun(acts) && Run(EMPTY, acts) == Some(t) && t.db.budget.Some?
    ensures Committed(t.db, t.files) <= t.db.budget.value + Total(Unsettled(t.db.uploads, t.files))
  {
    BudgetHolds(acts, t);
    ClaimsSplit(t.db.uploads, t.files);
  }

  /** No upload has received more than it declared, or declared more than is allowed. */
  ghost predicate Bounded(uploads: map<string, Upload>) {
    forall id :: id in uploads ==> uploads[id].received <= uploads[id].size <= MAX_BYTES
  }

  ghost predicate RowsBounded(s: State) {
    Bounded(s.db.uploads) && (s.txn.Some? ==> Bounded(s.txn.value.db.uploads))
  }

  lemma CollectBounded(s: State, a: CollectAct)
    requires RowsBounded(s) && CanCollect(s, a)
    ensures RowsBounded(DoCollect(s, a))
  {
  }

  lemma FetchBounded(s: State, a: FetchAct)
    requires RowsBounded(s) && CanFetch(s, a)
    ensures RowsBounded(DoFetch(s, a))
  {
  }

  lemma UploadBounded(s: State, a: UploadAct)
    requires RowsBounded(s) && CanUpload(s, a)
    ensures RowsBounded(DoUpload(s, a))
  {
  }

  lemma StepBounded(s: State, a: Act)
    requires RowsBounded(s) && Enabled(s, a)
    ensures RowsBounded(Next(s, a))
  {
    match a {
      case Collect(x) => CollectBounded(s, x);
      case Download(x) => FetchBounded(s, x);
      case Transfer(x) => UploadBounded(s, x);
      case _ =>
    }
  }

  lemma {:induction false} RunBounded(acts: seq<Act>, t: State)
    requires Run(EMPTY, acts) == Some(t)
    ensures RowsBounded(t)
    decreases |acts|
  {
    if acts != [] {
      var m := Run(EMPTY, acts[..|acts| - 1]).value;
      RunBounded(acts[..|acts| - 1], m);
      StepBounded(m, acts[|acts| - 1]);
    }
  }

  /** In every managed run each open upload is as the accounting asks: it has received no more than its staged file has, which
      has no more than was declared, which is no more than is allowed. */
  lemma UploadsAreAccountable(acts: seq<Act>, t: State, id: string)
    requires ManagedRun(acts) && Run(EMPTY, acts) == Some(t) && id in t.db.uploads && t.db.uploads[id].phase == Uploading
    ensures var row := t.db.uploads[id];
      && row.received <= row.size <= MAX_BYTES
      && (Staged(id) in t.files ==> row.received <= t.files[Staged(id)].size <= row.size)
  {
    BudgetHolds(acts, t);
    RunBounded(acts, t);
  }

  /** From a state within its budget, every step stays within it but one: publishing an upload that does not fit twice. */
  lemma OnlyPublishingOverdraws(s: State, a: Act)
    requires Orderly(s) && Within(s, true) && Enabled(s, a) && Managed(a)
    ensures Within(Next(s, a), true) <==> !Overdraws(s, a)
  {
    if Overdraws(s, a) {
      var id := a.upload.id;
      assert s.txn.value.db == s.db;
      ChargeOfPublish(s.db, s.files, id, Object(s.db.uploads[id].sha), true);
    } else {
      BudgetStep(s, a, true);
    }
  }

  /** Recording the published upload gives the second reservation back. */
  lemma FinishReleasesReservation(s: State, id: string)
    requires CanUpload(s, Finish(id)) && Staged(id) !in s.files
    ensures Committed(DoUpload(s, Finish(id)).txn.value.db, s.files) + s.txn.value.db.uploads[id].size
            == Committed(s.txn.value.db, s.files)
  {
    var db := s.txn.value.db;
    ChargeOfRow(db, s.files, id, db.uploads[id].(phase := Complete), true);
  }

  // ---------------------------------------------------------------- what an upload contributes

  /** Payload that no open upload accounts for. */
  function Unclaimed(uploads: map<string, Upload>, files: Files): Files {
    map p | p in files && !(p.Staged? && p.id in uploads && uploads[p.id].phase == Uploading) :: files[p]
  }

  function DeclaredSizes(uploads: map<string, Upload>): map<string, nat> {
    map id | id in uploads && uploads[id].phase == Uploading :: uploads[id].size
  }

  /** However far an upload has come, it contributes exactly its declared size. */
  lemma UploadsContributeDeclaredSize(db: Db, files: Files)
    requires Countable(db, files)
    ensures Committed(db, files) == Total(FileSizes(Unclaimed(db.uploads, files))) + Total(DeclaredSizes(db.uploads))
  {
    Contributions(db.uploads, files);
  }

  lemma {:induction false} Contributions(uploads: map<string, Upload>, files: Files)
    requires forall id :: id in uploads && uploads[id].phase == Uploading && Staged(id) in files
               ==> files[Staged(id)].size <= uploads[id].size
    ensures Total(FileSizes(files)) + Total(Claims(uploads, files, true))
            == Total(FileSizes(Unclaimed(uploads, files))) + Total(DeclaredSizes(uploads))
    decreases |uploads|
  {
    if uploads == map[] {
      assert Unclaimed(uploads, files) == files;
      assert DeclaredSizes(uploads) == map[] && Claims(uploads, files, true) == map[];
    } else {
      var id :| id in uploads;
      Contributions(uploads - {id}, files);
      ClaimsOf(uploads, files, id, true);
      OneUploadContributes(uploads, files, id);
    }
  }

  lemma OneUploadContributes(uploads: map<string, Upload>, files: Files, id: string)
    requires id in uploads
    requires uploads[id].phase == Uploading && Staged(id) in files ==> files[Staged(id)].size <= uploads[id].size
    ensures Total(FileSizes(Unclaimed(uploads - {id}, files))) + Total(DeclaredSizes(uploads - {id})) + Claims(uploads, files, true)[id]
            == Total(FileSizes(Unclaimed(uploads, files))) + Total(DeclaredSizes(uploads))
  {
    var rest, p := uploads - {id}, Staged(id);
    if uploads[id].phase == Uploading {
      assert DeclaredSizes(uploads) - {id} == DeclaredSizes(rest);
      TotalRemove(DeclaredSizes(uploads), id);
      if p in files {
        assert FileSizes(Unclaimed(rest, files)) - {p} == FileSizes(Unclaimed(uploads, files));
        TotalRemove(FileSizes(Unclaimed(rest, files)), p);
      } else {
        assert Unclaimed(rest, files) == Unclaimed(uploads, files);
      }
    } else {
      assert DeclaredSizes(uploads) == DeclaredSizes(rest);
      assert Unclaimed(rest, files) == Unclaimed(uploads, files);
    }
  }
}
