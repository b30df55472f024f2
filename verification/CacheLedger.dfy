/**
 * Safety of collection over whole runs: any interleaving of collections, crashes, references,
 * downloads, uploads, and even of programs that ignore the lock.
 */
module CacheLedger {
  import opened Basics
  import opened CacheModel

  ghost predicate WasUnlinked(s: State, op: Op, sha: Sha) {
    exists i :: 0 <= i < |s.unlinked| && s.unlinked[i].op == op && s.unlinked[i].item.sha == sha
  }

  /** No two files share a stamp, and no file, plan or past unlink carries a stamp from the future. */
  ghost predicate Stamps(s: State) {
    && (forall p :: p in s.files ==> s.files[p].stamp < s.nextStamp)
    && (forall p, q :: p in s.files && q in s.files && p != q ==> s.files[p].stamp != s.files[q].stamp)
    && (forall op, x :: op in s.intents && x in s.intents[op] ==> x.stamp < s.nextStamp)
    && (forall i :: 0 <= i < |s.unlinked| ==> s.unlinked[i].taken.stamp < s.nextStamp)
    && (forall i, p :: 0 <= i < |s.unlinked| && p in s.files ==> s.files[p].stamp != s.unlinked[i].taken.stamp)
  }

  /** Every receipt belongs to an intent, and every result to an attempt. */
  ghost predicate Receipts(s: State) {
    && (forall op :: op in s.intents ==> Ascending(s.intents[op]))
    && (forall k :: k in s.attempts ==>
          k.0 in s.intents && s.attempts[k] in s.intents[k.0] && s.attempts[k].sha == k.1)
    && (forall k :: k in s.results ==> k in s.attempts)
  }

  /** Every unlink was attempted first and happened once, and no file was taken twice. */
  ghost predicate History(s: State) {
    && (forall i :: 0 <= i < |s.unlinked| ==>
          var k := (s.unlinked[i].op, s.unlinked[i].item.sha);
          k in s.attempts && s.attempts[k] == s.unlinked[i].item)
    && (forall i, j :: 0 <= i < j < |s.unlinked| ==>
          (s.unlinked[i].op, s.unlinked[i].item.sha) != (s.unlinked[j].op, s.unlinked[j].item.sha)
          && s.unlinked[i].taken.stamp != s.unlinked[j].taken.stamp)
    && (forall k :: k in s.results ==> (s.results[k] == Removed <==> WasUnlinked(s, k.0, k.1)))
  }

  /** What the collection in progress has already recorded. */
  ghost predicate Sweep(s: State) {
    s.txn.Some? && s.txn.value.work.Sweeping? ==>
      var w := s.txn.value.work;
      && w.op in s.intents && w.plan == s.intents[w.op] && w.index <= |w.plan|
      && (forall i :: 0 <= i < w.index ==> (w.op, w.plan[i].sha) in s.attempts)
      && (w.stage != Ready ==>
            && w.index < |w.plan|
            && var k := (w.op, w.plan[w.index].sha);
               && k in s.attempts && s.attempts[k] == w.plan[w.index] && k !in s.results
               && (w.stage == Settled(Removed) <==> WasUnlinked(s, k.0, k.1)))
  }

  ghost predicate LedgerInv(s: State) {
    Stamps(s) && Receipts(s) && History(s) && Sweep(s)
  }

  // ---------------------------------------------------------------- steps outside a collection

  /** A step that leaves the receipts alone and is not inside a collection. */
  ghost predicate Quiet(s: State, t: State) {
    && t.intents == s.intents && t.attempts == s.attempts && t.results == s.results && t.unlinked == s.unlinked
    && (t.txn == s.txn || t.txn.None? || !t.txn.value.work.Sweeping?)
  }

  lemma QuietKeepsLedger(s: State, t: State)
    requires Receipts(s) && History(s) && Sweep(s) && Quiet(s, t)
    ensures Receipts(t) && History(t) && Sweep(t)
  {
    assert forall op, sha :: WasUnlinked(t, op, sha) <==> WasUnlinked(s, op, sha);
  }

  lemma QuietSteps(s: State, a: Act)
    requires Enabled(s, a) && !a.Collect?
    ensures Quiet(s, Next(s, a))
  {
    match a {
      case Session(x) => assert DoSession(s, x) == Next(s, a);
      case Register(x) => assert DoRegister(s, x) == Next(s, a);
      case Download(x) => assert DoFetch(s, x) == Next(s, a);
      case Transfer(x) => assert DoUpload(s, x) == Next(s, a);
      case Outside(x) =>
    }
  }

  // ---------------------------------------------------------------- stamps

  /** Every file of `t` carries its own old stamp from `s`, except one at `novel` with the next stamp. */
  ghost predicate StampsFrom(s: State, t: State, novel: Option<Path>) {
    && (novel.None? ==> t.nextStamp == s.nextStamp)
    && (novel.Some? ==> t.nextStamp == s.nextStamp + 1 && novel.value in t.files && t.files[novel.value].stamp == s.nextStamp)
    && (forall p :: p in t.files && Some(p) != novel ==> exists q :: q in s.files && s.files[q].stamp == t.files[p].stamp)
    && (forall p, q :: p in t.files && q in t.files && p != q && Some(p) != novel && Some(q) != novel
          ==> t.files[p].stamp != t.files[q].stamp)
  }

  lemma StampsKept(s: State, t: State, novel: Option<Path>)
    requires Stamps(s) && StampsFrom(s, t, novel)
    requires t.intents == s.intents && t.unlinked == s.unlinked
    ensures Stamps(t)
  {
    forall i, p | 0 <= i < |t.unlinked| && p in t.files ensures t.files[p].stamp != t.unlinked[i].taken.stamp {
      assert s.unlinked[i].taken.stamp < s.nextStamp;
    }
  }

  lemma SameStamps(s: State, t: State)
    requires Stamps(s)
    requires t.nextStamp == s.nextStamp && t.files.Keys <= s.files.Keys
    requires forall p :: p in t.files ==> t.files[p].stamp == s.files[p].stamp
    ensures StampsFrom(s, t, None)
  {
  }

  lemma MovedStamps(s: State, t: State, source: Path, target: Path)
    requires Stamps(s) && source in s.files
    requires t.nextStamp == s.nextStamp && t.files == Move(s.files, source, target)
    ensures StampsFrom(s, t, None)
  {
  }

  lemma CreatedStamp(s: State, t: State, p: Path)
    requires Stamps(s)
    requires t.nextStamp == s.nextStamp + 1
    requires p in t.files && t.files[p].stamp == s.nextStamp
    requires forall q :: q in t.files && q != p ==> q in s.files && t.files[q] == s.files[q]
    ensures StampsFrom(s, t, Some(p))
  {
  }

  lemma FetchStamps(s: State, a: FetchAct) returns (novel: Option<Path>)
    requires Stamps(s) && CanFetch(s, a)
    ensures StampsFrom(s, DoFetch(s, a), novel)
  {
    var t, w := DoFetch(s, a), s.txn.value.work;
    novel := None;
    match a {
      case Open =>
        if Partial(w.sha) !in s.files {
          novel := Some(Partial(w.sha));
          CreatedStamp(s, t, Partial(w.sha));
        } else {
          SameStamps(s, t);
        }
      case Promote => MovedStamps(s, t, Partial(w.sha), Object(w.sha));
      case Isolate => MovedStamps(s, t, Partial(w.sha), Quarantine(w.sha, s.files[Partial(w.sha)].digest));
      case _ => SameStamps(s, t);
    }
  }

  lemma UploadStamps(s: State, a: UploadAct) returns (novel: Option<Path>)
    requires Stamps(s) && CanUpload(s, a)
    ensures StampsFrom(s, DoUpload(s, a), novel)
  {
    var t := DoUpload(s, a);
    novel := None;
    match a {
      case Begin(id, sha, size) =>
        if Object(sha) !in s.files {
          novel := Some(Staged(id));
          CreatedStamp(s, t, Staged(id));
        } else {
          SameStamps(s, t);
        }
      case Publish(id) => MovedStamps(s, t, Staged(id), Object(s.txn.value.db.uploads[id].sha));
      case _ => SameStamps(s, t);
    }
  }

  lemma QuietKeepsStamps(s: State, a: Act)
    requires LedgerInv(s) && Enabled(s, a) && !a.Collect?
    ensures Stamps(Next(s, a))
  {
    var t := Next(s, a);
    QuietSteps(s, a);
    match a {
      case Session(x) => SameStamps(s, t); StampsKept(s, t, None);
      case Register(x) => SameStamps(s, t); StampsKept(s, t, None);
      case Download(x) => var novel := FetchStamps(s, x); StampsKept(s, t, novel);
      case Transfer(x) => var novel := UploadStamps(s, x); StampsKept(s, t, novel);
      case Outside(x) =>
        match x {
          case Replace(p, size, digest) => CreatedStamp(s, t, p); StampsKept(s, t, Some(p));
          case Remove(p) => SameStamps(s, t); StampsKept(s, t, None);
        }
    }
  }

  // ---------------------------------------------------------------- steps of a collection

  lemma CollectKeepsStamps(s: State, a: CollectAct)
    requires LedgerInv(s) && CanCollect(s, a)
    ensures Stamps(DoCollect(s, a))
  {
    var t := DoCollect(s, a);
    if a.Unlink? && a.ok {
      assert t.unlinked[|s.unlinked|] == Taken(s);
    }
  }

  lemma CollectKeepsReceipts(s: State, a: CollectAct)
    requires LedgerInv(s) && CanCollect(s, a)
    ensures Receipts(DoCollect(s, a))
  {
  }

  lemma UnlinkExtends(s: State, t: State, r: Removal)
    requires t.unlinked == s.unlinked + [r]
    ensures forall o, sha :: WasUnlinked(t, o, sha) <==> WasUnlinked(s, o, sha) || (o == r.op && sha == r.item.sha)
  {
    var n := |s.unlinked|;
    assert t.unlinked[n] == r;
    forall o, sha | WasUnlinked(s, o, sha) ensures WasUnlinked(t, o, sha) {
      var i :| 0 <= i < n && s.unlinked[i].op == o && s.unlinked[i].item.sha == sha;
      assert t.unlinked[i] == s.unlinked[i];
    }
  }

  lemma UnlinkKeepsHistory(s: State)
    requires LedgerInv(s) && CanCollect(s, Unlink(true))
    ensures History(DoCollect(s, Unlink(true))) && Sweep(DoCollect(s, Unlink(true)))
  {
    var t, w := DoCollect(s, Unlink(true)), s.txn.value.work;
    UnlinkExtends(s, t, Taken(s));
    assert !WasUnlinked(s, w.op, Current(s).sha);
  }

  lemma CollectKeepsHistory(s: State, a: CollectAct)
    requires LedgerInv(s) && CanCollect(s, a)
    ensures History(DoCollect(s, a)) && Sweep(DoCollect(s, a))
  {
    if a == Unlink(true) {
      UnlinkKeepsHistory(s);
    } else {
      var t := DoCollect(s, a);
      assert forall op, sha :: WasUnlinked(t, op, sha) <==> WasUnlinked(s, op, sha);
      if a.Plan? {
        forall k | k in s.results ensures k.0 != a.op {}
      }
    }
  }

  lemma LedgerStep(s: State, a: Act)
    requires LedgerInv(s) && Enabled(s, a)
    ensures LedgerInv(Next(s, a))
  {
    if a.Collect? {
      CollectKeepsStamps(s, a.collect);
      CollectKeepsReceipts(s, a.collect);
      CollectKeepsHistory(s, a.collect);
    } else {
      QuietKeepsStamps(s, a);
      QuietSteps(s, a);
      QuietKeepsLedger(s, Next(s, a));
    }
  }

  // ---------------------------------------------------------------- whole runs

  /** Every run from an empty cache, crashes and outside programs included, keeps the ledger sound. */
  lemma {:induction false} LedgerRun(s: State, acts: seq<Act>, t: State)
    requires LedgerInv(s) && Run(s, acts) == Some(t)
    ensures LedgerInv(t)
    decreases |acts|
  {
    if acts != [] {
      var last := |acts| - 1;
      var m := Run(s, acts[..last]).value;
      LedgerRun(s, acts[..last], m);
      LedgerStep(m, acts[last]);
    }
  }

  /** No operation takes an object twice, no two operations take one file, and receipts tell the truth. */
  lemma UnlinkAtMostOnce(acts: seq<Act>, t: State)
    requires Run(EMPTY, acts) == Some(t)
    ensures forall i, j :: 0 <= i < j < |t.unlinked| ==>
              (t.unlinked[i].op, t.unlinked[i].item.sha) != (t.unlinked[j].op, t.unlinked[j].item.sha)
              && t.unlinked[i].taken.stamp != t.unlinked[j].taken.stamp
    ensures forall i :: 0 <= i < |t.unlinked| ==>
              t.unlinked[i].op in t.intents && t.unlinked[i].item in t.intents[t.unlinked[i].op]
    ensures forall k :: k in t.results ==> (t.results[k] == Removed <==> WasUnlinked(t, k.0, k.1))
  {
    LedgerRun(EMPTY, acts, t);
    forall i | 0 <= i < |t.unlinked|
      ensures t.unlinked[i].op in t.intents && t.unlinked[i].item in t.intents[t.unlinked[i].op]
    {
      var r := t.unlinked[i];
      assert t.attempts[(r.op, r.item.sha)] == r.item;
    }
  }

  ghost predicate ReachedBy(acts: seq<Act>, i: nat) {
    i <= |acts| && Run(EMPTY, acts[..i]).Some?
  }

  lemma {:induction false} RunPrefix(acts: seq<Act>, i: nat)
    requires i <= |acts| && Run(EMPTY, acts).Some?
    ensures ReachedBy(acts, i)
    decreases |acts|
  {
    if i == |acts| {
      assert acts[..i] == acts;
    } else {
      RunPrefix(acts[..|acts| - 1], i);
      assert acts[..|acts| - 1][..i] == acts[..i];
    }
  }

  lemma RunTaken(acts: seq<Act>, i: nat)
    requires i < |acts| && ReachedBy(acts, i + 1)
    ensures ReachedBy(acts, i) && Enabled(Run(EMPTY, acts[..i]).value, acts[i])
  {
    assert acts[..i + 1][..i] == acts[..i];
  }

  /** The intent and the attempt are on disk, and this is the operation's first unlink of the name. */
  ghost predicate RecordedUnlink(m: State) {
    && SweepingAt(m, Checked)
    && var op, item := m.txn.value.work.op, Current(m);
       && op in m.intents && item in m.intents[op]
       && (op, item.sha) in m.attempts && m.attempts[(op, item.sha)] == item && (op, item.sha) !in m.results
       && !WasUnlinked(m, op, item.sha) && Object(item.sha) in m.files
  }

  lemma UnlinkIsRecorded(m: State)
    requires LedgerInv(m) && CanCollect(m, Unlink(true))
    ensures RecordedUnlink(m)
  {
  }

  /** In every run, whatever precedes an unlink has put its intent and its attempt on disk. */
  lemma UnlinkAfterRecords(acts: seq<Act>, i: nat)
    requires Run(EMPTY, acts).Some?
    requires i < |acts| && acts[i] == Collect(Unlink(true))
    ensures Run(EMPTY, acts[..i]).Some? && RecordedUnlink(Run(EMPTY, acts[..i]).value)
  {
    RunPrefix(acts, i + 1);
    RunTaken(acts, i);
    var m := Run(EMPTY, acts[..i]).value;
    LedgerRun(EMPTY, acts[..i], m);
    UnlinkIsRecorded(m);
  }

  // ---------------------------------------------------------------- stale plans

  /** The file that carried this stamp no longer exists. */
  ghost predicate Gone(s: State, stamp: nat) {
    stamp < s.nextStamp && forall p :: p in s.files ==> s.files[p].stamp != stamp
  }

  lemma GoneStays(s: State, a: Act, stamp: nat)
    requires LedgerInv(s) && Enabled(s, a) && Gone(s, stamp)
    ensures Gone(Next(s, a), stamp)
  {
    match a {
      case Session(x) => assert DoSession(s, x).files == s.files;
      case Register(x) => assert DoRegister(s, x).files == s.files;
      case Collect(x) => CollectTakesFiles(s, x);
      case Download(x) => var novel := FetchStamps(s, x);
      case Transfer(x) => var novel := UploadStamps(s, x);
      case Outside(x) =>
    }
  }

  lemma CollectTakesFiles(s: State, a: CollectAct)
    requires CanCollect(s, a)
    ensures var t := DoCollect(s, a); t.nextStamp == s.nextStamp && t.files.Keys <= s.files.Keys
    ensures forall p :: p in DoCollect(s, a).files ==> DoCollect(s, a).files[p] == s.files[p]
  {
  }

  /** The operation has taken its second look at this object and not yet unlinked it. */
  ghost predicate InWindow(s: State, op: Op, item: Item) {
    SweepingAt(s, Checked) && s.txn.value.work.op == op && Current(s) == item
  }

  lemma StaleCollect(s: State, a: CollectAct, op: Op, item: Item)
    requires LedgerInv(s) && CanCollect(s, a) && Gone(s, item.stamp) && !InWindow(s, op, item)
    requires op in s.intents && item in s.intents[op]
    ensures op in DoCollect(s, a).intents && DoCollect(s, a).intents[op] == s.intents[op]
    ensures WasUnlinked(DoCollect(s, a), op, item.sha) <==> WasUnlinked(s, op, item.sha)
    ensures !InWindow(DoCollect(s, a), op, item)
  {
    if a == Unlink(true) {
      UnlinkExtends(s, DoCollect(s, a), Taken(s));
      if s.txn.value.work.op == op && Current(s).sha == item.sha {
        assert Current(s) in s.intents[op];
        SameName(s.intents[op], Current(s), item);
      }
    } else {
      assert DoCollect(s, a).unlinked == s.unlinked;
    }
  }

  lemma UnlinkOnlyGrows(s: State, a: Act, op: Op, item: Item)
    requires LedgerInv(s) && Enabled(s, a) && Gone(s, item.stamp) && !InWindow(s, op, item)
    requires op in s.intents && item in s.intents[op]
    ensures op in Next(s, a).intents && Next(s, a).intents[op] == s.intents[op]
    ensures WasUnlinked(Next(s, a), op, item.sha) <==> WasUnlinked(s, op, item.sha)
    ensures !InWindow(Next(s, a), op, item)
  {
    if a.Collect? {
      StaleCollect(s, a.collect, op, item);
    } else {
      QuietSteps(s, a);
    }
  }

  lemma SameName(items: seq<Item>, x: Item, y: Item)
    requires Ascending(items) && x in items && y in items && x.sha == y.sha
    ensures x == y
  {
    var i :| 0 <= i < |items| && items[i] == x;
    var j :| 0 <= j < |items| && items[j] == y;
  }

  /** Once a planned file is gone, that plan never removes anything of that name again, however often it is resumed and
      whatever other programs do, unless it went after the plan had taken its second look. */
  lemma {:induction false} StalePlanNeverFires(s: State, acts: seq<Act>, t: State, op: Op, item: Item)
    requires LedgerInv(s) && Run(s, acts) == Some(t)
    requires op in s.intents && item in s.intents[op] && Gone(s, item.stamp) && !InWindow(s, op, item)
    ensures op in t.intents && t.intents[op] == s.intents[op] && Gone(t, item.stamp) && !InWindow(t, op, item)
    ensures WasUnlinked(t, op, item.sha) <==> WasUnlinked(s, op, item.sha)
    decreases |acts|
  {
    if acts != [] {
      var last := |acts| - 1;
      var m := Run(s, acts[..last]).value;
      StalePlanNeverFires(s, acts[..last], m, op, item);
      LedgerRun(s, acts[..last], m);
      GoneStays(m, acts[last], item.stamp);
      UnlinkOnlyGrows(m, acts[last], op, item);
    }
  }

  // ---------------------------------------------------------------- plans

  lemma PlanStays(s: State, a: Act, op: Op)
    requires Enabled(s, a) && op in s.intents
    ensures op in Next(s, a).intents && Next(s, a).intents[op] == s.intents[op]
  {
    if !a.Collect? {
      QuietSteps(s, a);
    }
  }

  /** An operation is planned once: no later run changes its plan, and every receipt it will ever have is for an object of
      that plan, exactly as planned. */
  lemma {:induction false} PlanIsFinal(s: State, acts: seq<Act>, t: State, op: Op)
    requires LedgerInv(s) && Run(s, acts) == Some(t) && op in s.intents
    ensures op in t.intents && t.intents[op] == s.intents[op]
    ensures forall k :: k in t.attempts && k.0 == op ==> t.attempts[k] in s.intents[op] && t.attempts[k].sha == k.1
    ensures forall k :: k in t.results && k.0 == op ==> k in t.attempts
    decreases |acts|
  {
    if acts != [] {
      var last := |acts| - 1;
      var m := Run(s, acts[..last]).value;
      PlanIsFinal(s, acts[..last], m, op);
      PlanStays(m, acts[last], op);
    }
    LedgerRun(s, acts, t);
  }

  // ---------------------------------------------------------------- phases

  function Rank(p: Phase): nat {
    match p
    case Unattempted => 0
    case Unknown => 1
    case Settled_(_) => 2
  }

  lemma PhaseStep(s: State, a: CollectAct, op: Op, sha: Sha)
    requires LedgerInv(s) && CanCollect(s, a)
    ensures (op, sha) in s.attempts ==> (op, sha) in DoCollect(s, a).attempts
    ensures (op, sha) in s.results ==>
              (op, sha) in DoCollect(s, a).results && DoCollect(s, a).results[(op, sha)] == s.results[(op, sha)]
  {
  }

  /** Attempt and result receipts are never withdrawn or rewritten. */
  lemma {:induction false} PhasesOnlyAdvance(s: State, acts: seq<Act>, t: State, op: Op, sha: Sha)
    requires LedgerInv(s) && Run(s, acts) == Some(t)
    ensures Rank(PhaseOf(s, op, sha)) <= Rank(PhaseOf(t, op, sha))
    ensures PhaseOf(s, op, sha).Settled_? ==> PhaseOf(t, op, sha) == PhaseOf(s, op, sha)
    decreases |acts|
  {
    if acts != [] {
      var last := |acts| - 1;
      var m := Run(s, acts[..last]).value;
      PhasesOnlyAdvance(s, acts[..last], m, op, sha);
      LedgerRun(s, acts[..last], m);
      if acts[last].Collect? {
        PhaseStep(m, acts[last].collect, op, sha);
      } else {
        QuietSteps(m, acts[last]);
      }
    }
  }

  /** The attempt is on disk, its result is not, and nobody is about to write it. */
  ghost predicate Interrupted(s: State, op: Op, sha: Sha) {
    && (op, sha) in s.attempts && (op, sha) !in s.results
    && !(s.txn.Some? && s.txn.value.work.Sweeping?
         && var w := s.txn.value.work;
            w.op == op && w.stage != Ready && w.index < |w.plan| && w.plan[w.index].sha == sha)
  }

  lemma InterruptedThroughCollect(s: State, a: CollectAct, op: Op, sha: Sha)
    requires LedgerInv(s) && CanCollect(s, a) && Interrupted(s, op, sha)
    ensures Interrupted(DoCollect(s, a), op, sha)
    ensures WasUnlinked(DoCollect(s, a), op, sha) <==> WasUnlinked(s, op, sha)
  {
    if a == Unlink(true) {
      UnlinkExtends(s, DoCollect(s, a), Taken(s));
    } else {
      assert DoCollect(s, a).unlinked == s.unlinked;
    }
  }

  lemma InterruptedStays(s: State, a: Act, op: Op, sha: Sha)
    requires LedgerInv(s) && Enabled(s, a) && Interrupted(s, op, sha)
    ensures Interrupted(Next(s, a), op, sha)
    ensures WasUnlinked(Next(s, a), op, sha) <==> WasUnlinked(s, op, sha)
  {
    var t := Next(s, a);
    if a.Collect? {
      InterruptedThroughCollect(s, a.collect, op, sha);
    } else {
      QuietSteps(s, a);
      assert t.unlinked == s.unlinked;
      if t.txn != s.txn {
        assert t.txn.None? || !t.txn.value.work.Sweeping?;
      }
    }
  }

  /** An operation that died between an attempt and its result stays unknown there for ever: it neither
      repeats the unlink nor ever reports finished. */
  lemma {:induction false} InterruptedForever(s: State, acts: seq<Act>, t: State, op: Op, sha: Sha)
    requires LedgerInv(s) && Run(s, acts) == Some(t) && Interrupted(s, op, sha)
    ensures Interrupted(t, op, sha) && PhaseOf(t, op, sha) == Unknown
    ensures WasUnlinked(t, op, sha) <==> WasUnlinked(s, op, sha)
    ensures op in t.intents && !Finished(t, op)
    decreases |acts|
  {
    if acts != [] {
      var last := |acts| - 1;
      var m := Run(s, acts[..last]).value;
      InterruptedForever(s, acts[..last], m, op, sha);
      LedgerRun(s, acts[..last], m);
      InterruptedStays(m, acts[last], op, sha);
    }
    LedgerRun(s, acts, t);
    assert t.attempts[(op, sha)] in t.intents[op];
  }
}
