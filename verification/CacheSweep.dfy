/**
 * What a collection makes of its plan, pass by pass and death by death; what a report on it says; and the conditions under which
 * the cache's operations are accepted.
 */
module CacheSweep {
  import opened Basics
  import opened CacheModel
  import opened CacheLedger
  import CacheBudget

  /** Every object of the plan without an attempt is still as planned, unreferenced, and without a stray result. */
  ghost predicate Sweepable(op: Op, items: seq<Item>, l: Ledger, refs: set<(string, Sha)>) {
    && Ascending(items)
    && forall i :: 0 <= i < |items| && (op, items[i].sha) !in l.attempts ==>
         (op, items[i].sha) !in l.results && Intact(items[i], l.files) && !Referenced(refs, items[i].sha)
  }

  /** What a pass asks of an object before its attempt. */
  predicate Removable(op: Op, item: Item, results: map<(Op, Sha), Outcome>, files: Files, refs: set<(string, Sha)>) {
    (op, item.sha) !in results && Intact(item, files) && !Referenced(refs, item.sha)
  }

  /** The approved plan is the plan of this moment, and the operation id is unused. */
  ghost predicate Startable(op: Op, approved: seq<Item>, s: State, db: Db) {
    && IsPlan(approved, db, s.files) && NewOperation(s, op)
    && |db.refs| <= MAX_OBJECTS && |Objects(s.files)| <= MAX_OBJECTS && |s.intents| < MAX_JOBS
  }

  /** The receipts of one row belong to this plan, and no result stands without its attempt. */
  predicate Readable(attempts: map<(Op, Sha), Item>, results: map<(Op, Sha), Outcome>, op: Op, item: Item) {
    && ((op, item.sha) in attempts ==> attempts[(op, item.sha)] == item)
    && ((op, item.sha) in results ==> (op, item.sha) in attempts)
  }

  function Owners(refs: set<(string, Sha)>, sha: Sha): set<string> {
    set r | r in refs && r.1 == sha :: r.0
  }

  /** A report lists the owners of each object, up to a limit. */
  predicate Listable(refs: set<(string, Sha)>, item: Item) {
    |Owners(refs, item.sha)| <= MAX_OBJECTS
  }

  /** The operation still reads as the caller saw it, and every row not yet attempted may be. */
  ghost predicate Continuable(op: Op, observed: View, s: State, db: Db) {
    && op in s.intents
    && (forall x :: x in s.intents[op] ==> Readable(s.attempts, s.results, op, x) && Listable(db.refs, x))
    && Reports(observed, s, db, op) && Resumable(s, db, op)
  }

  lemma ReportIsUnique(v: View, w: View, s: State, db: Db, op: Op)
    requires Reports(v, s, db, op) && Reports(w, s, db, op)
    ensures v == w
  {
    assert v.rows == w.rows;
  }

  /** What programs that ignore the lock do to files before the second look at an object, and between it and the unlink. */
  datatype Meddling = Meddling(before: seq<OutsideAct>, between: seq<OutsideAct>)

  /** No program that ignores the lock steps in. */
  ghost predicate Undisturbed(meddling: nat -> Meddling) {
    forall i :: meddling(i) == Meddling([], [])
  }

  /** An object is removed only if that would succeed at all (`unlinks`), and always then when nobody steps in. */
  ghost predicate AsTried(outcomes: seq<Outcome>, unlinks: nat -> bool, meddling: nat -> Meddling) {
    forall i :: 0 <= i < |outcomes| ==>
      if Undisturbed(meddling) then outcomes[i] == OutcomeOf(unlinks(i)) else outcomes[i] == Removed ==> unlinks(i)
  }

  /** The steps taken after `before` all take the lock. */
  ghost predicate ManagedSince(before: seq<Act>, after: seq<Act>) {
    before <= after && forall i :: |before| <= i < |after| ==> Managed(after[i])
  }

  /** One row of a status report. */
  datatype Row = Row(sha: Sha, phase: Phase, current: Option<Item>, owners: set<string>, eligible: bool)

  /** `finished` and `resumable` summarise the rows. The source binds a later request to the digest of all of it. */
  datatype View = View(rows: seq<Row>, finished: bool, resumable: bool)

  function RowOf(s: State, db: Db, op: Op, item: Item): Row {
    Row(item.sha, PhaseOf(s, op, item.sha),
        if Object(item.sha) in s.files then Some(Snapshot(item.sha, s.files[Object(item.sha)])) else None,
        Owners(db.refs, item.sha), Eligible(s, db, op, item))
  }

  ghost predicate Reports(v: View, s: State, db: Db, op: Op) {
    && op in s.intents
    && |v.rows| == |s.intents[op]|
    && (forall i :: 0 <= i < |v.rows| ==> v.rows[i] == RowOf(s, db, op, s.intents[op][i]))
    && (v.finished <==> Finished(s, op))
    && (v.resumable <==> Resumable(s, db, op))
  }

  function OpenRows(uploads: map<string, Upload>): set<string> {
    set id | id in uploads && uploads[id].phase == Uploading
  }

  /** The accounting accepts an open upload whose staged file, if there, is between what was recorded and declared. */
  predicate Plausible(id: string, row: Upload, files: Files) {
    && row.received <= row.size <= MAX_BYTES
    && (Staged(id) in files ==> row.received <= files[Staged(id)].size <= row.size)
  }

  /** The accounting gives a figure at all. */
  predicate Auditable(db: Db, files: Files) {
    && |files| <= MAX_OBJECTS && |OpenRows(db.uploads)| <= MAX_OBJECTS
    && forall id :: id in OpenRows(db.uploads) ==> Plausible(id, db.uploads[id], files)
  }

  /** In a managed run the accounting never refuses the state that the cache itself has made, within the limits of number. */
  lemma ReachableIsAuditable(acts: seq<Act>, t: State)
    requires ManagedRun(acts) && Run(EMPTY, acts) == Some(t)
    ensures Auditable(t.db, t.files) <==> |t.files| <= MAX_OBJECTS && |OpenRows(t.db.uploads)| <= MAX_OBJECTS
  {
    forall id | id in OpenRows(t.db.uploads) ensures Plausible(id, t.db.uploads[id], t.files) {
      CacheBudget.UploadsAreAccountable(acts, t, id);
    }
  }

  /** The caller approved exactly this limit for exactly this state (`expected`), and everything committed fits. */
  ghost predicate Acceptable(maximum: nat, expected: (nat, Db, Files), db: Db, files: Files) {
    && 1 <= maximum <= MAX_BYTES && expected == (maximum, db, files) && |db.refs| <= MAX_OBJECTS
    && Auditable(db, files) && Committed(db, files) <= maximum
  }

  /** Receipts, files and report as one pass over a plan leaves them. */
  datatype Ledger = Ledger(attempts: map<(Op, Sha), Item>, results: map<(Op, Sha), Outcome>, files: Files,
                           report: seq<(Sha, Outcome)>)

  function SweepOne(op: Op, item: Item, outcome: Outcome, l: Ledger): Ledger {
    var k := (op, item.sha);
    if k in l.attempts then l
    else Ledger(l.attempts[k := item], l.results[k := outcome],
                if outcome == Removed then l.files - {Object(item.sha)} else l.files, l.report + [(item.sha, outcome)])
  }

  function OutcomeOf(ok: bool): Outcome {
    if ok then Removed else Preserved
  }

  /** `outcomes[i]` is what comes of removing the i-th object of the plan. */
  function SweepAll(op: Op, items: seq<Item>, outcomes: seq<Outcome>, l: Ledger): Ledger
    requires |outcomes| == |items|
  {
    if items == [] then l
    else
      var last := |items| - 1;
      SweepOne(op, items[last], outcomes[last], SweepAll(op, items[..last], outcomes[..last], l))
  }

  /** What a process leaves that dies while it removes an object, after `life` of the three effects: attempt, unlink, result. */
  function CutOne(op: Op, item: Item, ok: bool, life: nat, l: Ledger): Ledger {
    Ledger(if life >= 1 then l.attempts[(op, item.sha) := item] else l.attempts, l.results,
           if life >= 2 && ok then l.files - {Object(item.sha)} else l.files, l.report)
  }

  /** What an undisturbed pass leaves from the i-th object on, if the process dies after `life` effects. */
  function Cut(op: Op, items: seq<Item>, unlinks: nat -> bool, i: nat, life: nat, l: Ledger): Ledger
    requires i <= |items|
    decreases |items| - i
  {
    if i == |items| then l
    else if (op, items[i].sha) in l.attempts then Cut(op, items, unlinks, i + 1, life, l)
    else if life < 3 then CutOne(op, items[i], unlinks(i), life, l)
    else Cut(op, items, unlinks, i + 1, life - 3, SweepOne(op, items[i], OutcomeOf(unlinks(i)), l))
  }

  lemma TriedOneMore(outcomes: seq<Outcome>, outcome: Outcome, unlinks: nat -> bool, meddling: nat -> Meddling)
    requires AsTried(outcomes, unlinks, meddling)
    requires var m := meddling(|outcomes|);
             if m == Meddling([], []) then outcome == OutcomeOf(unlinks(|outcomes|)) else outcome == Removed ==> unlinks(|outcomes|)
    ensures AsTried(outcomes + [outcome], unlinks, meddling)
  {
  }

  lemma SweepOneMore(op: Op, items: seq<Item>, i: nat, outcomes: seq<Outcome>, outcome: Outcome, l: Ledger)
    requires i < |items| && |outcomes| == i
    ensures SweepAll(op, items[..i + 1], outcomes + [outcome], l)
            == SweepOne(op, items[i], outcome, SweepAll(op, items[..i], outcomes, l))
  {
    assert items[..i + 1][..i] == items[..i] && (outcomes + [outcome])[..i] == outcomes;
  }

  /** A pass rewrites no receipt it found: an attempt without a result stays without one, and its object is not touched. */
  lemma {:induction false} SweepKeepsReceipts(op: Op, items: seq<Item>, outcomes: seq<Outcome>, l: Ledger, k: (Op, Sha))
    requires |outcomes| == |items| && k in l.attempts
    ensures var m := SweepAll(op, items, outcomes, l);
            && k in m.attempts && m.attempts[k] == l.attempts[k]
            && (k in m.results <==> k in l.results)
            && (k in l.results ==> m.results[k] == l.results[k])
            && (k.0 == op && Object(k.1) in l.files ==> Object(k.1) in m.files)
  {
    if items != [] {
      SweepKeepsReceipts(op, items[..|items| - 1], outcomes[..|items| - 1], l, k);
    }
  }

  /** After a pass every object of the plan has its attempt; those it found unattempted have a result too, in the report,
      and are gone exactly when the result says removed. */
  lemma {:induction false} SweepSettles(op: Op, items: seq<Item>, outcomes: seq<Outcome>, l: Ledger, i: nat)
    requires |outcomes| == |items| && Ascending(items) && i < |items|
    ensures var m, k := SweepAll(op, items, outcomes, l), (op, items[i].sha);
            && k in m.attempts
            && (k !in l.attempts ==>
                  && m.attempts[k] == items[i] && k in m.results && m.results[k] == outcomes[i]
                  && (k.1, m.results[k]) in m.report
                  && (m.results[k] == Removed ==> Object(k.1) !in m.files)
                  && (m.results[k] == Preserved && Object(k.1) in l.files ==> Object(k.1) in m.files))
    decreases |items|
  {
    var last := |items| - 1;
    var before := SweepAll(op, items[..last], outcomes[..last], l);
    if i < last {
      SweepSettles(op, items[..last], outcomes[..last], l, i);
    } else if (op, items[i].sha) !in l.attempts {
      SweepTouchesOnlyItems(op, items[..last], outcomes[..last], l, items[i].sha);
    } else {
      SweepKeepsReceipts(op, items[..last], outcomes[..last], l, (op, items[i].sha));
    }
  }

  /** A pass touches nothing that is not in its plan. */
  lemma {:induction false} SweepTouchesOnlyItems(op: Op, items: seq<Item>, outcomes: seq<Outcome>, l: Ledger, sha: Sha)
    requires |outcomes| == |items| && forall x :: x in items ==> x.sha != sha
    ensures var m, k := SweepAll(op, items, outcomes, l), (op, sha);
            && (k in m.attempts <==> k in l.attempts) && (k in m.results <==> k in l.results)
            && (Object(sha) in m.files <==> Object(sha) in l.files)
  {
    if items != [] {
      assert items[|items| - 1] in items;
      SweepTouchesOnlyItems(op, items[..|items| - 1], outcomes[..|items| - 1], l, sha);
    }
  }

  /** After a completed pass no row is unattempted, an unknown row is still unknown, and a settled one reads the same. */
  lemma PassPhases(op: Op, items: seq<Item>, outcomes: seq<Outcome>, l: Ledger, x: Item)
    requires |outcomes| == |items| && Ascending(items) && x in items
    ensures var m, k := SweepAll(op, items, outcomes, l), (op, x.sha);
            && k in m.attempts
            && (k in l.attempts && k !in l.results ==> k !in m.results)
            && (k in l.attempts && k in l.results ==> k in m.results && m.results[k] == l.results[k])
            && (k !in l.attempts ==> k in m.results)
  {
    var i :| 0 <= i < |items| && items[i] == x;
    SweepSettles(op, items, outcomes, l, i);
    if (op, x.sha) in l.attempts { SweepKeepsReceipts(op, items, outcomes, l, (op, x.sha)); }
  }

  lemma PassStaysReadable(op: Op, items: seq<Item>, outcomes: seq<Outcome>, l: Ledger)
    requires |outcomes| == |items| && Ascending(items) && forall x :: x in items ==> Readable(l.attempts, l.results, op, x)
    ensures var m := SweepAll(op, items, outcomes, l); forall x :: x in items ==> Readable(m.attempts, m.results, op, x)
  {
    var m := SweepAll(op, items, outcomes, l);
    forall i | 0 <= i < |items| ensures Readable(m.attempts, m.results, op, items[i]) {
      assert items[i] in items;
      SweepSettles(op, items, outcomes, l, i);
      if (op, items[i].sha) in l.attempts { SweepKeepsReceipts(op, items, outcomes, l, (op, items[i].sha)); }
    }
  }

  lemma ResumableIsSweepable(s: State, db: Db, op: Op, report: seq<(Sha, Outcome)>)
    requires Receipts(s) && op in s.intents && Resumable(s, db, op)
    requires forall x :: x in s.intents[op] ==> Readable(s.attempts, s.results, op, x)
    ensures Sweepable(op, s.intents[op], Ledger(s.attempts, s.results, s.files, report), db.refs)
  {
    var items := s.intents[op];
    forall i | 0 <= i < |items| && (op, items[i].sha) !in s.attempts
      ensures (op, items[i].sha) !in s.results && Intact(items[i], s.files) && !Referenced(db.refs, items[i].sha)
    {
      assert items[i] in items;
      assert Eligible(s, db, op, items[i]);
    }
  }

  lemma ReportsAfterCommit(v: View, s: State, t: State, db: Db, op: Op)
    requires Reports(v, s, db, op)
    requires t.intents == s.intents && t.attempts == s.attempts && t.results == s.results && t.files == s.files
    ensures Reports(v, t, db, op)
  {
    assert forall sha :: PhaseOf(t, op, sha) == PhaseOf(s, op, sha);
    assert forall x :: RowOf(t, db, op, x) == RowOf(s, db, op, x);
  }

  lemma ContinuableAnyTxn(op: Op, observed: View, s: State, t: State, db: Db)
    requires t.intents == s.intents && t.attempts == s.attempts && t.results == s.results && t.files == s.files
    ensures Continuable(op, observed, s, db) <==> Continuable(op, observed, t, db)
  {
    assert forall sha :: PhaseOf(t, op, sha) == PhaseOf(s, op, sha);
    assert forall x :: RowOf(t, db, op, x) == RowOf(s, db, op, x);
    assert forall x :: Eligible(t, db, op, x) == Eligible(s, db, op, x);
  }

  lemma NoOwners(refs: set<(string, Sha)>, sha: Sha)
    ensures Owners(refs, sha) == {} <==> !Referenced(refs, sha)
  {
    if Referenced(refs, sha) {
      var x :| x in refs && x.1 == sha;
      assert x.0 in Owners(refs, sha);
    }
  }

  /** The summary flags of a report follow from its rows. */
  lemma SummaryOfRows(s: State, db: Db, op: Op, rows: seq<Row>)
    requires op in s.intents && |rows| == |s.intents[op]|
    requires forall k :: 0 <= k < |rows| ==> rows[k] == RowOf(s, db, op, s.intents[op][k])
    ensures Finished(s, op) <==> forall k :: 0 <= k < |rows| ==> rows[k].phase.Settled_?
    ensures Resumable(s, db, op) <==>
              && (exists k :: 0 <= k < |rows| && rows[k].phase == Unattempted)
              && (forall k :: 0 <= k < |rows| && rows[k].phase == Unattempted ==> rows[k].eligible)
  {
    var items := s.intents[op];
    assert forall k :: 0 <= k < |rows| ==> items[k] in items && rows[k].phase == PhaseOf(s, op, items[k].sha);
    forall x | x in items ensures exists k :: 0 <= k < |rows| && items[k] == x {
    }
  }

  /** What a continuation that ran to its end makes of the report it was given: no row is left unattempted, every other row
      reads as it did, and the operation is finished exactly when none was unknown. */
  lemma ResumeSettlesRows(s: State, t: State, db: Db, op: Op, outcomes: seq<Outcome>, observed: View, v: View)
    requires Reports(observed, s, db, op) && Reports(v, t, db, op) && t.intents == s.intents && Ascending(s.intents[op])
    requires |outcomes| == |s.intents[op]| && forall x :: x in s.intents[op] ==> Readable(s.attempts, s.results, op, x)
    requires var m := SweepAll(op, s.intents[op], outcomes, Ledger(s.attempts, s.results, s.files, []));
             t.attempts == m.attempts && t.results == m.results
    ensures |v.rows| == |observed.rows|
    ensures forall i :: 0 <= i < |v.rows| ==>
              v.rows[i].phase != Unattempted
              && (observed.rows[i].phase != Unattempted ==> v.rows[i].phase == observed.rows[i].phase)
              && (observed.rows[i].phase == Unattempted ==> v.rows[i].phase.Settled_?)
    ensures v.finished <==> forall i :: 0 <= i < |observed.rows| ==> observed.rows[i].phase != Unknown
  {
    forall i | 0 <= i < |v.rows|
      ensures v.rows[i].phase != Unattempted
              && (observed.rows[i].phase != Unattempted ==> v.rows[i].phase == observed.rows[i].phase)
              && (observed.rows[i].phase == Unattempted ==> v.rows[i].phase.Settled_?)
    {
      RowPhase(s, db, op, observed, i);
      RowPhase(t, db, op, v, i);
      PassPhases(op, s.intents[op], outcomes, Ledger(s.attempts, s.results, s.files, []), s.intents[op][i]);
    }
    SummaryOfRows(t, db, op, v.rows);
  }

  lemma RowPhase(s: State, db: Db, op: Op, v: View, i: nat)
    requires Reports(v, s, db, op) && i < |v.rows|
    ensures v.rows[i].phase == PhaseOf(s, op, s.intents[op][i].sha) && s.intents[op][i] in s.intents[op]
  {
    assert v.rows[i] == RowOf(s, db, op, s.intents[op][i]);
  }

  lemma StillSweepable(op: Op, items: seq<Item>, i: nat, outcome: Outcome, l: Ledger, refs: set<(string, Sha)>)
    requires i < |items| && Sweepable(op, items, l, refs)
    ensures Sweepable(op, items, SweepOne(op, items[i], outcome, l), refs)
  {
  }

  // ---------------------------------------------------------------- a pass that is cut short

  lemma CutOneStaysSweepable(op: Op, items: seq<Item>, i: nat, ok: bool, life: nat, l: Ledger, refs: set<(string, Sha)>)
    requires i < |items| && Sweepable(op, items, l, refs)
    ensures Sweepable(op, items, CutOne(op, items[i], ok, life, l), refs)
  {
  }

  /** Wherever an undisturbed pass ends, what it did not attempt can still be attempted. */
  lemma {:induction false} CutStaysSweepable(op: Op, items: seq<Item>, unlinks: nat -> bool, i: nat, life: nat, l: Ledger,
                                             refs: set<(string, Sha)>)
    requires i <= |items| && Sweepable(op, items, l, refs)
    ensures Sweepable(op, items, Cut(op, items, unlinks, i, life, l), refs)
    decreases |items| - i
  {
    if i < |items| {
      if (op, items[i].sha) in l.attempts {
        CutStaysSweepable(op, items, unlinks, i + 1, life, l, refs);
      } else if life < 3 {
        CutOneStaysSweepable(op, items, i, unlinks(i), life, l, refs);
      } else {
        StillSweepable(op, items, i, OutcomeOf(unlinks(i)), l, refs);
        CutStaysSweepable(op, items, unlinks, i + 1, life - 3, SweepOne(op, items[i], OutcomeOf(unlinks(i)), l), refs);
      }
    }
  }

  /** One object after `effects` steps of its removal, of which there are three: attempt, unlink and result. */
  ghost predicate CameTo(op: Op, item: Item, effects: int, ok: bool, l: Ledger, m: Ledger) {
    var k, p := (op, item.sha), Object(item.sha);
    && (k in m.attempts <==> effects >= 1) && (k in m.attempts ==> m.attempts[k] == item)
    && (k in m.results <==> effects >= 3) && (k in m.results ==> m.results[k] == OutcomeOf(ok))
    && (p in m.files <==> p in l.files && !(effects >= 2 && ok)) && (p in m.files ==> m.files[p] == l.files[p])
  }

  /** A pass touches only what is still before it. */
  lemma {:induction false} CutTouchesOnlyRest(op: Op, items: seq<Item>, unlinks: nat -> bool, i: nat, life: nat, l: Ledger, sha: Sha)
    requires i <= |items| && forall j :: i <= j < |items| ==> items[j].sha != sha
    ensures var m, k, p := Cut(op, items, unlinks, i, life, l), (op, sha), Object(sha);
      && (k in m.attempts <==> k in l.attempts) && (k in l.attempts ==> m.attempts[k] == l.attempts[k])
      && (k in m.results <==> k in l.results) && (k in l.results ==> m.results[k] == l.results[k])
      && (p in m.files <==> p in l.files) && (p in l.files ==> m.files[p] == l.files[p])
    decreases |items| - i
  {
    if i < |items| {
      if (op, items[i].sha) in l.attempts {
        CutTouchesOnlyRest(op, items, unlinks, i + 1, life, l, sha);
      } else if life >= 3 {
        CutTouchesOnlyRest(op, items, unlinks, i + 1, life - 3, SweepOne(op, items[i], OutcomeOf(unlinks(i)), l), sha);
      }
    }
  }

  /** A new pass goes through its plan in order, three effects for each object, and stops where the process dies. */
  lemma {:induction false} CutGoesInOrder(op: Op, items: seq<Item>, unlinks: nat -> bool, i: nat, life: nat, l: Ledger, j: nat)
    requires i <= j < |items| && Ascending(items)
    requires forall n :: i <= n < |items| ==> (op, items[n].sha) !in l.attempts && (op, items[n].sha) !in l.results
    ensures CameTo(op, items[j], life - 3 * (j - i), unlinks(j), l, Cut(op, items, unlinks, i, life, l))
    decreases |items| - i
  {
    if life >= 3 {
      var l' := SweepOne(op, items[i], OutcomeOf(unlinks(i)), l);
      if i < j {
        CutGoesInOrder(op, items, unlinks, i + 1, life - 3, l', j);
      } else {
        CutTouchesOnlyRest(op, items, unlinks, i + 1, life - 3, l', items[i].sha);
      }
    }
  }

  /** The object is still exactly as planned, and nobody refers to it. */
  ghost predicate Spared(item: Item, files: Files, refs: set<(string, Sha)>) {
    && Object(item.sha) in files && files[Object(item.sha)] == File(item.size, item.digest, item.stamp)
    && forall owner :: (owner, item.sha) !in refs
  }

  /** The plan of a new operation: in order, each object as planned and without owners, and no receipt yet. */
  ghost predicate NewPlan(op: Op, items: seq<Item>, l: Ledger, refs: set<(string, Sha)>) {
    && Ascending(items)
    && forall i :: 0 <= i < |items| ==>
         && (op, items[i].sha) !in l.attempts && (op, items[i].sha) !in l.results && Spared(items[i], l.files, refs)
  }

  ghost predicate HasRecords(s: State, l: Ledger) {
    s.attempts == l.attempts && s.results == l.results && s.files == l.files
  }

  lemma ReferencedHasOwner(refs: set<(string, Sha)>, sha: Sha)
    ensures Referenced(refs, sha) <==> exists owner :: (owner, sha) in refs
  {
    if Referenced(refs, sha) {
      var r :| r in refs && r.1 == sha;
      assert (r.0, sha) in refs;
    }
    if owner :| (owner, sha) in refs {
      assert (owner, sha).1 == sha;
    }
  }

  /** Where a process that died left one object of its plan. */
  ghost predicate LeftAt(op: Op, item: Item, i: nat, dies: nat, ok: bool, s: State, refs: set<(string, Sha)>) {
    var k := (op, item.sha);
    && (k in s.attempts <==> dies >= 3 * i + 2) && (k in s.results <==> dies >= 3 * i + 4)
    && (k in s.results ==> s.results[k] == if ok then Removed else Preserved)
    && (dies < 3 * i + 2 ==> Spared(item, s.files, refs))
  }

  lemma LeftInOrder(op: Op, items: seq<Item>, unlinks: nat -> bool, dies: nat, l: Ledger, s: State, refs: set<(string, Sha)>, i: nat)
    requires dies >= 1 && i < |items| && NewPlan(op, items, l, refs)
    requires HasRecords(s, Cut(op, items, unlinks, 0, dies - 1, l))
    ensures LeftAt(op, items[i], i, dies, unlinks(i), s, refs)
  {
    CutGoesInOrder(op, items, unlinks, 0, dies - 1, l, i);
    assert Spared(items[i], l.files, refs);
  }

  /** The rows of the report on an operation whose process died. */
  lemma RowsAfterDeath(op: Op, items: seq<Item>, unlinks: nat -> bool, dies: nat, s: State, db: Db, v: View)
    requires Receipts(s) && op in s.intents && s.intents[op] == items && Reports(v, s, db, op)
    requires forall i :: 0 <= i < |items| ==> LeftAt(op, items[i], i, dies, unlinks(i), s, db.refs)
    ensures |v.rows| == |items|
    ensures forall i :: 0 <= i < |items| ==>
      var row := v.rows[i];
      && row.sha == items[i].sha
      && row.phase == (if dies >= 3 * i + 4 then Settled_(if unlinks(i) then Removed else Preserved)
                       else if dies >= 3 * i + 2 then Unknown else Unattempted)
      && (row.eligible <==> dies < 3 * i + 2)
  {
    ReceiptsAreReadable(s, op);
    forall i | 0 <= i < |items|
      ensures var row := v.rows[i];
        && row.sha == items[i].sha
        && row.phase == (if dies >= 3 * i + 4 then Settled_(if unlinks(i) then Removed else Preserved)
                         else if dies >= 3 * i + 2 then Unknown else Unattempted)
        && (row.eligible <==> dies < 3 * i + 2)
    {
      assert items[i] in items && v.rows[i] == RowOf(s, db, op, items[i]);
      RowInFull(s, db, op, items[i]);
      assert LeftAt(op, items[i], i, dies, unlinks(i), s, db.refs);
    }
  }

  /** Its summary: there is something to continue exactly when the last object has no attempt. */
  lemma SummaryAfterDeath(op: Op, items: seq<Item>, unlinks: nat -> bool, dies: nat, s: State, db: Db, v: View)
    requires Receipts(s) && op in s.intents && s.intents[op] == items && Reports(v, s, db, op)
    requires forall i :: 0 <= i < |items| ==> LeftAt(op, items[i], i, dies, unlinks(i), s, db.refs)
    ensures v.resumable <==> dies + 1 < 3 * |items|
  {
    ReportInFull(v, s, db, op);
    forall x | x in items && (op, x.sha) !in s.attempts ensures Spared(x, s.files, db.refs) && dies + 1 < 3 * |items| {
      var i :| 0 <= i < |items| && items[i] == x;
      assert LeftAt(op, items[i], i, dies, unlinks(i), s, db.refs);
    }
    if items != [] {
      var last := |items| - 1;
      assert items[last] in items && LeftAt(op, items[last], last, dies, unlinks(last), s, db.refs);
    }
  }

  /** What a continuation, run to the end, leaves of it. */
  lemma SettledInOrder(op: Op, items: seq<Item>, outcomes: seq<Outcome>, dies: nat, ok: bool, again: bool, m: State, s: State,
                       refs: set<(string, Sha)>, i: nat)
    requires i < |items| && Ascending(items) && |outcomes| == |items| && outcomes[i] == OutcomeOf(again)
    requires LeftAt(op, items[i], i, dies, ok, m, refs)
    requires HasRecords(s, SweepAll(op, items, outcomes, Ledger(m.attempts, m.results, m.files, [])))
    ensures var k := (op, items[i].sha);
      && k in s.attempts
      && if dies < 3 * i + 2 then
           && k in s.results && s.results[k] == (if again then Removed else Preserved)
           && (Object(items[i].sha) in s.files <==> !again)
         else k in s.results <==> dies >= 3 * i + 4
  {
    var l := Ledger(m.attempts, m.results, m.files, []);
    SweepSettles(op, items, outcomes, l, i);
    if dies >= 3 * i + 2 { SweepKeepsReceipts(op, items, outcomes, l, (op, items[i].sha)); }
  }

  /** A process has died between an attempt and its result. */
  lemma BetweenReceipts(dies: nat, i: nat)
    ensures dies % 3 == 1 ==> !(3 * i + 2 <= dies < 3 * i + 4)
    ensures dies % 3 != 1 && dies >= 2 ==> var k := (dies - 2) / 3; 3 * k + 2 <= dies < 3 * k + 4
  {
    if 3 * i + 2 <= dies < 3 * i + 4 {
      assert dies == 3 * i + 2 || dies == 3 * (i + 1);
    }
  }

  /** It is finished unless the first process died there. */
  lemma FinishedAfterDeath(op: Op, items: seq<Item>, dies: nat, s: State, db: Db, v: View)
    requires 1 <= dies <= 3 * |items| && Receipts(s) && op in s.intents && s.intents[op] == items && Reports(v, s, db, op)
    requires forall i :: 0 <= i < |items| ==> ((op, items[i].sha) in s.results <==> dies < 3 * i + 2 || dies >= 3 * i + 4)
    ensures v.finished <==> dies % 3 == 1
  {
    ReportInFull(v, s, db, op);
    if dies % 3 != 1 {
      BetweenReceipts(dies, 0);
      var i := (dies - 2) / 3;
      assert items[i] in items && (op, items[i].sha) !in s.results;
    } else {
      forall x | x in items ensures (op, x.sha) in s.results {
        var i :| 0 <= i < |items| && items[i] == x;
        BetweenReceipts(dies, i);
      }
    }
  }

  /** The report of a pass lists exactly the objects it found without an attempt, in the order of the plan, each once and with
      its result: the j-th entry is of the object at the place `at[j]` of the plan. */
  lemma {:induction false} ReportsUnattempted(op: Op, items: seq<Item>, outcomes: seq<Outcome>, l: Ledger) returns (at: seq<nat>)
    requires |outcomes| == |items| && Ascending(items) && l.report == []
    ensures var report := SweepAll(op, items, outcomes, l).report;
      && |at| == |report| && (forall j, k :: 0 <= j < k < |at| ==> at[j] < at[k])
      && (forall j :: 0 <= j < |at| ==>
            at[j] < |items| && (op, items[at[j]].sha) !in l.attempts && report[j] == (items[at[j]].sha, outcomes[at[j]]))
      && (forall i :: 0 <= i < |items| && (op, items[i].sha) !in l.attempts ==> i in at)
    decreases |items|
  {
    at := [];
    if items != [] {
      var last := |items| - 1;
      at := ReportsUnattempted(op, items[..last], outcomes[..last], l);
      assert forall j :: 0 <= j < |at| ==> at[j] in at;
      SweepTouchesOnlyItems(op, items[..last], outcomes[..last], l, items[last].sha);
      if (op, items[last].sha) !in l.attempts {
        at := at + [last];
      }
    }
  }

  // ---------------------------------------------------------------- what a report says

  /** In a reachable state the receipts of every operation can be read. */
  lemma ReceiptsAreReadable(s: State, op: Op)
    requires Receipts(s) && op in s.intents
    ensures forall x :: x in s.intents[op] ==> Readable(s.attempts, s.results, op, x)
  {
    forall x | x in s.intents[op] ensures Readable(s.attempts, s.results, op, x) {
      var k := (op, x.sha);
      if k in s.attempts {
        var i :| 0 <= i < |s.intents[op]| && s.intents[op][i] == x;
        var j :| 0 <= j < |s.intents[op]| && s.intents[op][j] == s.attempts[k];
        assert i == j;
      }
    }
  }

  /** One row, on the receipts, the file and the references. */
  lemma RowInFull(s: State, db: Db, op: Op, item: Item)
    requires Readable(s.attempts, s.results, op, item)
    ensures var row, k, p := RowOf(s, db, op, item), (op, item.sha), Object(item.sha);
      && row.sha == item.sha
      && (row.phase == Unattempted <==> k !in s.attempts)
      && (row.phase == Unknown <==> k in s.attempts && k !in s.results)
      && (k in s.results ==> row.phase == Settled_(s.results[k]))
      && row.current == (if p in s.files then Some(Item(item.sha, s.files[p].size, s.files[p].stamp, s.files[p].digest)) else None)
      && (forall owner :: owner in row.owners <==> (owner, item.sha) in db.refs)
      && (row.eligible <==>
            && k !in s.attempts && p in s.files && s.files[p] == File(item.size, item.digest, item.stamp)
            && forall owner :: (owner, item.sha) !in db.refs)
  {
    if Referenced(db.refs, item.sha) {
      var r :| r in db.refs && r.1 == item.sha;
      assert (r.0, item.sha) in db.refs;
    }
  }

  /** A report, row by row and in its summary: finished when every object has a result, and to be continued when there is an
      object without an attempt, and every such object is exactly as planned and has no owner. */
  lemma ReportInFull(v: View, s: State, db: Db, op: Op)
    requires Receipts(s) && Reports(v, s, db, op)
    ensures |v.rows| == |s.intents[op]|
    ensures forall i :: 0 <= i < |v.rows| ==>
      var row, item := v.rows[i], s.intents[op][i];
      var k, p := (op, item.sha), Object(item.sha);
      && row.sha == item.sha
      && (row.phase == Unattempted <==> k !in s.attempts)
      && (row.phase == Unknown <==> k in s.attempts && k !in s.results)
      && (k in s.results ==> row.phase == Settled_(s.results[k]))
      && row.current == (if p in s.files then Some(Item(item.sha, s.files[p].size, s.files[p].stamp, s.files[p].digest)) else None)
      && (forall owner :: owner in row.owners <==> (owner, item.sha) in db.refs)
      && (row.eligible <==>
            && k !in s.attempts && p in s.files && s.files[p] == File(item.size, item.digest, item.stamp)
            && forall owner :: (owner, item.sha) !in db.refs)
    ensures v.finished <==> forall x :: x in s.intents[op] ==> (op, x.sha) in s.results
    ensures v.resumable <==>
      && (exists x :: x in s.intents[op] && (op, x.sha) !in s.attempts)
      && forall x :: x in s.intents[op] && (op, x.sha) !in s.attempts ==>
           && Object(x.sha) in s.files && s.files[Object(x.sha)] == File(x.size, x.digest, x.stamp)
           && forall owner :: (owner, x.sha) !in db.refs
  {
    ReceiptsAreReadable(s, op);
    forall x | x in s.intents[op]
      ensures (PhaseOf(s, op, x.sha) == Unattempted <==> (op, x.sha) !in s.attempts)
              && (PhaseOf(s, op, x.sha).Settled_? <==> (op, x.sha) in s.results)
              && (Eligible(s, db, op, x) <==> (op, x.sha) !in s.attempts && Spared(x, s.files, db.refs))
    {
      RowInFull(s, db, op, x);
    }
    forall i | 0 <= i < |v.rows| ensures v.rows[i] == RowOf(s, db, op, s.intents[op][i]) && s.intents[op][i] in s.intents[op] {}
    forall i | 0 <= i < |v.rows| {
      RowInFull(s, db, op, s.intents[op][i]);
    }
  }

  /** An operation that reads as it was just reported goes on exactly when the report says so. */
  lemma ReportedIsContinuable(op: Op, v: View, s: State, db: Db)
    requires Receipts(s) && Reports(v, s, db, op)
    ensures Continuable(op, v, s, db) <==> v.resumable && forall x :: x in s.intents[op] ==> Listable(db.refs, x)
  {
    ReceiptsAreReadable(s, op);
  }

  lemma {:induction false} FewReferencesAreListable(refs: set<(string, Sha)>, sha: Sha)
    ensures |Owners(refs, sha)| <= |refs|
    decreases |refs|
  {
    if refs != {} {
      var r :| r in refs;
      FewReferencesAreListable(refs - {r}, sha);
      assert Owners(refs, sha) <= Owners(refs - {r}, sha) + {r.0};
      Subset(Owners(refs, sha), Owners(refs - {r}, sha) + {r.0});
    }
  }

  lemma {:induction false} Subset(a: set<string>, b: set<string>)
    requires a <= b
    ensures |a| <= |b|
    decreases |a|
  {
    if a != {} {
      var x :| x in a;
      Subset(a - {x}, b - {x});
    }
  }

  /** When a collection may begin: under an unused id, of a plan that lists exactly the objects without owners, as they are. */
  lemma StartInFull(op: Op, approved: seq<Item>, s: State, db: Db)
    requires Receipts(s)
    ensures Startable(op, approved, s, db) <==>
      && op !in s.intents && |s.intents| < MAX_JOBS && |db.refs| <= MAX_OBJECTS && |Objects(s.files)| <= MAX_OBJECTS
      && (forall i, j :: 0 <= i < j < |approved| ==> approved[i].sha < approved[j].sha)
      && (forall x :: x in approved ==>
            && Object(x.sha) in s.files && s.files[Object(x.sha)] == File(x.size, x.digest, x.stamp)
            && forall owner :: (owner, x.sha) !in db.refs)
      && (forall sha: Sha :: Object(sha) in s.files && (forall owner :: (owner, sha) !in db.refs) ==>
            exists x :: x in approved && x.sha == sha)
  {
    forall sha: Sha {
      ReferencedHasOwner(db.refs, sha);
    }
  }

  /** A plan is a function of the state, so an approval of an unchanged preview is accepted. */
  lemma {:induction false} PlanIsUnique(xs: seq<Item>, ys: seq<Item>, db: Db, files: Files)
    requires IsPlan(xs, db, files) && IsPlan(ys, db, files)
    ensures xs == ys
  {
    forall x ensures x in xs <==> x in ys {}
    AscendingUnique(xs, ys);
  }

  lemma {:induction false} AscendingUnique(xs: seq<Item>, ys: seq<Item>)
    requires Ascending(xs) && Ascending(ys)
    requires forall x :: x in xs <==> x in ys
    ensures xs == ys
    decreases |xs|
  {
    HasMember(ys);
    if xs != [] {
      assert xs[0] in ys;
      var i :| 0 <= i < |ys| && ys[i] == xs[0];
      assert ys[0] in xs;
      var j :| 0 <= j < |xs| && xs[j] == ys[0];
      assert xs[0] == ys[0];
      forall x ensures x in xs[1..] <==> x in ys[1..] {
        if x in xs[1..] {
          assert x in ys;
          var k :| 1 <= k < |xs| && xs[k] == x;
        }
        if x in ys[1..] {
          assert x in xs;
          var k :| 1 <= k < |ys| && ys[k] == x;
        }
      }
      AscendingUnique(xs[1..], ys[1..]);
    }
  }

  /** Ascending names are different names. */
  lemma {:induction false} PlanFits(items: seq<Item>, names: set<Sha>)
    requires Ascending(items) && forall x :: x in items ==> x.sha in names
    ensures |items| <= |names|
    decreases |items|
  {
    if items != [] {
      var last := |items| - 1;
      forall i | 0 <= i < last ensures items[i].sha in names - {items[last].sha} {
        assert items[i] in items;
      }
      PlanFits(items[..last], names - {items[last].sha});
    }
  }

  lemma HasMember<T>(s: seq<T>)
    ensures s == [] || exists x :: x in s
  {
    if s != [] {
      assert s[0] in s;
    }
  }

  /** How the network answers: whether it does so acceptably, the pieces it sends, when the transfer is broken off, and
      whether the caller cancels after the last byte. */
  datatype Answer = Answer(reachable: bool, chunks: seq<(nat, Sha)>, stopped: nat -> bool, withdrawn: bool)

  ghost predicate Fetchable(sha: Sha, size: nat, db: Db, files: Files) {
    && PartSize(files, sha) <= size
    && (db.budget.Some? ==> Auditable(db, files) && Committed(db, files) + (size - PartSize(files, sha)) <= db.budget.value)
  }

  /** Nobody cancels, and if bytes are missing the answer supplies exactly those: the whole file then has the right digest. */
  ghost predicate Supplies(answer: Answer, sha: Sha, size: nat, files: Files) {
    var offset := PartSize(files, sha);
    && !answer.withdrawn && (forall i: nat :: !answer.stopped(i))
    && (offset < size ==>
          && answer.reachable && answer.chunks != [] && (forall i :: 0 <= i < |answer.chunks| ==> 1 <= answer.chunks[i].0)
          && offset + Bytes(answer.chunks) == size && answer.chunks[|answer.chunks| - 1].1 == sha)
  }

  /** A partial file from which the object can still be had: none, one begun and not finished, or one that is right. */
  predicate Completable(sha: Sha, size: nat, files: Files) {
    Partial(sha) in files ==>
      0 < files[Partial(sha)].size < size || (files[Partial(sha)].size == size && files[Partial(sha)].digest == sha)
  }

  /** The bytes in a sequence of pieces. */
  function Bytes(chunks: seq<(nat, Sha)>): nat {
    if chunks == [] then 0 else Bytes(chunks[..|chunks| - 1]) + chunks[|chunks| - 1].0
  }

  lemma {:induction false} BytesMonotone(chunks: seq<(nat, Sha)>, n: nat)
    requires n <= |chunks|
    ensures Bytes(chunks[..n]) <= Bytes(chunks)
    decreases |chunks|
  {
    if n < |chunks| {
      BytesMonotone(chunks[..|chunks| - 1], n);
      assert chunks[..|chunks| - 1][..n] == chunks[..n];
    } else {
      assert chunks[..n] == chunks;
    }
  }
}
