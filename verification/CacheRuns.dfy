/**
 * Runs that show where a plausible promise about the cache fails.
 */
module CacheRuns {
  import opened Basics
  import opened MapSum
  import opened CacheModel
  import opened CacheRefs
  import opened CacheWindow

  lemma OneMore(s: State, acts: seq<Act>, m: State, a: Act, t: State)
    requires Run(s, acts) == Some(m) && Enabled(m, a) && Next(m, a) == t
    ensures Run(s, acts + [a]) == Some(t)
  {
    RunStep(s, acts, m, a);
  }

  ghost predicate Leads(s: State, a: Act, t: State) {
    Enabled(s, a) && Next(s, a) == t
  }

  /** Each step leads from one state of the list to the next. */
  lemma {:induction false} StepsLead(s: State, acts: seq<Act>, states: seq<State>)
    requires |states| == |acts| && forall i {:trigger acts[i]} :: 0 <= i < |acts| ==>
               Leads(if i == 0 then s else states[i - 1], acts[i], states[i])
    ensures Run(s, acts) == Some(if acts == [] then s else states[|acts| - 1])
    decreases |acts|
  {
    if acts != [] {
      var last := |acts| - 1;
      StepsLead(s, acts[..last], states[..last]);
      assert acts == acts[..last] + [acts[last]];
      var m := if last == 0 then s else states[last - 1];
      assert Leads(m, acts[last], states[last]);
      OneMore(s, acts[..last], m, acts[last], states[last]);
    }
  }

  lemma TwoSteps(s: State, acts: seq<Act>, m: State, t: State)
    requires |acts| == 2 && Leads(s, acts[0], m) && Leads(m, acts[1], t)
    ensures Run(s, acts) == Some(t)
  {
    StepsLead(s, acts, [m, t]);
  }

  lemma ThreeSteps(s: State, acts: seq<Act>, m: State, n: State, t: State)
    requires |acts| == 3 && Leads(s, acts[0], m) && Leads(m, acts[1], n) && Leads(n, acts[2], t)
    ensures Run(s, acts) == Some(t)
  {
    StepsLead(s, acts, [m, n, t]);
  }

  // ---------------------------------------------------------------- an upload of one byte, under a budget or none

  const EMPTY_ROW := Upload(7, 1, 0, Uploading)
  const FULL_ROW := Upload(7, 1, 1, Uploading)

  function Begun(budget: Option<nat>): State {
    EMPTY.(db := Db({}, budget, map["a" := EMPTY_ROW]), files := map[Staged("a") := File(0, 0, 0)], nextStamp := 1)
  }

  function Stored(budget: Option<nat>): State {
    Begun(budget).(db := Db({}, budget, map["a" := FULL_ROW]), files := map[Staged("a") := File(1, 7, 0)])
  }

  function Registered(budget: Option<nat>): State {
    Stored(budget).(db := Db({(UPLOAD + "a", 7)}, budget, map["a" := FULL_ROW]))
  }

  const BEGIN_STEPS := [Session(Lock), Transfer(Begin("a", 7, 1)), Session(Commit)]
  const STORE_STEPS := [Session(Lock), Transfer(Store("a", 1, 7)), Transfer(Record("a"))]
  const REFERENCE_STEPS := [Session(Lock), Transfer(Reference("a")), Session(Commit)]
  const UPLOAD_STEPS := BEGIN_STEPS + (STORE_STEPS + [Session(Commit)]) + REFERENCE_STEPS

  lemma NothingCommitted(budget: Option<nat>)
    ensures Committed(Db({}, budget, map[]), map[]) == 0
  {
    assert FileSizes(map[]) == map[] && Claims(map[], map[], true) == map[];
  }

  lemma RunsBegin(budget: Option<nat>)
    requires budget.Some? ==> budget.value >= 1
    ensures Run(EMPTY.(db := Db({}, budget, map[])), BEGIN_STEPS) == Some(Begun(budget))
  {
    var s := EMPTY.(db := Db({}, budget, map[]));
    NothingCommitted(budget);
    var m := Next(s, BEGIN_STEPS[0]);
    ThreeSteps(s, BEGIN_STEPS, m, Next(m, BEGIN_STEPS[1]), Begun(budget));
  }

  lemma RunsStore(budget: Option<nat>)
    ensures Run(Begun(budget), STORE_STEPS + [Session(Commit)]) == Some(Stored(budget))
  {
    var s, t := Begun(budget), Stored(budget);
    var full := s.(files := t.files, txn := Some(Txn(t.db, Done)));
    assert Grow(s.files, Staged("a"), 1, 7) == full.files;
    assert s.db.uploads["a" := FULL_ROW] == t.db.uploads;
    var m := Next(s, STORE_STEPS[0]);
    ThreeSteps(s, STORE_STEPS, m, Next(m, STORE_STEPS[1]), full);
    OneMore(s, STORE_STEPS, full, Session(Commit), t);
  }

  lemma RunsReference(budget: Option<nat>)
    ensures Run(Stored(budget), REFERENCE_STEPS) == Some(Registered(budget))
  {
    var s := Stored(budget);
    var m := Next(s, REFERENCE_STEPS[0]);
    ThreeSteps(s, REFERENCE_STEPS, m, Next(m, REFERENCE_STEPS[1]), Registered(budget));
  }

  lemma RunsUpload(budget: Option<nat>)
    requires budget.Some? ==> budget.value >= 1
    ensures Run(EMPTY.(db := Db({}, budget, map[])), UPLOAD_STEPS) == Some(Registered(budget))
  {
    var s := EMPTY.(db := Db({}, budget, map[]));
    RunsBegin(budget);
    RunsStore(budget);
    RunsReference(budget);
    var store := STORE_STEPS + [Session(Commit)];
    RunConcat(s, BEGIN_STEPS, Begun(budget), store);
    RunConcat(s, BEGIN_STEPS + store, Stored(budget), REFERENCE_STEPS);
  }

  /** A reference can precede its object: finishing an upload records the one first. */
  lemma UploadReferencePrecedesObject() returns (acts: seq<Act>, t: State)
    ensures ManagedRun(acts) && Run(EMPTY, acts) == Some(t)
    ensures (UPLOAD + "a", 7) in t.db.refs && Object(7) !in t.files
  {
    RunsUpload(None);
    acts, t := UPLOAD_STEPS, Registered(None);
  }

  // ---------------------------------------------------------------- the budget

  const BUDGET_STEPS := [Session(Lock), Register(SetBudget(1)), Session(Commit)]
  const PUBLISH_STEPS := [Session(Lock), Transfer(Publish("a")), Session(Crash)]

  function Crashed(budget: Option<nat>): State {
    Registered(budget).(files := map[Object(7) := File(1, 7, 0)])
  }

  lemma RunsBudget()
    ensures Run(EMPTY, BUDGET_STEPS) == Some(EMPTY.(db := Db({}, Some(1), map[])))
  {
    NothingCommitted(None);
    var m := Next(EMPTY, BUDGET_STEPS[0]);
    ThreeSteps(EMPTY, BUDGET_STEPS, m, Next(m, BUDGET_STEPS[1]), EMPTY.(db := Db({}, Some(1), map[])));
  }

  lemma RunsPublish(budget: Option<nat>)
    ensures Run(Registered(budget), PUBLISH_STEPS) == Some(Crashed(budget))
  {
    var s := Registered(budget);
    assert Move(s.files, Staged("a"), Object(7)) == Crashed(budget).files;
    var m := Next(s, PUBLISH_STEPS[0]);
    ThreeSteps(s, PUBLISH_STEPS, m, Next(m, PUBLISH_STEPS[1]), Crashed(budget));
  }

  lemma CountedTwice(budget: Option<nat>)
    ensures Committed(Crashed(budget).db, Crashed(budget).files) == 2
  {
    var sizes, claims := FileSizes(Crashed(budget).files), Claims(Crashed(budget).db.uploads, Crashed(budget).files, true);
    assert sizes == map[Object(7) := 1] && claims == map["a" := 1];
    TotalRemove(sizes, Object(7));
    TotalRemove(claims, "a");
    assert sizes - {Object(7)} == map[] && claims - {"a"} == map[];
  }

  /** A crash between publishing an upload and recording it leaves twice its size committed, here over a budget of one byte. */
  lemma PublishedUploadOverdraws() returns (acts: seq<Act>, t: State)
    ensures ManagedRun(acts) && Run(EMPTY, acts) == Some(t) && t.txn.None?
    ensures t.db.budget == Some(1) && Committed(t.db, t.files) == 2
  {
    RunsBudget();
    RunsUpload(Some(1));
    RunsPublish(Some(1));
    CountedTwice(Some(1));
    acts, t := BUDGET_STEPS + UPLOAD_STEPS + PUBLISH_STEPS, Crashed(Some(1));
    RunConcat(EMPTY, BUDGET_STEPS, EMPTY.(db := Db({}, Some(1), map[])), UPLOAD_STEPS);
    RunConcat(EMPTY, BUDGET_STEPS + UPLOAD_STEPS, Registered(Some(1)), PUBLISH_STEPS);
    AllManaged();
  }

  lemma AllManaged()
    ensures ManagedRun(BUDGET_STEPS + UPLOAD_STEPS + PUBLISH_STEPS)
  {
    ManagedConcat(BEGIN_STEPS, STORE_STEPS + [Session(Commit)]);
    ManagedConcat(BEGIN_STEPS + (STORE_STEPS + [Session(Commit)]), REFERENCE_STEPS);
    ManagedConcat(BUDGET_STEPS, UPLOAD_STEPS);
    ManagedConcat(BUDGET_STEPS + UPLOAD_STEPS, PUBLISH_STEPS);
  }

  lemma ManagedConcat(a: seq<Act>, b: seq<Act>)
    requires ManagedRun(a) && ManagedRun(b)
    ensures ManagedRun(a + b)
  {
  }

  // ---------------------------------------------------------------- the empty partial file

  const FETCH_STEPS := [Session(Lock), Download(Fetch(7, 1)), Download(Open)]

  /** A download that dies after it has created its file leaves that file stranded. */
  lemma EmptyPartialIsReachable() returns (acts: seq<Act>, t: State)
    ensures ManagedRun(acts) && Run(EMPTY, acts) == Some(t) && t.txn.None? && Blocked(7, t.files)
  {
    RunsOpen();
    t := OPENED.(txn := None);
    OneMore(EMPTY, FETCH_STEPS, OPENED, Session(Crash), t);
    acts := FETCH_STEPS + [Session(Crash)];
  }

  // ---------------------------------------------------------------- wrong bytes twice

  const OPENED := EMPTY.(files := map[Partial(7) := File(0, 0, 0)], nextStamp := 1, txn := Some(FETCHING))
  const SERVED := OPENED.(files := map[Partial(7) := File(1, 8, 0)])
  const SET_ASIDE := EMPTY.(files := map[Quarantine(7, 8) := File(1, 8, 0)], nextStamp := 1)
  const REOPENED := SET_ASIDE.(files := map[Quarantine(7, 8) := File(1, 8, 0), Partial(7) := File(0, 0, 1)], nextStamp := 2,
                               txn := Some(FETCHING))
  const SERVED_AGAIN := REOPENED.(files := map[Quarantine(7, 8) := File(1, 8, 0), Partial(7) := File(1, 8, 1)])
  const CONDEMNED := SERVED_AGAIN.(txn := None)

  const FETCHING := Txn(Db({}, None, map[]), Fetching(7, 1, true))
  const ASIDE_STEPS := FETCH_STEPS + [Download(Write(1, 8))] + [Download(Isolate)]
  const AGAIN_STEPS := FETCH_STEPS + [Download(Write(1, 8))] + [Session(Crash)]

  lemma RunsOpen()
    ensures Run(EMPTY, FETCH_STEPS) == Some(OPENED)
  {
    var m := Next(EMPTY, FETCH_STEPS[0]);
    ThreeSteps(EMPTY, FETCH_STEPS, m, Next(m, FETCH_STEPS[1]), OPENED);
  }

  lemma RunsReopen()
    ensures Run(SET_ASIDE, FETCH_STEPS) == Some(REOPENED)
  {
    var m := Next(SET_ASIDE, FETCH_STEPS[0]);
    assert SET_ASIDE.files[Partial(7) := File(0, 0, 1)] == REOPENED.files;
    ThreeSteps(SET_ASIDE, FETCH_STEPS, m, Next(m, FETCH_STEPS[1]), REOPENED);
  }

  lemma RunsAside()
    ensures Run(EMPTY, ASIDE_STEPS) == Some(SET_ASIDE)
  {
    RunsOpen();
    assert Grow(OPENED.files, Partial(7), 1, 8) == SERVED.files;
    OneMore(EMPTY, FETCH_STEPS, OPENED, Download(Write(1, 8)), SERVED);
    assert Move(SERVED.files, Partial(7), Quarantine(7, 8)) == SET_ASIDE.files;
    OneMore(EMPTY, FETCH_STEPS + [Download(Write(1, 8))], SERVED, Download(Isolate), SET_ASIDE);
  }

  lemma RunsAgain()
    ensures Run(SET_ASIDE, AGAIN_STEPS) == Some(CONDEMNED)
  {
    RunsReopen();
    assert Grow(REOPENED.files, Partial(7), 1, 8) == SERVED_AGAIN.files;
    OneMore(SET_ASIDE, FETCH_STEPS, REOPENED, Download(Write(1, 8)), SERVED_AGAIN);
    OneMore(SET_ASIDE, FETCH_STEPS + [Download(Write(1, 8))], SERVED_AGAIN, Session(Crash), CONDEMNED);
  }

  /** The same wrong bytes, served twice: the first file is set aside, and the second, whose place is taken, stays for good. */
  lemma CondemnedPartialIsReachable() returns (acts: seq<Act>, t: State)
    ensures ManagedRun(acts) && Run(EMPTY, acts) == Some(t) && t.txn.None? && Condemned(7, 1, t.files)
  {
    RunsAside();
    RunsAgain();
    RunConcat(EMPTY, ASIDE_STEPS, SET_ASIDE, AGAIN_STEPS);
    ManagedConcat(ASIDE_STEPS, AGAIN_STEPS);
    acts, t := ASIDE_STEPS + AGAIN_STEPS, CONDEMNED;
  }

  // ---------------------------------------------------------------- a file replaced between the second look and the unlink

  const PLANNED := Item(7, 1, 0, 7)
  const WITH_OBJECT := EMPTY.(files := map[Object(7) := File(1, 7, 0)], nextStamp := 1)
  const WITH_ATTEMPT := WITH_OBJECT.(intents := map["op" := [PLANNED]], attempts := map[("op", 7) := PLANNED],
                                     txn := Some(Txn(Db({}, None, map[]), Sweeping("op", [PLANNED], 0, Tried))))
  const WITH_ANOTHER := WITH_ATTEMPT.(files := map[Object(7) := File(2, 8, 1)], nextStamp := 2,
                                      txn := Some(Txn(Db({}, None, map[]), Sweeping("op", [PLANNED], 0, Checked))))
  const WITH_RESULT := WITH_ANOTHER.(files := map[], unlinked := [Removal("op", PLANNED, File(2, 8, 1))],
                                     results := map[("op", 7) := Removed],
                                     txn := Some(Txn(Db({}, None, map[]), Sweeping("op", [PLANNED], 1, Ready))))

  const ATTEMPT_STEPS := [Session(Lock), Collect(Plan("op", [PLANNED])), Collect(Attempt)]
  const WINDOW_STEPS := [Collect(Recheck), Outside(Replace(Object(7), 2, 8))]
  const UNLINK_STEPS := [Collect(Unlink(true)), Collect(Settle)]

  lemma RunsAttempt()
    ensures Run(WITH_OBJECT, ATTEMPT_STEPS) == Some(WITH_ATTEMPT)
  {
    var m := Next(WITH_OBJECT, ATTEMPT_STEPS[0]);
    assert Objects(WITH_OBJECT.files) == {7};
    ThreeSteps(WITH_OBJECT, ATTEMPT_STEPS, m, Next(m, ATTEMPT_STEPS[1]), WITH_ATTEMPT);
  }

  lemma RunsWindow()
    ensures Run(WITH_ATTEMPT, WINDOW_STEPS) == Some(WITH_ANOTHER)
  {
    TwoSteps(WITH_ATTEMPT, WINDOW_STEPS, Next(WITH_ATTEMPT, WINDOW_STEPS[0]), WITH_ANOTHER);
  }

  lemma RunsUnlink()
    ensures Run(WITH_ANOTHER, UNLINK_STEPS) == Some(WITH_RESULT)
  {
    var m := Next(WITH_ANOTHER, UNLINK_STEPS[0]);
    assert WITH_ANOTHER.files - {Object(7)} == map[];
    TwoSteps(WITH_ANOTHER, UNLINK_STEPS, m, WITH_RESULT);
  }

  /** A program that ignores the lock replaces the object between the second look and the unlink: the planned file is already
      gone, another is taken, and the result says removed. */
  lemma PlanTakesAnother() returns (acts: seq<Act>, t: State)
    ensures Run(EMPTY, acts) == Some(t) && ("op", 7) in t.results && t.results[("op", 7)] == Removed
    ensures |t.unlinked| == 1 && t.unlinked[0].item == PLANNED && !Exact(t.unlinked[0])
  {
    OneMore(EMPTY, [], EMPTY, Outside(Replace(Object(7), 1, 7)), WITH_OBJECT);
    RunsAttempt();
    RunsWindow();
    RunsUnlink();
    var first := [] + [Outside(Replace(Object(7), 1, 7))];
    RunConcat(EMPTY, first, WITH_OBJECT, ATTEMPT_STEPS);
    RunConcat(EMPTY, first + ATTEMPT_STEPS, WITH_ATTEMPT, WINDOW_STEPS);
    RunConcat(EMPTY, first + ATTEMPT_STEPS + WINDOW_STEPS, WITH_ANOTHER, UNLINK_STEPS);
    acts, t := first + ATTEMPT_STEPS + WINDOW_STEPS + UNLINK_STEPS, WITH_RESULT;
  }
}
