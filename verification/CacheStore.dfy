/**
 * The cache as a program changes it: each method takes the lock, works step by step on files, receipts and the open
 * transaction, and commits or rolls back. `Valid` ties the object to the steps of CacheModel, so every safety result
 * about runs holds of it.
 */
module CacheStore {
  import opened Basics
  import opened MapSum
  import opened CacheModel
  import opened CacheLedger
  import opened CacheSweep
  import opened CacheRefs
  import opened CacheWindow
  import CacheBudget

  /** The names of a directory, sorted. */
  method Sorted(names: set<nat>) returns (r: seq<nat>)
    ensures forall i, j :: 0 <= i < j < |r| ==> r[i] < r[j]
    ensures forall x :: x in r <==> x in names
  {
    r := [];
    var rest := names;
    while rest != {}
      invariant rest <= names
      invariant forall i, j :: 0 <= i < j < |r| ==> r[i] < r[j]
      invariant forall x :: x in r <==> x in names && x !in rest
      invariant forall x, y :: x in r && y in rest ==> x < y
      decreases |rest|
    {
      var least := Least(rest);
      assert forall i :: 0 <= i < |r| ==> r[i] in r;
      r, rest := r + [least], rest - {least};
    }
  }

  method Least(names: set<nat>) returns (m: nat)
    requires names != {}
    ensures m in names && forall x :: x in names ==> m <= x
  {
    m :| m in names;
    var rest := names - {m};
    while rest != {}
      invariant rest <= names && m in names
      invariant forall x :: x in names && x !in rest ==> m <= x
      decreases |rest|
    {
      var x :| x in rest;
      if x < m { m := x; }
      rest := rest - {x};
    }
  }

  class ContentCache {
    var db: Db
    var pending: Option<Db>                       // the open transaction's copy of the database
    var files: Files
    var intents: map<Op, seq<Item>>
    var attempts: map<(Op, Sha), Item>
    var results: map<(Op, Sha), Outcome>
    var nextStamp: nat
    ghost var work: Work
    ghost var unlinked: seq<Removal>
    ghost var trace: seq<Act>                     // every step since the cache was created

    ghost function S(): State
      reads this
    {
      State(db, if pending.Some? then Some(Txn(pending.value, work)) else None,
            files, intents, attempts, results, nextStamp, unlinked)
    }

    ghost predicate Valid()
      reads this
    {
      Run(EMPTY, trace) == Some(S())
    }

    constructor ()
      ensures Valid() && S() == EMPTY && trace == []
    {
      db, pending, files, intents, attempts, results, nextStamp := Db({}, None, map[]), None, map[], map[], map[], map[], 0;
      work, unlinked, trace := Fresh, [], [];
    }

    ghost method Log(before: State, a: Act)
      requires Run(EMPTY, trace) == Some(before) && Enabled(before, a) && S() == Next(before, a)
      modifies this`trace
      ensures trace == old(trace) + [a] && Valid()
    {
      RunStep(EMPTY, trace, before, a);
      trace := trace + [a];
    }

    // -------------------------------------------------------------- the lock

    method Begin() returns (ok: bool)
      requires Valid()
      modifies this`pending, this`work, this`trace
      ensures Valid() && ManagedSince(old(trace), trace)
      ensures ok <==> old(pending).None?
      ensures if ok then S() == old(S()).(txn := Some(Txn(db, Fresh))) else S() == old(S())
    {
      ok := pending.None?;
      if ok {
        ghost var before := S();
        pending, work := Some(db), Fresh;
        Log(before, Session(Lock));
      }
    }

    method Commit()
      requires Valid() && CanSession(S(), CacheModel.Commit)
      modifies this`db, this`pending, this`trace
      ensures Valid() && trace == old(trace) + [Session(CacheModel.Commit)]
      ensures S() == old(S()).(db := old(pending).value, txn := None)
    {
      ghost var before := S();
      db, pending := pending.value, None;
      Log(before, Session(CacheModel.Commit));
    }

    /** What the database does when the process dies or an exception leaves the transaction. */
    method Rollback()
      requires Valid()
      modifies this`pending, this`trace
      ensures Valid() && trace == old(trace) + [Session(Crash)]
      ensures S() == old(S()).(txn := None)
    {
      ghost var before := S();
      pending := None;
      Log(before, Session(Crash));
    }

    // -------------------------------------------------------------- references

    method Pin(owner: string, sha: Sha) returns (ok: bool)
      requires Valid()
      modifies this
      ensures Valid() && ManagedSince(old(trace), trace)
      ensures ok <==> old(pending).None? && Identifier(owner) && Object(sha) in old(files) && old(files)[Object(sha)].digest == sha
      ensures ok ==> S() == old(S()).(db := old(db).(refs := old(db).refs + {(owner, sha)}))
      ensures !ok ==> S() == old(S())
    {
      ok := Identifier(owner);
      if !ok { return; }
      ok := Begin();
      if !ok { return; }
      if Object(sha) !in files || files[Object(sha)].digest != sha {
        Rollback();
        return false;
      }
      ghost var before := S();
      pending, work := Some(pending.value.(refs := pending.value.refs + {(owner, sha)})), Done;
      Log(before, Register(CacheModel.Pin(owner, sha)));
      Commit();
    }

    method Unpin(owner: string, sha: Sha) returns (ok: bool)
      requires Valid()
      modifies this
      ensures Valid() && ManagedSince(old(trace), trace)
      ensures ok <==> old(pending).None? && Identifier(owner) && !InstanceOwner(owner)
      ensures ok ==> S() == old(S()).(db := old(db).(refs := old(db).refs - {(owner, sha)}))
      ensures !ok ==> S() == old(S())
    {
      ok := Identifier(owner) && !InstanceOwner(owner);
      if !ok { return; }
      ok := Begin();
      if !ok { return; }
      ghost var before := S();
      pending, work := Some(pending.value.(refs := pending.value.refs - {(owner, sha)})), Done;
      Log(before, Register(CacheModel.Unpin(owner, sha)));
      Commit();
    }

    // -------------------------------------------------------------- the budget

    method Payload() returns (total: nat)
      ensures total == Total(FileSizes(files))
    {
      total := 0;
      var paths := files.Keys;
      ghost var rest := FileSizes(files);
      while paths != {}
        invariant paths == rest.Keys
        invariant forall p :: p in rest ==> p in files && rest[p] == files[p].size
        invariant total + Total(rest) == Total(FileSizes(files))
        decreases |paths|
      {
        var p :| p in paths;
        TotalRemove(rest, p);
        paths, rest := paths - {p}, rest - {p};
        total := total + files[p].size;
      }
    }

    /** The reservations of the open uploads; refuses a row that its staged file contradicts. */
    method Reserved(uploads: map<string, Upload>) returns (r: Result<nat>)
      ensures r.Ok? <==> forall id :: id in OpenRows(uploads) ==> Plausible(id, uploads[id], files)
      ensures r.Ok? ==> r.value == Total(Claims(uploads, files, true))
    {
      var reserved, ids := 0, uploads.Keys;
      ghost var rest := Claims(uploads, files, true);
      while ids != {}
        invariant ids == rest.Keys
        invariant forall id :: id in rest ==> id in uploads && rest[id] == Claim(id, uploads[id], files, uploads[id].size)
        invariant reserved + Total(rest) == Total(Claims(uploads, files, true))
        invariant forall id :: id in uploads && id !in ids && uploads[id].phase == Uploading ==> Plausible(id, uploads[id], files)
        decreases |ids|
      {
        var id :| id in ids;
        TotalRemove(rest, id);
        ids, rest := ids - {id}, rest - {id};
        var row := uploads[id];
        if row.phase == Uploading {
          if !Plausible(id, row, files) { return Err("identity-unknown"); }
          reserved := reserved + if Staged(id) in files then row.size - files[Staged(id)].size else row.size;
        }
      }
      return Ok(reserved);
    }

    /** Adds up payload and reservations. */
    method Usage() returns (r: Result<nat>)
      requires pending.Some?
      ensures r.Ok? ==> Countable(pending.value, files) && r.value == Committed(pending.value, files)
      ensures r.Ok? <==> Auditable(pending.value, files)
    {
      if |files| > MAX_OBJECTS || |OpenRows(pending.value.uploads)| > MAX_OBJECTS { return Err("storage-insufficient"); }
      var payload := Payload();
      r := Reserved(pending.value.uploads);
      if r.Ok? { r := Ok(payload + r.value); }
    }

    /** Room for `additional` bytes, when a budget is registered at all. */
    method Admit(additional: nat) returns (ok: bool)
      requires pending.Some?
      ensures ok ==> Admits(pending.value, files, additional)
      ensures ok <==> pending.value.budget.Some? ==>
                        Auditable(pending.value, files) && Committed(pending.value, files) + additional <= pending.value.budget.value
    {
      if pending.value.budget.None? { return true; }
      var usage := Usage();
      return usage.Ok? && usage.value + additional <= pending.value.budget.value;
    }

    method BudgetVerdict(maximum: nat, expected: (nat, Db, Files)) returns (ok: bool)
      requires pending.Some?
      ensures ok <==> Acceptable(maximum, expected, pending.value, files)
      ensures ok ==> CanRegister(State(db, Some(Txn(pending.value, Fresh)), files, intents, attempts, results, nextStamp, unlinked),
                                 SetBudget(maximum))
    {
      if !(1 <= maximum <= MAX_BYTES) || |pending.value.refs| > MAX_OBJECTS { return false; }
      var usage := Usage();
      return usage.Ok? && expected == (maximum, pending.value, files) && usage.value <= maximum;
    }

    method BudgetApply(maximum: nat, expected: (nat, Db, Files)) returns (ok: bool)
      requires Valid()
      modifies this`db, this`pending, this`work, this`trace
      ensures Valid() && ManagedSince(old(trace), trace)
      ensures ok <==>
        && old(pending).None? && 1 <= maximum <= MAX_BYTES && expected == (maximum, old(db), files)
        && |old(db).refs| <= MAX_OBJECTS && Auditable(old(db), files) && Committed(old(db), files) <= maximum
      ensures S() == if ok then old(S()).(db := old(db).(budget := Some(maximum))) else old(S())
    {
      ok := Begin();
      if !ok { return; }
      ok := BudgetVerdict(maximum, expected);
      if ok {
        SettleBudget(maximum);
      } else {
        Rollback();
      }
    }

    method SettleBudget(maximum: nat)
      requires Valid() && CanRegister(S(), SetBudget(maximum)) && pending == Some(db)
      modifies this`db, this`pending, this`work, this`trace
      ensures Valid() && ManagedSince(old(trace), trace)
      ensures pending == None && db == old(db).(budget := Some(maximum))
    {
      RegisterBudget(maximum);
      Commit();
    }

    method RegisterBudget(maximum: nat)
      requires Valid() && CanRegister(S(), SetBudget(maximum))
      modifies this`pending, this`work, this`trace
      ensures Valid() && trace == old(trace) + [Register(SetBudget(maximum))]
      ensures S() == DoRegister(old(S()), SetBudget(maximum))
    {
      ghost var before := S();
      pending, work := Some(pending.value.(budget := Some(maximum))), Done;
      Log(before, Register(SetBudget(maximum)));
    }

    // -------------------------------------------------------------- collection

    /** The plan a collection would follow now. */
    method Candidates() returns (r: Result<seq<Item>>)
      requires pending.Some?
      ensures r.Ok? <==> |pending.value.refs| <= MAX_OBJECTS && |Objects(files)| <= MAX_OBJECTS
      ensures r.Ok? ==> IsPlan(r.value, pending.value, files)
    {
      var names := Objects(files);
      if |pending.value.refs| > MAX_OBJECTS || |names| > MAX_OBJECTS { return Err("storage-insufficient"); }
      var referenced := set x | x in pending.value.refs :: x.1;
      var paths := Sorted(names);
      var items: seq<Item> := [];
      assert forall k :: 0 <= k < |paths| ==> paths[k] in paths;
      for i := 0 to |paths|
        invariant forall x :: x in items ==>
                    Object(x.sha) in files && x.sha !in referenced && x == Snapshot(x.sha, files[Object(x.sha)])
        invariant forall x :: x in items && i < |paths| ==> x.sha < paths[i]
        invariant Ascending(items)
        invariant forall k :: 0 <= k < |paths| ==> Object(paths[k]) in files
        invariant forall k :: 0 <= k < i && paths[k] !in referenced ==> Snapshot(paths[k], files[Object(paths[k])]) in items
      {
        assert paths[i] in paths;
        if paths[i] !in referenced {
          assert forall k :: 0 <= k < |items| ==> items[k] in items;
          items := items + [Snapshot(paths[i], files[Object(paths[i])])];
        }
      }
      assert forall sha :: Object(sha) in files ==> sha in paths;
      return Ok(items);
    }

    /** What the receipts and the objects say of an operation now. */
    method Status(op: Op) returns (r: Result<View>)
      requires pending.Some?
      ensures r.Ok? ==> op in intents && Reports(r.value, S(), pending.value, op)
      ensures r.Ok? <==>
                && op in intents
                && forall x :: x in intents[op] ==> Readable(attempts, results, op, x) && Listable(pending.value.refs, x)
    {
      if op !in intents { return Err("identity-unknown"); }
      var items, rows := intents[op], [];
      for i := 0 to |items|
        invariant |rows| == i
        invariant forall k :: 0 <= k < i ==> rows[k] == RowOf(S(), pending.value, op, items[k])
        invariant forall k :: 0 <= k < i ==> Readable(attempts, results, op, items[k]) && Listable(pending.value.refs, items[k])
      {
        if !Readable(attempts, results, op, items[i]) { return Err("identity-unknown"); }
        if !Listable(pending.value.refs, items[i]) { return Err("storage-insufficient"); }
        var row := ReadRow(op, items[i]);
        rows := rows + [row];
      }
      var open := exists k :: 0 <= k < |rows| && rows[k].phase == Unattempted;
      var unknown := exists k :: 0 <= k < |rows| && rows[k].phase == Unknown;
      var eligible := forall k :: 0 <= k < |rows| && rows[k].phase == Unattempted ==> rows[k].eligible;
      SummaryOfRows(S(), pending.value, op, rows);
      return Ok(View(rows, !open && !unknown, open && eligible));
    }

    method ReadRow(op: Op, item: Item) returns (row: Row)
      requires pending.Some? && Readable(attempts, results, op, item)
      ensures row == RowOf(S(), pending.value, op, item)
    {
      var name := item.sha;
      var phase := if (op, name) in results then Settled_(results[(op, name)])
                   else if (op, name) in attempts then Unknown else Unattempted;
      var current := if Object(name) in files then Some(Snapshot(name, files[Object(name)])) else None;
      var owners := Owners(pending.value.refs, name);
      NoOwners(pending.value.refs, name);
      row := Row(name, phase, current, owners, phase == Unattempted && current == Some(item) && owners == {});
    }

    /** Other programs, which ignore the lock, change files. */
    method Interfere(acts: seq<OutsideAct>)
      requires Valid()
      modifies this`files, this`nextStamp, this`trace
      ensures Valid() && old(trace) <= trace
      ensures acts == [] ==> files == old(files) && nextStamp == old(nextStamp) && trace == old(trace)
    {
      for i := 0 to |acts|
        invariant Valid() && old(trace) <= trace
        invariant i == 0 ==> files == old(files) && nextStamp == old(nextStamp) && trace == old(trace)
      {
        if acts[i].Replace? || acts[i].path in files { Meddle(acts[i]); }
      }
    }

    method Meddle(a: OutsideAct)
      requires Valid() && (a.Replace? || a.path in files)
      modifies this`files, this`nextStamp, this`trace
      ensures Valid() && trace == old(trace) + [Outside(a)]
    {
      ghost var before := S();
      match a {
        case Replace(path, size, digest) =>
          files, nextStamp := files[path := File(size, digest, nextStamp)], nextStamp + 1;
        case Remove(path) => files := files - {path};
      }
      Log(before, Outside(a));
    }

    ghost method SkipAttempted()
      requires Valid() && CanCollect(S(), Skip)
      modifies this`work, this`trace
      ensures Valid() && trace == old(trace) + [Collect(Skip)] && work == old(work).(index := old(work).index + 1)
    {
      ghost var before := S();
      work := work.(index := work.index + 1);
      Log(before, Collect(Skip));
    }

    method RecordAttempt(op: Op, item: Item)
      requires Valid() && CanCollect(S(), Attempt) && op == work.op && item == Current(S())
      modifies this`attempts, this`work, this`trace
      ensures Valid() && trace == old(trace) + [Collect(Attempt)] && work == old(work).(stage := Tried)
      ensures attempts == old(attempts)[(op, item.sha) := item]
    {
      ghost var before := S();
      attempts := attempts[(op, item.sha) := item];
      work := work.(stage := Tried);
      Log(before, Collect(Attempt));
    }

    ghost method NoteRecheck(op: Op, item: Item)
      requires Valid() && CanCollect(S(), Recheck) && op == work.op && item == Current(S())
      modifies this`work, this`trace
      ensures Valid() && trace == old(trace) + [Collect(Recheck)] && work == old(work).(stage := Checked)
    {
      ghost var before := S();
      work := work.(stage := Checked);
      Log(before, Collect(Recheck));
    }

    /** Takes whatever file has the name by now; `ok` says whether the system removes it if there is one. */
    method UnlinkObject(op: Op, item: Item, ok: bool) returns (outcome: Outcome)
      requires Valid() && SweepingAt(S(), Checked) && op == work.op && item == Current(S())
      modifies this`files, this`unlinked, this`work, this`trace
      ensures outcome == OutcomeOf(ok && Object(item.sha) in old(files))
      ensures Valid() && trace == old(trace) + [Collect(Unlink(outcome == Removed))]
      ensures work == old(work).(stage := Settled(outcome))
      ensures files == if outcome == Removed then old(files) - {Object(item.sha)} else old(files)
    {
      ghost var before := S();
      outcome := OutcomeOf(ok && Object(item.sha) in files);
      if outcome == Removed {
        unlinked := unlinked + [Removal(op, item, files[Object(item.sha)])];
        files := files - {Object(item.sha)};
      }
      work := work.(stage := Settled(outcome));
      Log(before, Collect(Unlink(outcome == Removed)));
    }

    method RecordResult(op: Op, item: Item, outcome: Outcome)
      requires Valid() && CanCollect(S(), Settle) && op == work.op && item == Current(S()) && work.stage.outcome == outcome
      modifies this`results, this`work, this`trace
      ensures Valid() && trace == old(trace) + [Collect(Settle)]
      ensures work == old(work).(stage := Ready, index := old(work).index + 1)
      ensures results == old(results)[(op, item.sha) := outcome]
    {
      ghost var before := S();
      results := results[(op, item.sha) := outcome];
      work := work.(stage := Ready, index := work.index + 1);
      Log(before, Collect(Settle));
    }

    /** The unlink and the result on disk. */
    method TakeOne(op: Op, item: Item, life: nat, ok: bool) returns (failure: Option<string>, outcome: Outcome)
      requires Valid() && SweepingAt(S(), Checked) && op == work.op && item == Current(S())
      modifies this`files, this`results, this`work, this`unlinked, this`trace
      ensures Valid() && ManagedSince(old(trace), trace) && (failure.None? <==> life >= 2)
      ensures failure.None? ==> && results == old(results)[(op, item.sha) := outcome]
                                && work == old(work).(stage := Ready, index := old(work).index + 1)
                                && outcome == OutcomeOf(ok && Object(item.sha) in old(files))
      ensures failure.Some? ==> results == old(results)
      ensures files == if life >= 1 && ok && Object(item.sha) in old(files) then old(files) - {Object(item.sha)} else old(files)
    {
      outcome := Preserved;
      if life == 0 { return Some("killed"), outcome; }
      outcome := UnlinkObject(op, item, ok);
      if life == 1 { return Some("killed"), outcome; }
      RecordResult(op, item, outcome);
      return None, outcome;
    }

    /** After the attempt is on disk: a second look at the file, then the unlink, and the result on disk. Programs that ignore
        the lock may step in between the look and the unlink. */
    method RemoveOne(op: Op, item: Item, life: nat, ok: bool, between: seq<OutsideAct>)
      returns (failure: Option<string>, outcome: Outcome)
      requires Valid() && SweepingAt(S(), Tried) && op == work.op && item == Current(S())
      modifies this`files, this`nextStamp, this`results, this`work, this`unlinked, this`trace
      ensures Valid() && old(trace) <= trace && (between == [] ==> ManagedSince(old(trace), trace))
      ensures failure.None? <==> life >= 2 && Intact(item, old(files))
      ensures failure.None? ==> && results == old(results)[(op, item.sha) := outcome]
                                && work == old(work).(stage := Ready, index := old(work).index + 1)
                                && (outcome == Removed ==> ok && Object(item.sha) !in files)
      ensures failure.None? && between == [] ==> outcome == OutcomeOf(ok)
      ensures failure.Some? ==> results == old(results)
      ensures between == [] && Intact(item, old(files)) ==>
                files == if life >= 1 && ok then old(files) - {Object(item.sha)} else old(files)
    {
      outcome := Preserved;
      if !Intact(item, files) { return Some("identity-unknown"), outcome; }
      NoteRecheck(op, item);
      Interfere(between);
      failure, outcome := TakeOne(op, item, life, ok);
    }

    /** One object: attempt on disk first. The process may die after `life` effects, and programs that ignore the lock may step
        in before the second look and between it and the unlink. */
    method ApplyOne(op: Op, item: Item, life: nat, ok: bool, meddling: Meddling) returns (failure: Option<string>, outcome: Outcome)
      requires Valid() && SweepingAt(S(), Ready) && op == work.op && item == Current(S())
      requires (op, item.sha) !in attempts
      modifies this`files, this`nextStamp, this`attempts, this`results, this`work, this`unlinked, this`trace
      ensures Valid() && old(trace) <= trace && (meddling == Meddling([], []) ==> ManagedSince(old(trace), trace))
      ensures failure.None? ==> && attempts == old(attempts)[(op, item.sha) := item]
                                && results == old(results)[(op, item.sha) := outcome]
                                && work == old(work).(index := old(work).index + 1)
                                && (outcome == Removed ==> ok)
      // where nobody steps in, a death leaves exactly what was done before it
      ensures meddling == Meddling([], []) && Removable(op, item, old(results), old(files), pending.value.refs) ==>
                && (failure.None? <==> life >= 3) && (failure.None? ==> outcome == OutcomeOf(ok))
                && attempts == (if life >= 1 then old(attempts)[(op, item.sha) := item] else old(attempts))
                && (failure.Some? ==> results == old(results))
                && files == if life >= 2 && ok then old(files) - {Object(item.sha)} else old(files)
      ensures meddling == Meddling([], []) && !Removable(op, item, old(results), old(files), pending.value.refs) ==> failure.Some?
    {
      outcome := Preserved;
      if (op, item.sha) in results { return Some("identity-unknown"), outcome; }
      if !Intact(item, files) || Referenced(pending.value.refs, item.sha) { return Some("state-conflict"), outcome; }
      if life == 0 { return Some("killed"), outcome; }
      RecordAttempt(op, item);
      Interfere(meddling.before);
      failure, outcome := RemoveOne(op, item, life - 1, ok, meddling.between);
    }

    function Records(report: seq<(Sha, Outcome)>): Ledger
      reads this
    {
      Ledger(attempts, results, files, report)
    }

    ghost predicate MatchesSweep(m: Ledger, report: seq<(Sha, Outcome)>, undisturbed: bool)
      reads this`attempts, this`results, this`files
    {
      attempts == m.attempts && results == m.results && report == m.report && (undisturbed ==> files == m.files)
    }

    ghost predicate MatchesCut(m: Ledger)
      reads this`attempts, this`results, this`files
    {
      attempts == m.attempts && results == m.results && files == m.files
    }

    /** The next object of the plan; one with an attempt on disk is left alone, whatever became of it. */
    method ApplyNext(op: Op, intent: seq<Item>, i: nat, life: nat, ok: bool, meddling: Meddling, report: seq<(Sha, Outcome)>)
      returns (failure: Option<string>, outcome: Outcome, left: nat, report': seq<(Sha, Outcome)>)
      requires Valid() && pending.Some? && i < |intent| && work == Sweeping(op, intent, i, Ready)
      modifies this`files, this`nextStamp, this`attempts, this`results, this`work, this`unlinked, this`trace
      ensures Valid() && old(trace) <= trace && (meddling == Meddling([], []) ==> ManagedSince(old(trace), trace))
      ensures failure.None? ==> work == Sweeping(op, intent, i + 1, Ready)
      ensures failure.None? ==> if meddling == Meddling([], []) then outcome == OutcomeOf(ok) else outcome == Removed ==> ok
      ensures failure.None? ==> var m := SweepOne(op, intent[i], outcome, old(Records(report)));
                                attempts == m.attempts && results == m.results && report' == m.report
                                && (meddling == Meddling([], []) ==> files == m.files)
      ensures left == if (op, intent[i].sha) in old(attempts) then life else if life >= 3 then life - 3 else 0
      ensures meddling == Meddling([], []) && Sweepable(op, intent, old(Records(report)), pending.value.refs) ==>
                && (failure.Some? <==> life < 3 && (op, intent[i].sha) !in old(attempts))
                && (failure.Some? ==> MatchesCut(CutOne(op, intent[i], ok, life, old(Records(report)))))
    {
      var item := intent[i];
      failure, outcome, left, report' := None, OutcomeOf(ok), life, report;
      if (op, item.sha) in attempts {
        SkipAttempted();
      } else {
        failure, outcome := ApplyOne(op, item, life, ok, meddling);
        left := if life >= 3 then life - 3 else 0;
        report' := report + [(item.sha, outcome)];
      }
    }

    /** The pass over a whole plan. */
    method Apply(op: Op, intent: seq<Item>, life: nat, unlinks: nat -> bool, meddling: nat -> Meddling)
      returns (r: Result<seq<(Sha, Outcome)>>, ghost outcomes: seq<Outcome>)
      requires Valid() && pending.Some? && work == Sweeping(op, intent, 0, Ready)
      modifies this`files, this`nextStamp, this`attempts, this`results, this`work, this`unlinked, this`trace
      ensures Valid() && old(trace) <= trace && (Undisturbed(meddling) ==> ManagedSince(old(trace), trace))
      ensures r.Ok? ==> work == Sweeping(op, intent, |intent|, Ready)
      ensures r.Ok? ==> |outcomes| == |intent| && AsTried(outcomes, unlinks, meddling)
      ensures r.Ok? ==> var m := SweepAll(op, intent, outcomes, old(Records([])));
                        attempts == m.attempts && results == m.results && r.value == m.report
                        && (Undisturbed(meddling) ==> files == m.files)
      ensures Undisturbed(meddling) && Sweepable(op, intent, old(Records([])), pending.value.refs) ==>
                && MatchesCut(Cut(op, intent, unlinks, 0, life, old(Records([]))))
                && (life >= 3 * |intent| ==> r.Ok?)
    {
      ghost var sound := Undisturbed(meddling) && Sweepable(op, intent, Records([]), pending.value.refs);
      var left: nat, report := life, [];
      outcomes := [];
      for i := 0 to |intent|
        invariant Valid() && work == Sweeping(op, intent, i, Ready)
        invariant old(trace) <= trace && (Undisturbed(meddling) ==> ManagedSince(old(trace), trace))
        invariant |outcomes| == i && AsTried(outcomes, unlinks, meddling)
        invariant MatchesSweep(SweepAll(op, intent[..i], outcomes, old(Records([]))), report, Undisturbed(meddling))
        invariant sound ==> left + 3 * i >= life && Sweepable(op, intent, Records(report), pending.value.refs)
        invariant sound ==>
          Cut(op, intent, unlinks, i, left, Records(report)) == Cut(op, intent, unlinks, 0, life, old(Records([])))
      {
        if sound { StillSweepable(op, intent, i, OutcomeOf(unlinks(i)), Records(report), pending.value.refs); }
        var failure, outcome;
        failure, outcome, left, report := ApplyNext(op, intent, i, left, unlinks(i), meddling(i), report);
        if failure.Some? { return Err(failure.value), outcomes; }
        SweepOneMore(op, intent, i, outcomes, outcome, old(Records([])));
        TriedOneMore(outcomes, outcome, unlinks, meddling);
        outcomes := outcomes + [outcome];
      }
      assert intent[..|intent|] == intent;
      return Ok(report), outcomes;
    }

    method RecordIntent(op: Op, items: seq<Item>)
      requires Valid() && CanCollect(S(), Plan(op, items))
      modifies this`intents, this`work, this`trace
      ensures Valid() && trace == old(trace) + [Collect(Plan(op, items))]
      ensures work == Sweeping(op, items, 0, Ready) && intents == old(intents)[op := items]
    {
      ghost var before := S();
      intents := intents[op := items];
      work := Sweeping(op, items, 0, Ready);
      Log(before, Collect(Plan(op, items)));
    }

    ghost method ContinueIntent(op: Op)
      requires Valid() && CanCollect(S(), Replan(op))
      modifies this`work, this`trace
      ensures Valid() && trace == old(trace) + [Collect(Replan(op))]
      ensures work == Sweeping(op, intents[op], 0, Ready)
    {
      ghost var before := S();
      work := Sweeping(op, intents[op], 0, Ready);
      Log(before, Collect(Replan(op)));
    }

    /** A new operation may not adopt an intent or any stray receipt under its id. */
    method EnsureNew(op: Op) returns (ok: bool)
      ensures ok <==> NewOperation(S(), op)
    {
      ok := op !in intents && (forall k :: k in attempts ==> k.0 != op) && (forall k :: k in results ==> k.0 != op);
    }

    /** A scan that nobody disturbs is one that somebody might have. */
    lemma ScanIsScanned(items: seq<Item>)
      requires Valid() && pending == Some(db) && IsPlan(items, db, files)
      ensures WasScanned(items, db, nextStamp) && |items| <= |Objects(files)|
    {
      LedgerRun(EMPTY, trace, S());
      PlanFits(items, Objects(files));
    }

    /** What a start checks under the lock before it writes its intent. */
    method Approve(op: Op, approved: seq<Item>) returns (ok: bool)
      requires pending.Some?
      ensures ok <==> Startable(op, approved, S(), pending.value)
    {
      var plan := Candidates();
      ok := false;
      if plan.Ok? {
        if IsPlan(approved, pending.value, files) { PlanIsUnique(plan.value, approved, pending.value, files); }
        var unused := EnsureNew(op);
        ok := plan.value == approved && unused && |intents| < MAX_JOBS;
      }
    }

    /** Writes the intent, then makes the pass. */
    method Execute(op: Op, items: seq<Item>, life: nat, unlinks: nat -> bool, meddling: nat -> Meddling)
      returns (r: Result<seq<(Sha, Outcome)>>, ghost outcomes: seq<Outcome>)
      requires Valid() && pending == Some(db) && work == Fresh && Startable(op, items, S(), db)
      modifies this`files, this`nextStamp, this`intents, this`attempts, this`results, this`work, this`unlinked, this`trace
      ensures Valid() && old(trace) <= trace && (Undisturbed(meddling) ==> ManagedSince(old(trace), trace))
      ensures r.Ok? ==> work == Sweeping(op, items, |items|, Ready) && intents == old(intents)[op := items]
      ensures r.Ok? ==> |outcomes| == |items| && AsTried(outcomes, unlinks, meddling)
      ensures r.Ok? ==> var m := SweepAll(op, items, outcomes, old(Records([])));
                        attempts == m.attempts && results == m.results && r.value == m.report
                        && (Undisturbed(meddling) ==> files == m.files)
      ensures Undisturbed(meddling) ==>
        if life == 0 then intents == old(intents) && MatchesCut(old(Records([])))
        else intents == old(intents)[op := items] && MatchesCut(Cut(op, items, unlinks, 0, life - 1, old(Records([]))))
      ensures life >= 3 * |items| + 1 && Undisturbed(meddling) ==> r.Ok?
    {
      outcomes := [];
      if life == 0 { return Err("killed"), outcomes; }
      assert forall i :: 0 <= i < |items| ==> items[i] in items;
      ScanIsScanned(items);
      RecordIntent(op, items);
      r, outcomes := Apply(op, items, life - 1, unlinks, meddling);
    }

    method Start(op: Op, approved: seq<Item>, life: nat, unlinks: nat -> bool, meddling: nat -> Meddling)
      returns (r: Result<seq<(Sha, Outcome)>>, ghost outcomes: seq<Outcome>)
      requires Valid()
      modifies this
      ensures Valid() && old(trace) <= trace && (Undisturbed(meddling) ==> ManagedSince(old(trace), trace))
      ensures old(pending).Some? ==> r.Err? && S() == old(S())
      ensures old(pending).None? ==> pending.None? && db == old(db)
      ensures r.Ok? ==> Startable(op, approved, old(S()), db) && intents == old(intents)[op := approved]
      ensures r.Ok? ==> |outcomes| == |approved| && AsTried(outcomes, unlinks, meddling)
      ensures r.Ok? ==> var m := SweepAll(op, approved, outcomes, old(Records([])));
                        attempts == m.attempts && results == m.results && r.value == m.report
                        && (Undisturbed(meddling) ==> files == m.files)
      ensures old(pending).None? && !Startable(op, approved, old(S()), db) ==> r.Err? && S() == old(S())
      // wherever the process dies, an undisturbed pass leaves exactly what it did before
      ensures old(pending).None? && Startable(op, approved, old(S()), db) && Undisturbed(meddling) ==>
        && (life >= 3 * |approved| + 1 ==> r.Ok?)
        && (if life == 0 then intents == old(intents) && MatchesCut(old(Records([])))
            else intents == old(intents)[op := approved]
                 && MatchesCut(Cut(op, approved, unlinks, 0, life - 1, old(Records([])))))
    {
      outcomes := [];
      var locked := Begin();
      if !locked { return Err("resource-busy"), outcomes; }
      var ok := Approve(op, approved);
      if ok {
        r, outcomes := Execute(op, approved, life, unlinks, meddling);
      } else {
        r := Err("state-conflict");
      }
      if r.Ok? { Commit(); } else { Rollback(); }
    }

    /** What a continuation checks under the lock: the operation reads exactly as observed, and may go on. */
    method Confirm(op: Op, observed: View) returns (ok: bool)
      requires Valid() && pending == Some(db) && work == Fresh
      ensures ok <==> Continuable(op, observed, S().(txn := None), db)
      ensures ok ==> CanCollect(S(), Replan(op)) && Sweepable(op, intents[op], Records([]), db.refs)
    {
      var now := Status(op);
      ok := now.Ok? && now.value == observed && now.value.resumable;
      ghost var s := S().(txn := None);
      ContinuableAnyTxn(op, observed, S(), s, db);
      if Continuable(op, observed, s, db) {
        ReportIsUnique(now.value, observed, S(), db, op);
        LedgerRun(EMPTY, trace, S());
        ResumableIsSweepable(S(), db, op, []);
      }
    }

    method Continue(op: Op, life: nat, unlinks: nat -> bool, meddling: nat -> Meddling)
      returns (failure: Option<string>, ghost outcomes: seq<Outcome>)
      requires Valid() && pending == Some(db) && CanCollect(S(), Replan(op))
      requires Sweepable(op, intents[op], Records([]), db.refs)
      requires forall x :: x in intents[op] ==> Readable(attempts, results, op, x)
      modifies this`files, this`nextStamp, this`attempts, this`results, this`work, this`unlinked, this`trace
      ensures Valid() && old(trace) <= trace && (Undisturbed(meddling) ==> ManagedSince(old(trace), trace))
      ensures failure.None? ==> work == Sweeping(op, intents[op], |intents[op]|, Ready)
      ensures failure.None? ==> |outcomes| == |intents[op]| && AsTried(outcomes, unlinks, meddling)
      ensures failure.None? ==> var m := SweepAll(op, intents[op], outcomes, old(Records([])));
                                attempts == m.attempts && results == m.results && (Undisturbed(meddling) ==> files == m.files)
      ensures failure.None? ==> forall x :: x in intents[op] ==> Readable(attempts, results, op, x)
      ensures Undisturbed(meddling) ==> MatchesCut(Cut(op, intents[op], unlinks, 0, life, old(Records([]))))
      ensures life >= 3 * |intents[op]| && Undisturbed(meddling) ==> failure.None?
    {
      ghost var before := Records([]);
      ContinueIntent(op);
      var pass;
      pass, outcomes := Apply(op, intents[op], life, unlinks, meddling);
      if pass.Err? { return Some(pass.code), outcomes; }
      PassStaysReadable(op, intents[op], outcomes, before);
      return None, outcomes;
    }

    /** Reports on the operation and ends the transaction. */
    method Conclude(op: Op) returns (r: Result<View>)
      requires Valid() && pending == Some(db) && CanSession(S(), CacheModel.Commit)
      requires op in intents
      requires forall x :: x in intents[op] ==> Readable(attempts, results, op, x) && Listable(db.refs, x)
      modifies this`db, this`pending, this`trace
      ensures Valid() && ManagedSince(old(trace), trace) && pending.None? && db == old(db)
      ensures r.Ok? && Reports(r.value, S(), db, op)
    {
      r := Status(op);
      ghost var before := S();
      Commit();
      ReportsAfterCommit(r.value, before, S(), db, op);
    }

    /** A confirmed continuation: the pass, then the report and the commit, or a rollback. */
    method Carry(op: Op, life: nat, unlinks: nat -> bool, meddling: nat -> Meddling)
      returns (r: Result<View>, ghost outcomes: seq<Outcome>)
      requires Valid() && pending == Some(db) && CanCollect(S(), Replan(op))
      requires Sweepable(op, intents[op], Records([]), db.refs)
      requires forall x :: x in intents[op] ==> Readable(attempts, results, op, x) && Listable(db.refs, x)
      modifies this`db, this`pending, this`files, this`nextStamp, this`attempts, this`results, this`work, this`unlinked, this`trace
      ensures Valid() && old(trace) <= trace && (Undisturbed(meddling) ==> ManagedSince(old(trace), trace))
      ensures pending.None? && db == old(db)
      ensures r.Ok? ==> Reports(r.value, S(), db, op)
      ensures r.Ok? ==> |outcomes| == |intents[op]| && AsTried(outcomes, unlinks, meddling)
      ensures r.Ok? ==> var m := SweepAll(op, intents[op], outcomes, old(Records([])));
                        attempts == m.attempts && results == m.results && (Undisturbed(meddling) ==> files == m.files)
      ensures Undisturbed(meddling) ==> MatchesCut(Cut(op, intents[op], unlinks, 0, life, old(Records([]))))
      ensures life >= 3 * |intents[op]| && Undisturbed(meddling) ==> r.Ok?
    {
      var failure;
      failure, outcomes := Continue(op, life, unlinks, meddling);
      if failure.Some? {
        Rollback();
        return Err(failure.value), outcomes;
      }
      r := Conclude(op);
    }

    /** A continuation under the lock, to its commit or rollback. */
    method Proceed(op: Op, observed: View, life: nat, unlinks: nat -> bool, meddling: nat -> Meddling)
      returns (r: Result<View>, ghost outcomes: seq<Outcome>)
      requires Valid() && pending == Some(db) && work == Fresh
      modifies this`db, this`pending, this`files, this`nextStamp, this`attempts, this`results, this`work, this`unlinked, this`trace
      ensures Valid() && old(trace) <= trace && (Undisturbed(meddling) ==> ManagedSince(old(trace), trace))
      ensures pending.None? && db == old(db)
      ensures r.Ok? ==> Continuable(op, observed, old(S().(txn := None)), db) && Reports(r.value, S(), db, op)
      ensures r.Ok? ==> |outcomes| == |intents[op]| && AsTried(outcomes, unlinks, meddling)
      ensures r.Ok? ==> var m := SweepAll(op, intents[op], outcomes, old(Records([])));
                        attempts == m.attempts && results == m.results && (Undisturbed(meddling) ==> files == m.files)
      ensures !Continuable(op, observed, old(S().(txn := None)), db) ==> r.Err? && S() == old(S().(txn := None))
      ensures Continuable(op, observed, old(S().(txn := None)), db) && Undisturbed(meddling) ==>
        && MatchesCut(Cut(op, intents[op], unlinks, 0, life, old(Records([]))))
        && (life >= 3 * |intents[op]| ==> r.Ok?)
    {
      outcomes := [];
      var ok := Confirm(op, observed);
      if !ok {
        Rollback();
        return Err("state-conflict"), outcomes;
      }
      r, outcomes := Carry(op, life, unlinks, meddling);
    }

    method Resume(op: Op, observed: View, life: nat, unlinks: nat -> bool, meddling: nat -> Meddling)
      returns (r: Result<View>, ghost outcomes: seq<Outcome>)
      requires Valid()
      modifies this
      ensures Valid() && old(trace) <= trace && (Undisturbed(meddling) ==> ManagedSince(old(trace), trace))
      ensures old(pending).Some? ==> r.Err? && S() == old(S())
      ensures old(pending).None? ==> pending.None? && db == old(db)
      ensures intents == old(intents)
      ensures r.Ok? ==> Continuable(op, observed, old(S()), db) && Reports(r.value, S(), db, op)
      ensures r.Ok? ==> |outcomes| == |intents[op]| && AsTried(outcomes, unlinks, meddling)
      ensures r.Ok? ==> var m := SweepAll(op, intents[op], outcomes, old(Records([])));
                        attempts == m.attempts && results == m.results && (Undisturbed(meddling) ==> files == m.files)
      ensures old(pending).None? && !Continuable(op, observed, old(S()), db) ==> r.Err? && S() == old(S())
      ensures old(pending).None? && Continuable(op, observed, old(S()), db) && Undisturbed(meddling) ==>
        && MatchesCut(Cut(op, intents[op], unlinks, 0, life, old(Records([]))))
        && (life >= 3 * |intents[op]| ==> r.Ok?)
    {
      outcomes := [];
      var locked := Begin();
      if !locked { return Err("resource-busy"), outcomes; }
      r, outcomes := Proceed(op, observed, life, unlinks, meddling);
    }

    lemma ReceiptsRead(op: Op)
      requires Valid()
      ensures Receipts(S()) && (op in intents ==> forall x :: x in intents[op] ==> Readable(attempts, results, op, x))
    {
      LedgerRun(EMPTY, trace, S());
      if op in intents { ReceiptsAreReadable(S(), op); }
    }

    /** The report on an operation, on its own. In a reachable state it is given of every operation with an intent whose objects
        have no more owners than can be listed. */
    method Observe(op: Op) returns (r: Result<View>)
      requires Valid()
      modifies this`db, this`pending, this`work, this`trace
      ensures Valid() && ManagedSince(old(trace), trace) && S() == old(S())
      ensures r.Ok? <==> old(pending).None? && op in intents && forall x :: x in intents[op] ==> Listable(db.refs, x)
      ensures r.Ok? ==> Reports(r.value, S(), db, op)
    {
      var locked := Begin();
      if !locked { return Err("resource-busy"); }
      ReceiptsRead(op);
      r := Status(op);
      ghost var before := S();
      if r.Ok? {
        Commit();
        ReportsAfterCommit(r.value, before, S(), db, op);
      } else {
        Rollback();
      }
    }

    /** A collection whose process dies, and the report on it. */
    method DieAndReport(op: Op, approved: seq<Item>, dies: nat, unlinks: nat -> bool) returns (seen: Result<View>)
      requires Valid() && pending.None? && dies >= 1
      requires Startable(op, approved, S(), db) && NewPlan(op, approved, Records([]), db.refs)
      modifies this
      ensures Valid() && pending.None? && db == old(db) && intents == old(intents)[op := approved]
      ensures forall i :: 0 <= i < |approved| ==> LeftAt(op, approved[i], i, dies, unlinks(i), S(), db.refs)
      ensures seen.Ok? && Reports(seen.value, S(), db, op)
      ensures Continuable(op, seen.value, S(), db) <==> seen.value.resumable
    {
      ghost var l := Records([]);
      var started;
      ghost var outcomes;
      started, outcomes := Start(op, approved, dies, unlinks, (i: nat) => Meddling([], []));
      forall i: nat | i < |approved| ensures LeftAt(op, approved[i], i, dies, unlinks(i), S(), db.refs) {
        LeftInOrder(op, approved, unlinks, dies, l, S(), db.refs, i);
      }
      forall x | x in approved ensures Listable(db.refs, x) {
        FewReferencesAreListable(db.refs, x.sha);
      }
      seen := Observe(op);
      ReceiptsRead(op);
      ReportedIsContinuable(op, seen.value, S(), db);
    }

    /**
     * A collection whose process dies, at any point after its intent (`dies` counts the effects before), the report on it, and
     * its continuation. References and files are left alone meanwhile; `unlinks` and `again` say which unlinks succeed.
     */
    method DieAndResume(op: Op, approved: seq<Item>, dies: nat, unlinks: nat -> bool, again: nat -> bool)
      returns (seen: Result<View>, r: Result<View>)
      requires Valid() && pending.None? && dies >= 1
      requires op !in intents && |intents| < MAX_JOBS && |db.refs| <= MAX_OBJECTS && |Objects(files)| <= MAX_OBJECTS
      // the plan lists exactly the objects without owners, in order and as they are
      requires forall i, j :: 0 <= i < j < |approved| ==> approved[i].sha < approved[j].sha
      requires forall x :: x in approved ==>
        && Object(x.sha) in files && files[Object(x.sha)] == File(x.size, x.digest, x.stamp)
        && forall owner :: (owner, x.sha) !in db.refs
      requires forall sha: Sha :: Object(sha) in files && (forall owner :: (owner, sha) !in db.refs) ==>
        exists x :: x in approved && x.sha == sha
      modifies this
      ensures Valid() && pending.None? && db == old(db) && intents == old(intents)[op := approved]
      // the report is given, and shows for each object how far its removal came
      ensures seen.Ok? && |seen.value.rows| == |approved|
      ensures forall i :: 0 <= i < |approved| ==>
        var row := seen.value.rows[i];
        && row.sha == approved[i].sha
        && row.phase == (if dies >= 3 * i + 4 then Settled_(if unlinks(i) then Removed else Preserved)
                         else if dies >= 3 * i + 2 then Unknown else Unattempted)
        && (row.eligible <==> dies < 3 * i + 2)
      // it can be continued exactly when the last object, or more, has no attempt, and then it is
      ensures seen.value.resumable <==> dies + 1 < 3 * |approved|
      ensures r.Ok? <==> seen.value.resumable
      // the objects without an attempt are settled, and what was unknown stays so
      ensures r.Ok? ==> forall i :: 0 <= i < |approved| ==>
        var k := (op, approved[i].sha);
        && k in attempts
        && if dies < 3 * i + 2 then
             && k in results && results[k] == (if again(i) then Removed else Preserved)
             && (Object(approved[i].sha) in files <==> !again(i))
           else k in results <==> dies >= 3 * i + 4
      ensures r.Ok? ==> (r.value.finished <==> dies % 3 == 1)
    {
      Prepare(op, approved);
      seen := DieAndReport(op, approved, dies, unlinks);
      ReceiptsRead(op);
      RowsAfterDeath(op, approved, unlinks, dies, S(), db, seen.value);
      SummaryAfterDeath(op, approved, unlinks, dies, S(), db, seen.value);
      r := Finish(op, approved, dies, unlinks, again, seen.value);
    }

    lemma Prepare(op: Op, approved: seq<Item>)
      requires Valid() && pending.None?
      requires op !in intents && |intents| < MAX_JOBS && |db.refs| <= MAX_OBJECTS && |Objects(files)| <= MAX_OBJECTS
      requires forall i, j :: 0 <= i < j < |approved| ==> approved[i].sha < approved[j].sha
      requires forall x :: x in approved ==>
        && Object(x.sha) in files && files[Object(x.sha)] == File(x.size, x.digest, x.stamp)
        && forall owner :: (owner, x.sha) !in db.refs
      requires forall sha: Sha :: Object(sha) in files && (forall owner :: (owner, sha) !in db.refs) ==>
        exists x :: x in approved && x.sha == sha
      ensures Startable(op, approved, S(), db) && NewPlan(op, approved, Records([]), db.refs)
    {
      ReceiptsRead(op);
      StartInFull(op, approved, S(), db);
      forall i | 0 <= i < |approved| ensures Spared(approved[i], files, db.refs) {
        assert approved[i] in approved;
      }
    }

    /** The continuation of a collection whose process died. */
    method Finish(op: Op, approved: seq<Item>, dies: nat, unlinks: nat -> bool, again: nat -> bool, seen: View) returns (r: Result<View>)
      requires Valid() && pending.None? && dies >= 1 && op in intents && intents[op] == approved
      requires Continuable(op, seen, S(), db) <==> seen.resumable
      requires seen.resumable ==> dies + 1 < 3 * |approved|
      requires forall i :: 0 <= i < |approved| ==> LeftAt(op, approved[i], i, dies, unlinks(i), S(), db.refs)
      modifies this
      ensures Valid() && pending.None? && db == old(db) && intents == old(intents)
      ensures r.Ok? <==> seen.resumable
      ensures r.Ok? ==> forall i :: 0 <= i < |approved| ==>
        var k := (op, approved[i].sha);
        && k in attempts
        && if dies < 3 * i + 2 then
             && k in results && results[k] == (if again(i) then Removed else Preserved)
             && (Object(approved[i].sha) in files <==> !again(i))
           else k in results <==> dies >= 3 * i + 4
      ensures r.Ok? ==> (r.value.finished <==> dies % 3 == 1)
    {
      ghost var m := S();
      ReceiptsRead(op);
      ghost var outcomes;
      r, outcomes := Resume(op, seen, 3 * |approved|, again, (i: nat) => Meddling([], []));
      if r.Ok? {
        ReceiptsRead(op);
        forall i: nat | i < |approved|
          ensures var k := (op, approved[i].sha);
            && k in attempts
            && if dies < 3 * i + 2 then
                 && k in results && results[k] == (if again(i) then Removed else Preserved)
                 && (Object(approved[i].sha) in files <==> !again(i))
               else k in results <==> dies >= 3 * i + 4
        {
          SettledInOrder(op, approved, outcomes, dies, unlinks(i), again(i), m, S(), db.refs, i);
        }
        FinishedAfterDeath(op, approved, dies, S(), db, r.value);
      }
    }

    // -------------------------------------------------------------- downloads

    ghost method StartFetch(sha: Sha, size: nat)
      requires Valid() && CanFetch(S(), Fetch(sha, size))
      modifies this`work, this`trace
      ensures Valid() && trace == old(trace) + [CacheModel.Download(Fetch(sha, size))] && work == Fetching(sha, size, false)
    {
      ghost var before := S();
      work := Fetching(sha, size, false);
      Log(before, CacheModel.Download(Fetch(sha, size)));
    }

    /** Appends to a partial file with bytes in it; otherwise creates one, which fails when an empty one is in the way. */
    method OpenPart(sha: Sha, size: nat) returns (ok: bool)
      requires Valid() && pending.Some? && work == Fetching(sha, size, false) && PartSize(files, sha) < size
      modifies this`files, this`nextStamp, this`work, this`trace
      ensures Valid() && ManagedSince(old(trace), trace)
      ensures ok <==> !(Partial(sha) in old(files) && old(files)[Partial(sha)].size == 0)
      ensures work == Fetching(sha, size, ok)
      ensures files == if ok && Partial(sha) !in old(files) then old(files)[Partial(sha) := File(0, 0, old(nextStamp))] else old(files)
    {
      if Partial(sha) in files && files[Partial(sha)].size == 0 { return false; }
      ghost var before := S();
      if Partial(sha) !in files {
        files, nextStamp := files[Partial(sha) := File(0, 0, nextStamp)], nextStamp + 1;
      }
      work := Fetching(sha, size, true);
      Log(before, CacheModel.Download(CacheModel.Open));
      return true;
    }

    method WritePart(sha: Sha, count: nat, digest: Sha)
      requires Valid() && CanFetch(S(), Write(count, digest)) && sha == work.sha
      modifies this`files, this`trace
      ensures Valid() && trace == old(trace) + [CacheModel.Download(Write(count, digest))]
      ensures files == Grow(old(files), Partial(sha), count, digest)
    {
      ghost var before := S();
      files := Grow(files, Partial(sha), count, digest);
      Log(before, CacheModel.Download(Write(count, digest)));
    }

    /** The response body, piece by piece: `chunks[i]` is a byte count and the digest of the file with them appended; an
        empty piece ends it. `stopped(i)` says the caller cancels, or the process dies, before piece `i` is written. */
    method Receive(sha: Sha, size: nat, chunks: seq<(nat, Sha)>, stopped: nat -> bool) returns (ok: bool)
      requires Valid() && pending.Some? && work == Fetching(sha, size, true)
      requires Partial(sha) in files && files[Partial(sha)].size <= size
      modifies this`files, this`trace
      ensures Valid() && ManagedSince(old(trace), trace)
      ensures Partial(sha) in files && files == old(files)[Partial(sha) := files[Partial(sha)]]
      ensures files[Partial(sha)].stamp == old(files)[Partial(sha)].stamp
      ensures old(files)[Partial(sha)].size <= files[Partial(sha)].size <= size
      ensures ok ==> files[Partial(sha)].size == size
      ensures (&& (forall i: nat :: !stopped(i)) && (forall i :: 0 <= i < |chunks| ==> 1 <= chunks[i].0)
               && old(files)[Partial(sha)].size + Bytes(chunks) == size)
              ==> ok && (chunks != [] ==> files[Partial(sha)].digest == chunks[|chunks| - 1].1)
    {
      var p := Partial(sha);
      for i := 0 to |chunks|
        invariant Valid() && ManagedSince(old(trace), trace)
        invariant p in files && files == old(files)[p := files[p]] && files[p].stamp == old(files)[p].stamp
        invariant old(files)[p].size <= files[p].size <= size
        invariant files[p].size == old(files)[p].size + Bytes(chunks[..i])
        invariant i > 0 ==> files[p].digest == chunks[i - 1].1
      {
        assert chunks[..i + 1][..i] == chunks[..i];
        BytesMonotone(chunks, i + 1);
        var (count, digest) := chunks[i];
        if stopped(i) { return false; }
        if count == 0 { break; }
        if files[p].size + count > size { return false; }
        WritePart(sha, count, digest);
      }
      assert chunks[..|chunks|] == chunks;
      return files[p].size == size;
    }

    /** The finished file becomes the object if its digest is right, and is set aside otherwise. */
    method Deliver(sha: Sha, size: nat) returns (ok: bool)
      requires Valid() && pending.Some? && work.Fetching? && work.sha == sha && work.size == size
      requires Partial(sha) in files && files[Partial(sha)].size == size
      modifies this`files, this`pending, this`work, this`trace
      ensures Valid() && ManagedSince(old(trace), trace)
      ensures ok <==> old(files)[Partial(sha)].digest == sha
      ensures ok ==> pending == old(pending) && work == Done && files == Move(old(files), Partial(sha), Object(sha))
      ensures !ok ==> var q := Quarantine(sha, old(files)[Partial(sha)].digest);
                      pending.None? && files == if q in old(files) then old(files) else Move(old(files), Partial(sha), q)
    {
      var actual := files[Partial(sha)].digest;
      ghost var before := S();
      if actual == sha {
        files, work := Move(files, Partial(sha), Object(sha)), Done;
        Log(before, CacheModel.Download(Promote));
        return true;
      }
      pending := None;
      if Quarantine(sha, actual) in files {
        Log(before, Session(Crash));
      } else {
        files := Move(files, Partial(sha), Quarantine(sha, actual));
        Log(before, CacheModel.Download(Isolate));
      }
      return false;
    }

    /** What a download checks under the lock before it asks the network for anything. */
    method Precheck(sha: Sha, size: nat, permitted: bool, room: bool) returns (go: bool)
      requires pending.Some?
      ensures go ==> PartSize(files, sha) <= size && Admits(pending.value, files, size - PartSize(files, sha))
      ensures go <==> permitted && room && Fetchable(sha, size, pending.value, files)
    {
      if !permitted || !room || PartSize(files, sha) > size { return false; }
      go := Admit(size - PartSize(files, sha));
    }

    /** Brings the partial file to its full size, asking the network only when bytes are missing. */
    method Fill(sha: Sha, size: nat, answer: Answer) returns (ok: bool)
      requires Valid() && pending.Some? && work == Fetching(sha, size, false) && PartSize(files, sha) <= size && size > 0
      modifies this`files, this`nextStamp, this`work, this`trace
      ensures Valid() && ManagedSince(old(trace), trace)
      ensures work.Fetching? && work.sha == sha && work.size == size
      ensures ok ==> Partial(sha) in files && files[Partial(sha)].size == size
      ensures forall p :: p != Partial(sha) ==> (p in files <==> p in old(files)) && (p in files ==> files[p] == old(files)[p])
      ensures Partial(sha) in old(files) ==>
                Partial(sha) in files && files[Partial(sha)].stamp == old(files)[Partial(sha)].stamp
                && old(files)[Partial(sha)].size <= files[Partial(sha)].size
      ensures Blocked(sha, old(files)) ==> !ok && files == old(files)
      ensures PartSize(old(files), sha) == size ==> ok && files == old(files)
      ensures Supplies(answer, sha, size, old(files)) && !Blocked(sha, old(files)) && PartSize(old(files), sha) < size ==>
                ok && files[Partial(sha)].digest == sha
    {
      ok := true;
      if PartSize(files, sha) < size {
        if !answer.reachable { return false; }
        ok := OpenPart(sha, size);
        if ok { ok := Receive(sha, size, answer.chunks, answer.stopped); }
      }
    }

    /** The whole transfer, once admitted. Nothing but this name's own files is touched. */
    method Obtain(sha: Sha, size: nat, answer: Answer) returns (ok: bool)
      requires Valid() && CanFetch(S(), Fetch(sha, size))
      modifies this`files, this`nextStamp, this`pending, this`work, this`trace
      ensures Valid() && ManagedSince(old(trace), trace)
      ensures ok ==> pending == old(pending) && work == Done
      ensures ok ==> Holds(files, Object(sha), size, sha) && Partial(sha) !in files
      ensures forall p :: p in old(files) && p != Partial(sha) ==> p in files && files[p] == old(files)[p]
      ensures Stuck(sha, size, old(files)) ==> !ok && files == old(files)
      ensures Supplies(answer, sha, size, old(files)) ==>
                (ok <==> Completable(sha, size, old(files))) && (Stuck(sha, size, old(files)) || Partial(sha) !in files)
    {
      StartFetch(sha, size);
      ok := Fill(sha, size, answer);
      if ok && answer.withdrawn { ok := false; }
      else if ok { ok := Deliver(sha, size); }
    }

    /**
     * A download. Once it is admitted, and offered a correct answer to what it asks for, it succeeds exactly when the partial
     * file can be completed; when it fails then, the next one starts afresh, except from the two states that are stuck.
     */
    method Download(sha: Sha, size: nat, permitted: bool, room: bool, answer: Answer) returns (ok: bool)
      requires Valid() && 1 <= size <= MAX_BYTES
      modifies this
      ensures Valid() && ManagedSince(old(trace), trace)
      ensures old(pending).Some? ==> !ok && S() == old(S())
      ensures old(pending).None? ==> pending.None? && db == old(db)
      ensures ok ==> Object(sha) in files && files[Object(sha)].digest == sha
      ensures Object(sha) in old(files) ==>
                files == old(files) && (ok <==> old(pending).None? && permitted && files[Object(sha)].digest == sha)
      ensures Object(sha) !in old(files) && ok ==> files[Object(sha)].size == size && Partial(sha) !in files
      ensures forall p :: p in old(files) && p != Partial(sha) ==> p in files && files[p] == old(files)[p]
      ensures (&& Object(sha) !in old(files)
               && (Stuck(sha, size, old(files)) || !permitted || !room || !Fetchable(sha, size, db, old(files))))
              ==> !ok && files == old(files)
      ensures (&& old(pending).None? && Object(sha) !in old(files) && permitted && room
               && Fetchable(sha, size, db, old(files)) && Supplies(answer, sha, size, old(files))) ==>
                && (ok <==> Completable(sha, size, old(files)))
                && (!ok ==> if Stuck(sha, size, old(files)) then files == old(files) else Partial(sha) !in files)
      // spelled out: there is room for what is missing, nobody cancels, and the answer is exactly what is missing; then it
      // succeeds if the partial file is not there, or is begun and not finished, or is right, and in no other case
      ensures (&& old(pending).None? && Object(sha) !in old(files) && permitted && room
               && var had := if Partial(sha) in old(files) then old(files)[Partial(sha)].size else 0;
                  && had <= size
                  && (db.budget.Some? ==> Auditable(db, old(files)) && Committed(db, old(files)) + (size - had) <= db.budget.value)
                  && !answer.withdrawn && (forall i: nat :: !answer.stopped(i))
                  && (had < size ==>
                        && answer.reachable && answer.chunks != []
                        && (forall i :: 0 <= i < |answer.chunks| ==> 1 <= answer.chunks[i].0)
                        && had + Bytes(answer.chunks) == size && answer.chunks[|answer.chunks| - 1].1 == sha)) ==>
                (ok <==> Partial(sha) in old(files) ==>
                           || 0 < old(files)[Partial(sha)].size < size
                           || (old(files)[Partial(sha)].size == size && old(files)[Partial(sha)].digest == sha))
    {
      ok := Begin();
      if !ok { return; }
      if Object(sha) in files {
        ok := permitted && files[Object(sha)].digest == sha;
        if ok { Commit(); } else { Rollback(); }
        return;
      }
      ok := Precheck(sha, size, permitted, room);
      if ok { ok := Obtain(sha, size, answer); }
      if ok { Commit(); } else { Rollback(); }
    }
  }

  /** Whatever calls were made, completed, refused or killed half way, the store is in a state where all of the ledger's
      guarantees hold; as long as only programs that take the lock have run, so do those about references and budget, and every
      unlink took what it had planned. */
  lemma StoreIsSafe(c: ContentCache)
    requires c.Valid()
    ensures LedgerInv(c.S())
    ensures ManagedRun(c.trace) ==> RefInv(c.S()) && CacheBudget.Within(c.S(), false) && Undeceived(c.S())
  {
    LedgerRun(EMPTY, c.trace, c.S());
    if ManagedRun(c.trace) {
      RefRun(EMPTY, c.trace, c.S());
      CacheBudget.BudgetHolds(c.trace, c.S());
      UndeceivedRun(EMPTY, c.trace, c.S());
    }
  }
}
