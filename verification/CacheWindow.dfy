/**
 * Which file an unlink takes. The second look and the unlink are two steps; programs that ignore the lock can come between.
 */
module CacheWindow {
  import opened Basics
  import opened CacheModel
  import opened CacheLedger

  /** The unlink took the very file that was planned. */
  predicate Exact(r: Removal) {
    Snapshot(r.item.sha, r.taken) == r.item
  }

  // ---------------------------------------------------------------- programs that take the lock

  ghost predicate Undeceived(s: State) {
    && (SweepingAt(s, Checked) ==> Intact(Current(s), s.files))
    && (forall i :: 0 <= i < |s.unlinked| ==> Exact(s.unlinked[i]))
  }

  lemma UndeceivedStep(s: State, a: Act)
    requires Undeceived(s) && Enabled(s, a) && Managed(a)
    ensures Undeceived(Next(s, a))
  {
    if a.Collect? {
      if a.collect == Unlink(true) {
        assert Next(s, a).unlinked == s.unlinked + [Taken(s)];
      } else {
        assert Next(s, a).unlinked == s.unlinked;
      }
    } else {
      QuietSteps(s, a);
      if SweepingAt(Next(s, a), Checked) {
        assert Next(s, a).txn == s.txn;
      }
    }
  }

  lemma {:induction false} UndeceivedRun(s: State, acts: seq<Act>, t: State)
    requires Undeceived(s) && ManagedRun(acts) && Run(s, acts) == Some(t)
    ensures Undeceived(t)
    decreases |acts|
  {
    if acts != [] {
      var last := |acts| - 1;
      var m := Run(s, acts[..last]).value;
      UndeceivedRun(s, acts[..last], m);
      UndeceivedStep(m, acts[last]);
    }
  }

  /** As long as only programs that take the lock have run, every unlink took exactly the incarnation it had planned. */
  lemma UnlinkTakesPlanned(acts: seq<Act>, t: State)
    requires ManagedRun(acts) && Run(EMPTY, acts) == Some(t)
    ensures forall i :: 0 <= i < |t.unlinked| ==> Exact(t.unlinked[i])
  {
    UndeceivedRun(EMPTY, acts, t);
  }

  /** If a planned file is gone after such a run, the plan never takes anything of that name, whatever comes after. */
  lemma StalePlanIsHarmless(before: seq<Act>, s: State, after: seq<Act>, t: State, op: Op, item: Item)
    requires ManagedRun(before) && Run(EMPTY, before) == Some(s) && Run(s, after) == Some(t)
    requires op in s.intents && item in s.intents[op] && Gone(s, item.stamp)
    ensures op in t.intents && t.intents[op] == s.intents[op]
    ensures WasUnlinked(t, op, item.sha) <==> WasUnlinked(s, op, item.sha)
  {
    LedgerRun(EMPTY, before, s);
    UndeceivedRun(EMPTY, before, s);
    StalePlanNeverFires(s, after, t, op, item);
  }

  // ---------------------------------------------------------------- programs that do not

  predicate Touches(a: Act, p: Path) {
    a.Outside? && a.outside.path == p
  }

  ghost predicate Untouched(acts: seq<Act>, from: nat, p: Path) {
    forall i :: from <= i < |acts| ==> !Touches(acts[i], p)
  }

  /** The planned file is there, or no longer anywhere. */
  ghost predicate Fate(s: State, item: Item, untouched: bool) {
    if untouched then Intact(item, s.files) else Gone(s, item.stamp)
  }

  lemma FateStep(s: State, a: Act, item: Item, untouched: bool)
    requires Stamps(s) && Enabled(s, a) && a.Outside? && Fate(s, item, untouched)
    ensures Fate(Next(s, a), item, untouched && !Touches(a, Object(item.sha)))
  {
  }

  lemma LockedOut(s: State, a: Act)
    requires Enabled(s, a) && SweepingAt(s, Checked) && !a.Collect? && !a.Outside?
    ensures Next(s, a).txn.None?
  {
  }

  lemma RecheckOpens(s: State, a: CollectAct)
    requires CanCollect(s, a) && SweepingAt(DoCollect(s, a), Checked)
    ensures a == Recheck && DoCollect(s, a).txn.value.work.op == s.txn.value.work.op && Current(DoCollect(s, a)) == Current(s)
    ensures Intact(Current(s), s.files) && DoCollect(s, a).files == s.files
  {
  }

  /** The only way into the window is the second look, and only other programs can act while it is open. */
  lemma WindowStep(s: State, a: Act)
    requires Enabled(s, a) && SweepingAt(Next(s, a), Checked)
    ensures if a == Collect(Recheck) then Intact(Current(Next(s, a)), Next(s, a).files)
            else a.Outside? && SweepingAt(s, Checked) && Current(Next(s, a)) == Current(s)
  {
    if a.Collect? {
      RecheckOpens(s, a.collect);
    } else {
      QuietSteps(s, a);
      assert Next(s, a).txn == s.txn;
      if !a.Outside? { LockedOut(s, a); }
    }
  }

  lemma StampsRun(acts: seq<Act>, s: State)
    requires Run(EMPTY, acts) == Some(s)
    ensures Stamps(s)
  {
    LedgerRun(EMPTY, acts, s);
  }

  /** An open window was opened by a second look, nobody but other programs has acted since, and the planned file is still
      there if none of them touched its name; otherwise it is gone. */
  lemma {:induction false} WindowOpened(acts: seq<Act>, s: State) returns (look: nat)
    requires Run(EMPTY, acts) == Some(s) && SweepingAt(s, Checked)
    ensures look < |acts| && acts[look] == Collect(Recheck) && forall i :: look < i < |acts| ==> acts[i].Outside?
    ensures var item := Current(s);
            Fate(s, item, Untouched(acts, look + 1, Object(item.sha)))
    decreases |acts|
  {
    var last := |acts| - 1;
    var m, a := Run(EMPTY, acts[..last]).value, acts[last];
    var item := Current(s);
    WindowStep(m, a);
    StampsRun(acts[..last], m);
    if a == Collect(Recheck) {
      look := last;
    } else {
      look := WindowOpened(acts[..last], m);
      UntouchedOneMore(acts, look + 1, Object(item.sha));
      FateStep(m, a, item, Untouched(acts[..last], look + 1, Object(item.sha)));
    }
  }

  lemma UntouchedOneMore(acts: seq<Act>, from: nat, p: Path)
    requires from < |acts|
    ensures Untouched(acts, from, p) <==> Untouched(acts[..|acts| - 1], from, p) && !Touches(acts[|acts| - 1], p)
  {
    assert forall i :: 0 <= i < |acts| - 1 ==> acts[..|acts| - 1][i] == acts[i];
  }

  /** In every run, the unlink takes another file than planned if and only if, since the second look, a program that ignores
      the lock has touched that name. */
  lemma UnlinkTakesAnother(acts: seq<Act>, i: nat) returns (look: nat)
    requires Run(EMPTY, acts).Some? && i < |acts| && acts[i] == Collect(Unlink(true))
    ensures Run(EMPTY, acts[..i]).Some? && SweepingAt(Run(EMPTY, acts[..i]).value, Checked)
    ensures Object(Current(Run(EMPTY, acts[..i]).value).sha) in Run(EMPTY, acts[..i]).value.files
    ensures look < i && acts[look] == Collect(Recheck) && forall k :: look < k < i ==> acts[k].Outside?
    ensures var m := Run(EMPTY, acts[..i]).value;
            !Exact(Taken(m)) <==> exists k :: look < k < i && Touches(acts[k], Object(Current(m).sha))
  {
    RunPrefix(acts, i + 1);
    RunTaken(acts, i);
    var m := Run(EMPTY, acts[..i]).value;
    look := WindowOpened(acts[..i], m);
    assert forall k :: 0 <= k < i ==> acts[..i][k] == acts[k];
    assert Exact(Taken(m)) <==> Intact(Current(m), m.files);
    if Gone(m, Current(m).stamp) {
      assert !Intact(Current(m), m.files);
    }
  }
}
