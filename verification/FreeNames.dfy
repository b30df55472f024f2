/** The first of a numbered series of names that is not taken. */
module FreeNames {
  import opened Basics

  /** The least index from `i` on whose name is free, or the limit. */
  function First(name: nat -> string, i: nat, limit: int, taken: set<string>): nat
    decreases limit - i
  {
    if i >= limit || name(i) !in taken then i else First(name, i + 1, limit, taken)
  }

  function FirstBelow(name: nat -> string, i: nat, limit: int, taken: set<string>): Option<nat> {
    var r := First(name, i, limit, taken);
    if r < limit then Some(r) else None
  }

  ghost predicate AllTaken(name: nat -> string, i: nat, j: nat, taken: set<string>) {
    forall k {:trigger name(k)} :: i <= k < j ==> name(k) in taken
  }

  ghost predicate Differ(name: nat -> string, i: nat, j: nat) {
    forall k, l {:trigger name(k), name(l)} :: i <= k < l < j ==> name(k) != name(l)
  }

  lemma {:induction false} FirstIsLeast(name: nat -> string, i: nat, limit: int, taken: set<string>)
    ensures var r := First(name, i, limit, taken);
            && i <= r && AllTaken(name, i, r, taken) && (r >= limit || name(r) !in taken) && (i <= limit ==> r <= limit)
    decreases limit - i
  {
    if i < limit && name(i) in taken {
      FirstIsLeast(name, i + 1, limit, taken);
    }
  }

  lemma TakenBelow(name: nat -> string, i: nat, j: nat, k: nat, taken: set<string>)
    requires AllTaken(name, i, j, taken) && i <= k && name(k) !in taken
    ensures j <= k
  {
  }

  lemma FirstIs(name: nat -> string, i: nat, r: nat, limit: int, taken: set<string>)
    requires i <= r <= limit && AllTaken(name, i, r, taken) && (r == limit || name(r) !in taken)
    ensures First(name, i, limit, taken) == r
  {
    FirstIsLeast(name, i, limit, taken);
    var f := First(name, i, limit, taken);
    if f < limit {
      TakenBelow(name, i, r, f, taken);
    }
    if r < limit {
      TakenBelow(name, i, f, r, taken);
    }
  }

  /** The index found is the least whose name is free; there is none exactly when all the names are taken. */
  lemma FirstBelowIsLeast(name: nat -> string, i: nat, limit: nat, taken: set<string>)
    requires i <= limit
    ensures var r := FirstBelow(name, i, limit, taken);
            && (r.Some? ==> i <= r.value < limit && name(r.value) !in taken && AllTaken(name, i, r.value, taken))
            && (r.None? <==> AllTaken(name, i, limit, taken))
  {
    FirstIsLeast(name, i, limit, taken);
    var f := First(name, i, limit, taken);
    if f < limit {
      assert name(f) !in taken;
    }
  }

  /** A run of different names that are all taken is no longer than the set they are taken from. */
  lemma {:induction false} Pigeonhole(name: nat -> string, i: nat, j: nat, taken: set<string>)
    requires i <= j && AllTaken(name, i, j, taken) && Differ(name, i, j)
    ensures j - i <= |taken|
    decreases j
  {
    if i < j {
      var last := name(j - 1);
      assert last in taken;
      Pigeonhole(name, i, j - 1, taken - {last});
    }
  }

  /** With more different names than taken ones, a free one is found after at most one look per taken name. */
  lemma FoundWithin(name: nat -> string, i: nat, limit: int, taken: set<string>)
    requires limit > i + |taken| && Differ(name, i, limit)
    ensures First(name, i, limit, taken) <= i + |taken| && name(First(name, i, limit, taken)) !in taken
  {
    FirstIsLeast(name, i, limit, taken);
    Pigeonhole(name, i, First(name, i, limit, taken), taken);
  }

  method Search(name: nat -> string, i: nat, limit: nat, taken: set<string>) returns (r: Option<nat>)
    requires i <= limit
    ensures r == FirstBelow(name, i, limit, taken)
  {
    var k := i;
    while k < limit && name(k) in taken
      invariant i <= k <= limit && AllTaken(name, i, k, taken)
      decreases limit - k
    {
      k := k + 1;
    }
    FirstIs(name, i, k, limit, taken);
    return if k < limit then Some(k) else None;
  }
}
