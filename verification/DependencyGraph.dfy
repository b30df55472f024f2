/** Start-order dependencies between nodes: cycles, and the layer-by-layer search the editor uses to refuse them. */
module DependencyGraph {
  type Graph = map<string, seq<string>>

  ghost predicate Closed(g: Graph) {
    forall n, d {:trigger d in g[n]} :: n in g && d in g[n] ==> d in g
  }

  /** A walk follows dependencies from node to node. */
  ghost predicate IsWalk(g: Graph, w: seq<string>) {
    && (forall i :: 0 <= i < |w| ==> w[i] in g)
    && (forall i :: 0 <= i < |w| - 1 ==> w[i + 1] in g[w[i]])
  }

  ghost predicate IsCycle(g: Graph, w: seq<string>) {
    |w| >= 2 && IsWalk(g, w) && w[0] == w[|w| - 1]
  }

  ghost predicate Acyclic(g: Graph) {
    forall w :: !IsCycle(g, w)
  }

  /** A start order: every dependency exists and comes strictly earlier. */
  ghost predicate IsOrder(g: Graph, rank: map<string, nat>) {
    rank.Keys == g.Keys && forall n, d :: n in g && d in g[n] ==> d in g && rank[d] < rank[n]
  }

  lemma {:induction false} RankFalls(g: Graph, rank: map<string, nat>, w: seq<string>)
    requires IsOrder(g, rank) && |w| >= 2 && IsWalk(g, w)
    ensures rank[w[|w| - 1]] < rank[w[0]]
    decreases |w|
  {
    if |w| > 2 {
      var front := w[..|w| - 1];
      assert IsWalk(g, front);
      RankFalls(g, rank, front);
    }
  }

  lemma OrderedIsAcyclic(g: Graph, rank: map<string, nat>)
    requires IsOrder(g, rank)
    ensures Closed(g) && Acyclic(g)
  {
    forall w | IsCycle(g, w) ensures false {
      RankFalls(g, rank, w);
    }
  }

  // ---------------------------------------------------------------- a stuck remainder holds a cycle

  lemma {:induction false} Repeats(w: seq<string>, names: set<string>) returns (i: nat, j: nat)
    requires |w| > |names| && forall k :: 0 <= k < |w| ==> w[k] in names
    ensures i < j < |w| && w[i] == w[j]
    decreases |w|
  {
    var last, front := w[|w| - 1], w[..|w| - 1];
    if k :| 0 <= k < |front| && front[k] == last {
      i, j := k, |w| - 1;
    } else {
      forall k | 0 <= k < |front| ensures front[k] in names - {last} {
        assert front[k] == w[k];
      }
      i, j := Repeats(front, names - {last});
    }
  }

  /** Some dependency of `n` is in `rest`. */
  ghost predicate HasNext(g: Graph, rest: set<string>, n: string) {
    n in g && exists d :: d in g[n] && d in rest
  }

  ghost predicate Stuck(g: Graph, rest: set<string>) {
    rest != {} && forall n {:trigger HasNext(g, rest, n)} :: n in rest ==> HasNext(g, rest, n)
  }

  lemma {:induction false} LongWalk(g: Graph, rest: set<string>, length: nat) returns (w: seq<string>)
    requires Stuck(g, rest)
    ensures |w| == length + 1 && IsWalk(g, w) && forall k :: 0 <= k < |w| ==> w[k] in rest
    decreases length
  {
    if length == 0 {
      var n :| n in rest;
      assert HasNext(g, rest, n);
      w := [n];
    } else {
      var front := LongWalk(g, rest, length - 1);
      var last := front[|front| - 1];
      assert HasNext(g, rest, last);
      var d :| d in g[last] && d in rest;
      assert HasNext(g, rest, d);
      w := front + [d];
    }
  }

  lemma StuckHasCycle(g: Graph, rest: set<string>) returns (cycle: seq<string>)
    requires Stuck(g, rest)
    ensures IsCycle(g, cycle)
  {
    var w := LongWalk(g, rest, |rest|);
    var i, j := Repeats(w, rest);
    cycle := w[i..j + 1];
  }

  predicate ReadyIn(g: Graph, done: set<string>, n: string)
    requires n in g
  {
    forall d :: d in g[n] ==> d in done
  }

  /** The nodes peeled so far are ranked, every dependency below its dependant. */
  ghost predicate Peeled(g: Graph, done: set<string>, rank: map<string, nat>, layer: nat) {
    && done <= g.Keys && rank.Keys == done
    && (forall n :: n in rank ==> rank[n] < layer)
    && (forall n, d :: n in g && n in done && d in g[n] ==> d in done && rank[d] < rank[n])
  }

  function AllAt(names: set<string>, layer: nat): map<string, nat> {
    map x | x in names :: layer
  }

  lemma PeelLayer(g: Graph, done: set<string>, rank: map<string, nat>, layer: nat, ready: set<string>)
    requires Peeled(g, done, rank, layer) && ready <= g.Keys - done
    requires forall n :: n in ready ==> ReadyIn(g, done, n)
    ensures Peeled(g, done + ready, rank + AllAt(ready, layer), layer + 1)
  {
  }

  lemma StuckIsCyclic(g: Graph, done: set<string>, remaining: set<string>)
    requires remaining == g.Keys - done && remaining != {}
    requires forall n :: n in remaining ==> !ReadyIn(g, done, n)
    ensures !(Closed(g) && Acyclic(g))
  {
    if Closed(g) {
      forall n | n in remaining ensures HasNext(g, remaining, n) {
        assert !ReadyIn(g, done, n);
      }
      var cycle := StuckHasCycle(g, remaining);
    }
  }

  lemma PeeledOut(g: Graph, done: set<string>, rank: map<string, nat>, layer: nat)
    requires Peeled(g, done, rank, layer) && g.Keys - done == {}
    ensures IsOrder(g, rank) && Closed(g) && Acyclic(g)
  {
    assert forall n :: n in g.Keys ==> n in g.Keys - done || n in done;
    assert IsOrder(g, rank);
    OrderedIsAcyclic(g, rank);
  }

  method Ready(g: Graph, done: set<string>, remaining: set<string>) returns (ready: set<string>)
    requires remaining <= g.Keys
    ensures ready <= remaining
    ensures forall n {:trigger ReadyIn(g, done, n)} :: n in remaining ==> (n in ready <==> ReadyIn(g, done, n))
    ensures forall n :: n in ready ==> ReadyIn(g, done, n)
  {
    ready := set n | n in remaining && ReadyIn(g, done, n);
  }

  /** Peels off the nodes whose dependencies are all done, layer by layer, until none remain or none is ready. */
  method Layers(g: Graph) returns (ok: bool, ghost rank: map<string, nat>)
    ensures ok <==> Closed(g) && Acyclic(g)
    ensures ok ==> IsOrder(g, rank)
  {
    var remaining, done := g.Keys, {};
    rank := map[];
    ghost var layer := 0;
    while remaining != {}
      invariant remaining == g.Keys - done && Peeled(g, done, rank, layer)
      decreases |remaining|
    {
      var ready := Ready(g, done, remaining);
      if ready == {} {
        StuckIsCyclic(g, done, remaining);
        return false, rank;
      }
      PeelLayer(g, done, rank, layer, ready);
      Shrinks(remaining, ready);
      rank, layer := rank + AllAt(ready, layer), layer + 1;
      remaining, done := remaining - ready, done + ready;
    }
    PeeledOut(g, done, rank, layer);
    return true, rank;
  }

  lemma Shrinks(remaining: set<string>, ready: set<string>)
    requires ready != {} && ready <= remaining
    ensures |remaining - ready| < |remaining|
  {
    var n :| n in ready;
    Fewer(remaining - ready, remaining - {n});
  }

  lemma Fewer(a: set<string>, b: set<string>)
    requires a <= b
    ensures |a| <= |b|
    decreases |a|
  {
    if a != {} {
      var x :| x in a;
      Fewer(a - {x}, b - {x});
    }
  }

  // ---------------------------------------------------------------- edits

  /** Dropping nodes or dependencies cannot make a cycle. */
  lemma SubgraphIsAcyclic(g: Graph, h: Graph)
    requires Acyclic(g) && h.Keys <= g.Keys && forall n, d :: n in h && d in h[n] ==> d in g[n]
    ensures Acyclic(h)
  {
    forall w | IsCycle(h, w) ensures false {
      assert IsCycle(g, w);
    }
  }

  /** Nor can a new node that depends on nothing. */
  lemma NewNodeIsAcyclic(g: Graph, name: string)
    requires Acyclic(g) && Closed(g) && name !in g
    ensures Acyclic(g[name := []]) && Closed(g[name := []])
  {
    var h := g[name := []];
    forall w | IsCycle(h, w) ensures false {
      forall i | 0 <= i < |w| ensures w[i] != name {
        assert i < |w| - 1 ==> w[i + 1] in h[w[i]];
        assert w[1] in h[w[0]];
      }
      assert IsCycle(g, w);
    }
  }
}
