/** The worklist that collects the non-system dynamic libraries a set of binaries needs. */
module LibraryClosure {
  import opened Basics

  type Path = string
  type Libs = map<string, Path>

  /** A recorded dependency: of the operating system, not resolvable, or resolved to a path. */
  datatype Dep = System | Missing | Found(path: Path)

  /** The files whose dependencies can be read; `name` is the last component of a path, `file` the file it denotes. */
  datatype World = World(deps: map<Path, seq<Dep>>, name: Path -> string, file: Path -> Path)

  ghost predicate Needs(w: World, p: Path, q: Path) {
    p in w.deps && Found(q) in w.deps[p]
  }

  ghost predicate Broken(w: World, p: Path) {
    p !in w.deps || Missing in w.deps[p]
  }

  ghost predicate IsChain(w: World, c: seq<Path>) {
    forall i :: 0 <= i < |c| - 1 ==> Needs(w, c[i], c[i + 1])
  }

  ghost predicate Starts(w: World, bins: seq<Path>, c: seq<Path>) {
    c != [] && c[0] in bins && IsChain(w, c)
  }

  /** `q` is a dependency of a binary, or of a dependency, and so on. */
  ghost predicate Reached(w: World, bins: seq<Path>, q: Path) {
    exists c :: Starts(w, bins, c) && |c| >= 2 && c[|c| - 1] == q
  }

  ghost predicate Visitable(w: World, bins: seq<Path>, q: Path) {
    q in bins || Reached(w, bins, q)
  }

  ghost predicate Clash(w: World, p: Path, q: Path) {
    w.name(p) == w.name(q) && w.file(p) != w.file(q)
  }

  ghost predicate Conflict(w: World, bins: seq<Path>) {
    exists p, q :: Reached(w, bins, p) && Reached(w, bins, q) && Clash(w, p, q)
  }

  ghost predicate AnyBroken(w: World, bins: seq<Path>) {
    exists p :: Visitable(w, bins, p) && Broken(w, p)
  }

  /** Two paths of one file need the same libraries. */
  ghost predicate SameNeeds(w: World, p: Path, q: Path) {
    && (Broken(w, p) ==> Broken(w, q))
    && (forall x :: Needs(w, p, x) ==> exists y :: Needs(w, q, y) && w.name(x) == w.name(y) && w.file(x) == w.file(y))
  }

  ghost predicate Coherent(w: World) {
    forall p, q {:trigger SameNeeds(w, p, q)} :: w.file(p) == w.file(q) ==> SameNeeds(w, p, q)
  }

  /** One path for each name of a needed library, which is needed itself, and the only file of that name that is. */
  ghost predicate Exactly(w: World, bins: seq<Path>, libs: Libs) {
    && (forall n :: n in libs <==> exists q :: Reached(w, bins, q) && w.name(q) == n)
    && (forall n :: n in libs ==> w.name(libs[n]) == n && Reached(w, bins, libs[n]))
    && (forall n, q :: n in libs && Reached(w, bins, q) && w.name(q) == n ==> w.file(q) == w.file(libs[n]))
  }

  // ---------------------------------------------------------------- what the worklist keeps

  /** Each library kept is needed, and is kept under its own name. */
  ghost predicate Sound(w: World, bins: seq<Path>, libs: Libs) {
    forall n :: n in libs ==> w.name(libs[n]) == n && Reached(w, bins, libs[n])
  }

  /** What stands for `q` is the same file. */
  ghost predicate Covered(w: World, libs: Libs, q: Path) {
    w.name(q) in libs && w.file(libs[w.name(q)]) == w.file(q)
  }

  ghost predicate Explored(w: World, libs: Libs, p: Path) {
    !Broken(w, p) && forall q :: Needs(w, p, q) ==> Covered(w, libs, q)
  }

  ghost predicate Extends(libs: Libs, more: Libs) {
    forall n :: n in libs ==> n in more && more[n] == libs[n]
  }

  /** Everything found is a binary or a library kept, and is still queued or fully explored. */
  ghost predicate Tracked(w: World, bins: seq<Path>, libs: Libs, queue: seq<Path>, visited: set<Path>) {
    && (forall p :: p in queue || p in visited ==> Visitable(w, bins, p))
    && (forall p :: p in bins ==> p in queue || p in visited)
    && (forall n :: n in libs ==> libs[n] in queue || libs[n] in visited)
    && (forall p :: p in visited ==> Explored(w, libs, p))
  }

  /** Exactly the libraries newly kept are newly queued. */
  ghost predicate Queued(w: World, bins: seq<Path>, libs0: Libs, queue0: seq<Path>, libs: Libs, queue: seq<Path>) {
    && (forall p :: p in queue0 ==> p in queue)
    && (forall p :: p in queue ==> p in queue0 || Reached(w, bins, p))
    && (forall n :: n in libs && n !in libs0 ==> libs[n] in queue)
    && (libs == libs0 ==> queue == queue0)
  }

  lemma ExploredLater(w: World, libs: Libs, more: Libs, visited: set<Path>)
    requires Extends(libs, more) && forall p :: p in visited ==> Explored(w, libs, p)
    ensures forall p :: p in visited ==> Explored(w, more, p)
  {
    forall p, q | p in visited && Needs(w, p, q) ensures Covered(w, more, q) {
      assert Explored(w, libs, p) && Covered(w, libs, q);
    }
  }

  lemma TrackedNext(w: World, bins: seq<Path>, libs: Libs, rest: seq<Path>, visited: set<Path>, current: Path,
                    more: Libs, queue: seq<Path>)
    requires Tracked(w, bins, libs, rest + [current], visited)
    requires Extends(libs, more) && Queued(w, bins, libs, rest, more, queue) && Explored(w, more, current)
    ensures Tracked(w, bins, more, queue, visited + {current})
  {
    ExploredLater(w, libs, more, visited);
    assert forall p :: p in rest + [current] <==> p in rest || p == current;
    assert current in rest + [current];
  }

  lemma Added(w: World, bins: seq<Path>, libs0: Libs, queue0: seq<Path>, libs: Libs, queue: seq<Path>, path: Path)
    requires Sound(w, bins, libs) && Extends(libs0, libs) && Queued(w, bins, libs0, queue0, libs, queue)
    requires w.name(path) !in libs && Reached(w, bins, path)
    ensures var more := libs[w.name(path) := path];
            && Sound(w, bins, more) && Extends(libs0, more) && Queued(w, bins, libs0, queue0, more, queue + [path])
            && (forall q :: Covered(w, libs, q) ==> Covered(w, more, q)) && Covered(w, more, path)
  {
    var more := libs[w.name(path) := path];
    assert forall p :: p in queue + [path] <==> p in queue || p == path;
    assert more != libs0 by { assert w.name(path) !in libs0; }
  }

  lemma OneStep(w: World, bins: seq<Path>, p: Path, q: Path)
    requires Visitable(w, bins, p) && Needs(w, p, q)
    ensures Reached(w, bins, q)
  {
    if p in bins {
      assert Starts(w, bins, [p, q]);
    } else {
      var c :| Starts(w, bins, c) && |c| >= 2 && c[|c| - 1] == p;
      assert Starts(w, bins, c + [q]);
    }
  }

  /** Every name that some file needs; there are finitely many. */
  ghost function Names(w: World): set<string> {
    set p, i | p in w.deps && 0 <= i < |w.deps[p]| && w.deps[p][i].Found? :: w.name(w.deps[p][i].path)
  }

  // ---------------------------------------------------------------- the worklist

  /** The dependencies of one file: a library with a new name is kept and queued. */
  method Explore(w: World, ghost bins: seq<Path>, current: Path, libs0: Libs, queue0: seq<Path>)
    returns (r: Result<(Libs, seq<Path>)>)
    requires Sound(w, bins, libs0) && Visitable(w, bins, current) && current in w.deps
    requires libs0.Keys <= Names(w)
    ensures r.Ok? ==>
      var (libs, queue) := r.value;
      && Sound(w, bins, libs) && Explored(w, libs, current) && libs.Keys <= Names(w)
      && Extends(libs0, libs) && Queued(w, bins, libs0, queue0, libs, queue)
    ensures r.Err? ==> (r.code == "conflict" && Conflict(w, bins)) || (r.code == "unresolved" && Missing in w.deps[current])
  {
    var libs, queue := libs0, queue0;
    for i := 0 to |w.deps[current]|
      invariant Sound(w, bins, libs) && Extends(libs0, libs) && libs.Keys <= Names(w)
      invariant forall k :: 0 <= k < i ==> !w.deps[current][k].Missing?
      invariant forall k :: 0 <= k < i && w.deps[current][k].Found? ==> Covered(w, libs, w.deps[current][k].path)
      invariant Queued(w, bins, libs0, queue0, libs, queue)
    {
      match w.deps[current][i]
      case System =>
      case Missing => return Err("unresolved");
      case Found(path) =>
        OneStep(w, bins, current, path);
        var name := w.name(path);
        if name in libs && w.file(libs[name]) != w.file(path) {
          assert Clash(w, libs[name], path);
          return Err("conflict");
        }
        if name !in libs {
          Added(w, bins, libs0, queue0, libs, queue, path);
          libs := libs[name := path];
          queue := queue + [path];
        }
    }
    return Ok((libs, queue));
  }

  method Closure(w: World, binaries: seq<Path>) returns (r: Result<Libs>)
    ensures Coherent(w) ==> (r.Ok? <==> !Conflict(w, binaries) && !AnyBroken(w, binaries))
    ensures Coherent(w) && r.Ok? ==> Exactly(w, binaries, r.value)
    ensures r.Ok? ==> Sound(w, binaries, r.value)
    ensures r.Ok? ==> forall p :: p in binaries || p in r.value.Values ==> Explored(w, r.value, p)
    ensures r.Err? ==> (r.code == "conflict" && Conflict(w, binaries)) || (r.code == "unresolved" && AnyBroken(w, binaries))
  {
    var libs: Libs, queue, visited := map[], binaries, {};
    while queue != []
      invariant Sound(w, binaries, libs) && Tracked(w, binaries, libs, queue, visited) && libs.Keys <= Names(w)
      decreases Names(w) - libs.Keys, |queue|
    {
      var current := queue[|queue| - 1];
      var rest := queue[..|queue| - 1];
      assert queue == rest + [current];
      if current in visited {
        queue := rest;
      } else {
        if current !in w.deps { return Err("unresolved"); }
        var next := Explore(w, binaries, current, libs, rest);
        if next.Err? { return Err(next.code); }
        TrackedNext(w, binaries, libs, rest, visited, current, next.value.0, next.value.1);
        libs, queue, visited := next.value.0, next.value.1, visited + {current};
      }
    }
    if Coherent(w) { TrackedOutIsClosed(w, binaries, libs, visited); }
    return Ok(libs);
  }

  lemma TwinCovers(w: World, libs: Libs, o: Path, twin: Path, q: Path)
    requires SameNeeds(w, o, twin) && Needs(w, o, q) && Explored(w, libs, twin)
    ensures Covered(w, libs, q)
  {
    var y :| Needs(w, twin, y) && w.name(q) == w.name(y) && w.file(q) == w.file(y);
    assert Covered(w, libs, y);
  }

  /** Following any chain from a binary, each path has an explored twin of the same file. */
  lemma {:induction false} Twin(w: World, bins: seq<Path>, libs: Libs, visited: set<Path>, c: seq<Path>) returns (p: Path)
    requires Coherent(w) && Tracked(w, bins, libs, [], visited) && Starts(w, bins, c)
    ensures p in visited && w.file(p) == w.file(c[|c| - 1]) && (|c| >= 2 ==> Covered(w, libs, c[|c| - 1]))
    decreases |c|
  {
    var q := c[|c| - 1];
    if |c| == 1 {
      p := q;
    } else {
      var front := c[..|c| - 1];
      var o := front[|front| - 1];
      assert Needs(w, c[|c| - 2], c[|c| - 1]);
      var twin := Twin(w, bins, libs, visited, front);
      assert SameNeeds(w, o, twin);
      TwinCovers(w, libs, o, twin, q);
      p := libs[w.name(q)];
    }
  }

  lemma TrackedOutIsClosed(w: World, bins: seq<Path>, libs: Libs, visited: set<Path>)
    requires Coherent(w) && Sound(w, bins, libs) && Tracked(w, bins, libs, [], visited)
    ensures !Conflict(w, bins) && !AnyBroken(w, bins) && Exactly(w, bins, libs)
  {
    forall q | Reached(w, bins, q) ensures Covered(w, libs, q) {
      var c :| Starts(w, bins, c) && |c| >= 2 && c[|c| - 1] == q;
      var p := Twin(w, bins, libs, visited, c);
    }
    forall q | Visitable(w, bins, q) ensures !Broken(w, q) {
      if q !in bins {
        var c :| Starts(w, bins, c) && |c| >= 2 && c[|c| - 1] == q;
        var p := Twin(w, bins, libs, visited, c);
        assert SameNeeds(w, q, p);
      }
    }
  }

  /** The outcome does not depend on the order of the search: the names, and the files they stand for, are those of the
      needed libraries. */
  lemma ExactIsUnique(w: World, bins: seq<Path>, one: Libs, other: Libs)
    requires Exactly(w, bins, one) && Exactly(w, bins, other)
    ensures one.Keys == other.Keys && forall n :: n in one ==> w.file(one[n]) == w.file(other[n])
  {
  }
}
