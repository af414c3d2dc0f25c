/** The dependency graph that bundle mimicry works on, and the two traversals of it:
    the bounded search up from the starting bundles, and the depth-first order in which
    bundles are remade. */
module MimicGraph {
  import opened Common

  /** Uuids are opaque names; only equality matters. */
  type Uuid = nat

  datatype Dependency<+P> = Dependency(parent: P, parentPath: string, childPath: string)

  /** The part of a bundle that gives it its meaning. */
  datatype Info<+P> = Info(bundleType: string, command: string, dependencies: seq<Dependency<P>>)

  type Graph = map<Uuid, Info<Uuid>>

  function Parents(info: Info<Uuid>): (ps: seq<Uuid>)
    ensures |ps| == |info.dependencies|
    ensures forall i :: 0 <= i < |ps| ==> ps[i] == info.dependencies[i].parent
  {
    seq(|info.dependencies|, i requires 0 <= i < |info.dependencies| => info.dependencies[i].parent)
  }

  ghost predicate Edge(g: Graph, child: Uuid, parent: Uuid) {
    child in g && parent in Parents(g[child])
  }

  // ---------------------------------------------------------------- bounded search

  /** All parents of the bundles of `s` that `g` knows. */
  ghost function ParentsOf(g: Graph, s: set<Uuid>): set<Uuid> {
    set u, p | u in s && u in g && p in Parents(g[u]) :: p
  }

  /** The bundles at most `k` dependency steps above `starts`. */
  ghost function Within(g: Graph, starts: set<Uuid>, k: nat): set<Uuid> {
    if k == 0 then starts else var w := Within(g, starts, k - 1); w + ParentsOf(g, w)
  }

  lemma {:induction false} WithinMonotone(g: Graph, starts: set<Uuid>, j: nat, k: nat)
    requires j <= k
    ensures Within(g, starts, j) <= Within(g, starts, k)
  {
    if j < k {
      WithinMonotone(g, starts, j, k - 1);
    }
  }

  // ---------------------------------------------------------------- paths

  /** A walk from a bundle up its dependencies; every bundle but the last is known to `g`. */
  ghost predicate Path(g: Graph, path: seq<Uuid>) {
    |path| > 0 && forall i :: 0 <= i < |path| - 1 ==> Edge(g, path[i], path[i + 1])
  }

  ghost predicate PathTo(g: Graph, path: seq<Uuid>, u: Uuid, v: Uuid) {
    Path(g, path) && path[0] == u && path[|path| - 1] == v
  }

  /** There is a walk of at most `k` steps from one of the starts to `u`. */
  ghost predicate Near(g: Graph, starts: set<Uuid>, k: nat, u: Uuid) {
    exists path :: Walks(g, starts, k, u, path)
  }

  ghost predicate Walks(g: Graph, starts: set<Uuid>, k: nat, u: Uuid, path: seq<Uuid>) {
    Path(g, path) && path[0] in starts && path[|path| - 1] == u && |path| <= k + 1
  }

  lemma {:induction false} NearIsWithin(g: Graph, starts: set<Uuid>, k: nat, u: Uuid, path: seq<Uuid>)
    requires Walks(g, starts, k, u, path)
    ensures u in Within(g, starts, k)
  {
    var n := |path| - 1;
    if n == 0 {
      WithinMonotone(g, starts, 0, k);
    } else {
      var p := path[n - 1];
      assert Walks(g, starts, k - 1, p, path[..n]);
      NearIsWithin(g, starts, k - 1, p, path[..n]);
      assert Edge(g, path[n - 1], path[n - 1 + 1]);
    }
  }

  lemma {:induction false} WithinIsNear(g: Graph, starts: set<Uuid>, k: nat, u: Uuid)
    requires u in Within(g, starts, k)
    ensures Near(g, starts, k, u)
  {
    if k == 0 {
      assert Walks(g, starts, 0, u, [u]);
    } else if u in Within(g, starts, k - 1) {
      WithinIsNear(g, starts, k - 1, u);
      var path :| Walks(g, starts, k - 1, u, path);
      assert Walks(g, starts, k, u, path);
    } else {
      var c, p :| c in Within(g, starts, k - 1) && c in g && p in Parents(g[c]) && p == u;
      WithinIsNear(g, starts, k - 1, c);
      var path :| Walks(g, starts, k - 1, c, path);
      assert Walks(g, starts, k, u, path + [u]);
    }
  }

  /** The bundles within `k` levels are those with a walk of at most `k` steps. */
  lemma WithinExactly(g: Graph, starts: set<Uuid>, k: nat, u: Uuid)
    ensures u in Within(g, starts, k) <==> Near(g, starts, k, u)
  {
    if u in Within(g, starts, k) {
      WithinIsNear(g, starts, k, u);
    }
    if Near(g, starts, k, u) {
      var path :| Walks(g, starts, k, u, path);
      NearIsWithin(g, starts, k, u, path);
    }
  }

  /** `u` has a dependency path through bundles of `g` to one of `seeds`. */
  ghost predicate Reaches(g: Graph, seeds: set<Uuid>, u: Uuid) {
    exists path :: Path(g, path) && path[0] == u && path[|path| - 1] in seeds
  }

  lemma PathCons(g: Graph, u: Uuid, path: seq<Uuid>)
    requires Path(g, path) && Edge(g, u, path[0])
    ensures Path(g, [u] + path)
    ensures ([u] + path)[0] == u && ([u] + path)[|path|] == path[|path| - 1]
  {
    var q := [u] + path;
    forall i | 0 <= i < |q| - 1
      ensures Edge(g, q[i], q[i + 1])
    {
      if i > 0 {
        assert q[i] == path[i - 1] && q[i + 1] == path[i];
      }
    }
  }

  lemma PathTail(g: Graph, path: seq<Uuid>)
    requires Path(g, path) && |path| > 1
    ensures Path(g, path[1..]) && Edge(g, path[0], path[1])
  {
    var rest := path[1..];
    forall i | 0 <= i < |rest| - 1
      ensures Edge(g, rest[i], rest[i + 1])
    {
      assert Edge(g, path[i + 1], path[i + 2]);
    }
  }

  lemma ReachesStep(g: Graph, seeds: set<Uuid>, u: Uuid)
    ensures Reaches(g, seeds, u) <==> u in seeds || exists p :: Edge(g, u, p) && Reaches(g, seeds, p)
  {
    if u in seeds {
      assert Path(g, [u]);
      assert [u][0] == u && [u][|[u]| - 1] in seeds;
    }
    if p :| Edge(g, u, p) && Reaches(g, seeds, p) {
      var path :| Path(g, path) && path[0] == p && path[|path| - 1] in seeds;
      PathCons(g, u, path);
      assert ([u] + path)[|[u] + path| - 1] in seeds;
    }
    if Reaches(g, seeds, u) && u !in seeds {
      var path :| Path(g, path) && path[0] == u && path[|path| - 1] in seeds;
      var rest := path[1..];
      PathTail(g, path);
      assert rest[|rest| - 1] in seeds;
      assert Edge(g, u, rest[0]) && Reaches(g, seeds, rest[0]);
    }
  }

  // ---------------------------------------------------------------- acyclic graphs

  type Rank = Uuid -> nat

  /** `rank` drops along every dependency of a known bundle that is not cut off. */
  ghost predicate Ranked(g: Graph, cut: set<Uuid>, rank: Rank) {
    forall u, p :: u !in cut && Edge(g, u, p) ==> rank(p) < rank(u)
  }

  /** No dependency path through known, uncut bundles comes back to its start. */
  ghost predicate Acyclic(g: Graph, cut: set<Uuid>) {
    !exists path :: Cycle(g, cut, path)
  }

  ghost predicate Cycle(g: Graph, cut: set<Uuid>, path: seq<Uuid>) {
    && Path(g, path) && |path| > 1 && path[0] == path[|path| - 1]
    && forall i :: 0 <= i < |path| ==> path[i] !in cut
  }

  // ---------------------------------------------------------------- depth-first order

  /** The bundles handled after `u` has been asked for, in the order they are finished:
      a bundle is finished after all its parents. Cut bundles, bundles already finished and
      bundles `g` does not know are left alone. */
  ghost function Visit(g: Graph, cut: set<Uuid>, rank: Rank, u: Uuid, done: seq<Uuid>): seq<Uuid>
    requires Ranked(g, cut, rank)
    decreases rank(u), 1, 0
  {
    if u in cut || u in done || u !in g then done
    else
      assert forall p :: p in Parents(g[u]) ==> Edge(g, u, p);
      VisitFirst(g, cut, rank, rank(u), Parents(g[u]), |g[u].dependencies|, done) + [u]
  }

  /** The order after the first `n` bundles of `us` have been asked for in turn. */
  ghost function VisitFirst(g: Graph, cut: set<Uuid>, rank: Rank, bound: nat, us: seq<Uuid>, n: nat,
                            done: seq<Uuid>): seq<Uuid>
    requires Ranked(g, cut, rank) && n <= |us|
    requires forall u :: u in us ==> rank(u) < bound
    decreases bound, 0, n
  {
    if n == 0 then done
    else Visit(g, cut, rank, us[n - 1], VisitFirst(g, cut, rank, bound, us, n - 1, done))
  }

  /** A bundle no longer needs attention: it is cut, unknown, or finished. */
  ghost predicate Settled(g: Graph, cut: set<Uuid>, done: seq<Uuid>, u: Uuid) {
    u in cut || u !in g || u in done
  }

  /** `done` holds known, uncut bundles, each once, and parents come before children. */
  ghost predicate Ordered(g: Graph, cut: set<Uuid>, done: seq<Uuid>) {
    && NoDup(done)
    && (forall u :: u in done ==> u in g && u !in cut)
    && (forall i, p :: 0 <= i < |done| && Edge(g, done[i], p) ==> Settled(g, cut, done[..i], p))
  }

  /** `v` is reached from `u` without passing a cut or unknown bundle. */
  ghost predicate Leads(g: Graph, cut: set<Uuid>, u: Uuid, v: Uuid) {
    exists path :: PathTo(g, path, u, v) && Open(g, cut, path)
  }

  ghost predicate Open(g: Graph, cut: set<Uuid>, path: seq<Uuid>) {
    forall i :: 0 <= i < |path| ==> path[i] in g && path[i] !in cut
  }

  lemma LeadsCons(g: Graph, cut: set<Uuid>, u: Uuid, p: Uuid, v: Uuid)
    requires Edge(g, u, p) && u !in cut && Leads(g, cut, p, v)
    ensures Leads(g, cut, u, v)
  {
    var path :| PathTo(g, path, p, v) && Open(g, cut, path);
    PathCons(g, u, path);
    assert PathTo(g, [u] + path, u, v) && Open(g, cut, [u] + path);
  }

  /** What asking for one bundle adds. */
  lemma {:induction false} VisitFacts(g: Graph, cut: set<Uuid>, rank: Rank, u: Uuid, done: seq<Uuid>)
    requires Ranked(g, cut, rank) && Ordered(g, cut, done)
    ensures var after := Visit(g, cut, rank, u, done);
      && Ordered(g, cut, after) && done <= after && Settled(g, cut, after, u)
      && forall v :: v in after ==> v in done || Leads(g, cut, u, v)
    ensures forall v :: v in Visit(g, cut, rank, u, done) ==> v in done || rank(v) <= rank(u)
    decreases rank(u), 1, 0
  {
    if !(u in cut || u in done || u !in g) {
      var ps := Parents(g[u]);
      assert forall p :: p in ps ==> Edge(g, u, p);
      VisitFirstFacts(g, cut, rank, rank(u), ps, |ps|, done);
      var before := VisitFirst(g, cut, rank, rank(u), ps, |ps|, done);
      var after := before + [u];
      assert u !in before;
      assert forall i :: 0 <= i < |before| ==> after[..i] == before[..i];
      assert after[..|before|] == before;
      forall v | v in before && v !in done
        ensures Leads(g, cut, u, v)
      {
        var i :| 0 <= i < |ps| && Leads(g, cut, ps[i], v);
        LeadsCons(g, cut, u, ps[i], v);
      }
      assert PathTo(g, [u], u, u) && Open(g, cut, [u]);
    }
  }

  lemma {:induction false} VisitFirstFacts(g: Graph, cut: set<Uuid>, rank: Rank, bound: nat, us: seq<Uuid>,
                                           n: nat, done: seq<Uuid>)
    requires Ranked(g, cut, rank) && Ordered(g, cut, done) && n <= |us|
    requires forall u :: u in us ==> rank(u) < bound
    ensures var after := VisitFirst(g, cut, rank, bound, us, n, done);
      && Ordered(g, cut, after) && done <= after
      && (forall i :: 0 <= i < n ==> Settled(g, cut, after, us[i]))
      && forall v :: v in after ==> v in done || exists i :: 0 <= i < n && Leads(g, cut, us[i], v)
    ensures forall v :: v in VisitFirst(g, cut, rank, bound, us, n, done) ==> v in done || rank(v) < bound
    decreases bound, 0, n
  {
    hide Ordered, Leads, Visit;
    if n > 0 {
      VisitFirstFacts(g, cut, rank, bound, us, n - 1, done);
      VisitFacts(g, cut, rank, us[n - 1], VisitFirst(g, cut, rank, bound, us, n - 1, done));
    }
  }

  /** Whatever a finished bundle leads to is finished too. */
  lemma {:induction false} FinishedIsClosed(g: Graph, cut: set<Uuid>, done: seq<Uuid>, path: seq<Uuid>)
    requires Ordered(g, cut, done) && Path(g, path) && Open(g, cut, path) && path[0] in done
    ensures path[|path| - 1] in done
  {
    if |path| > 1 {
      assert Edge(g, path[0], path[1]);
      var i :| 0 <= i < |done| && done[i] == path[0];
      assert Settled(g, cut, done[..i], path[1]);
      PathTail(g, path);
      FinishedIsClosed(g, cut, done, path[1..]);
    }
  }

  /** Which bundles a whole series of requests handles, whatever the order of the requests:
      exactly those that some request leads to. */
  lemma VisitedExactly(g: Graph, cut: set<Uuid>, rank: Rank, bound: nat, us: seq<Uuid>, v: Uuid)
    requires Ranked(g, cut, rank)
    requires forall u :: u in us ==> rank(u) < bound
    ensures v in VisitFirst(g, cut, rank, bound, us, |us|, []) <==> exists u :: u in us && Leads(g, cut, u, v)
  {
    VisitFirstFacts(g, cut, rank, bound, us, |us|, []);
    var done := VisitFirst(g, cut, rank, bound, us, |us|, []);
    if u :| u in us && Leads(g, cut, u, v) {
      var path :| PathTo(g, path, u, v) && Open(g, cut, path);
      assert path[0] == u && u in g && u !in cut;
      FinishedIsClosed(g, cut, done, path);
    }
  }

  // ---------------------------------------------------------------- a rank from acyclicity

  ghost predicate HasParentIn(g: Graph, s: set<Uuid>, u: Uuid) {
    exists p :: p in s && Edge(g, u, p)
  }

  /** A walk of any length inside a set in which everything has a parent. */
  lemma {:induction false} LongWalk(g: Graph, s: set<Uuid>, u: Uuid, n: nat) returns (path: seq<Uuid>)
    requires u in s && forall v :: v in s ==> HasParentIn(g, s, v)
    ensures Path(g, path) && |path| == n + 1 && Elems(path) <= s && path[0] == u
    decreases n
  {
    hide HasParentIn;
    if n == 0 {
      path := [u];
    } else {
      var p := ParentIn(g, s, u);
      var rest := LongWalk(g, s, p, n - 1);
      PathCons(g, u, rest);
      path := [u] + rest;
    }
  }

  lemma ParentIn(g: Graph, s: set<Uuid>, u: Uuid) returns (p: Uuid)
    requires HasParentIn(g, s, u)
    ensures p in s && Edge(g, u, p)
  {
    p :| p in s && Edge(g, u, p);
  }

  lemma SubPath(g: Graph, path: seq<Uuid>, i: nat, j: nat)
    requires Path(g, path) && i <= j < |path|
    ensures Path(g, path[i..j + 1])
  {
    var sub := path[i..j + 1];
    forall k | 0 <= k < |sub| - 1
      ensures Edge(g, sub[k], sub[k + 1])
    {
      assert Edge(g, path[i + k], path[i + k + 1]);
    }
  }

  /** A walk too long for the set it stays in comes back to some bundle. */
  lemma WalkRepeats(path: seq<Uuid>, s: set<Uuid>) returns (i: nat, j: nat)
    requires Elems(path) <= s && |path| > |s|
    ensures i < j < |path| && path[i] == path[j]
  {
    if NoDup(path) {
      NoDupSize(path);
      SubsetSize(Elems(path), s);
    }
    i, j :| i < j < |path| && path[i] == path[j];
  }

  lemma LoopIsCycle(g: Graph, cut: set<Uuid>, path: seq<Uuid>, i: nat, j: nat)
    requires Path(g, path) && Elems(path) !! cut && i < j < |path| && path[i] == path[j]
    ensures Cycle(g, cut, path[i..j + 1])
  {
    SubPath(g, path, i, j);
    var loop := path[i..j + 1];
    forall k | 0 <= k < |loop|
      ensures loop[k] !in cut
    {
      assert path[i + k] in Elems(path);
    }
  }

  /** Among uncut bundles without a cycle, some bundle has no parent. */
  lemma Minimal(g: Graph, cut: set<Uuid>, s: set<Uuid>) returns (u: Uuid)
    requires Acyclic(g, cut) && s != {} && s !! cut
    ensures u in s && !HasParentIn(g, s, u)
  {
    hide HasParentIn, Path, NoDup, Cycle;
    if v :| v in s && !HasParentIn(g, s, v) {
      return v;
    }
    u :| u in s;
    var path := LongWalk(g, s, u, |s|);
    var i, j := WalkRepeats(path, s);
    LoopIsCycle(g, cut, path, i, j);
  }

  lemma OrderedSnoc(g: Graph, cut: set<Uuid>, done: seq<Uuid>, u: Uuid)
    requires Ordered(g, cut, done) && u in g && u !in cut && u !in done
    requires forall p :: Edge(g, u, p) ==> Settled(g, cut, done, p)
    ensures Ordered(g, cut, done + [u])
  {
    var more := done + [u];
    assert more[..|done|] == done && forall i :: 0 <= i < |done| ==> more[..i] == done[..i];
  }

  /** Without a cycle, the uncut bundles can be listed parents first. */
  lemma {:induction false} ListedFrom(g: Graph, cut: set<Uuid>, done: seq<Uuid>) returns (all: seq<Uuid>)
    requires Acyclic(g, cut) && Ordered(g, cut, done)
    ensures Ordered(g, cut, all) && Elems(all) == g.Keys - cut
    decreases |g.Keys - cut - Elems(done)|
  {
    var rest := g.Keys - cut - Elems(done);
    if rest == {} {
      return done;
    }
    var u := Minimal(g, cut, rest);
    OrderedSnoc(g, cut, done, u);
    hide Ordered, Acyclic;
    var more := done + [u];
    assert g.Keys - cut - Elems(more) == rest - {u};
    all := ListedFrom(g, cut, more);
  }

  ghost function IndexIn(s: seq<Uuid>, u: Uuid): (k: nat)
    ensures u in s ==> k < |s| && s[k] == u
    ensures u !in s ==> k == |s|
  {
    if s == [] then 0 else if s[0] == u then 0 else 1 + IndexIn(s[1..], u)
  }

  lemma {:induction false} IndexInNoDup(s: seq<Uuid>, i: nat)
    requires NoDup(s) && i < |s|
    ensures IndexIn(s, s[i]) == i
  {
    assert s[IndexIn(s, s[i])] == s[i];
  }

  /** Every acyclic graph can be ranked, so the recursion ends on every acyclic graph. */
  lemma AcyclicRanked(g: Graph, cut: set<Uuid>) returns (rank: Rank)
    requires Acyclic(g, cut)
    ensures Ranked(g, cut, rank)
  {
    var all := ListedFrom(g, cut, []);
    rank := u => if u in all then IndexIn(all, u) + 1 else 0;
    forall u, p | u !in cut && Edge(g, u, p)
      ensures rank(p) < rank(u)
    {
      assert u in Elems(all);
      var i := IndexIn(all, u);
      IndexInNoDup(all, i);
      assert Settled(g, cut, all[..i], p);
      if p in all {
        assert p in Elems(all) && p !in cut && p in g;
        var j :| 0 <= j < i && all[..i][j] == p;
        IndexInNoDup(all, j);
      }
    }
  }

  /** And only acyclic graphs can be ranked. */
  lemma RankedAcyclic(g: Graph, cut: set<Uuid>, rank: Rank)
    requires Ranked(g, cut, rank)
    ensures Acyclic(g, cut)
  {
    if path :| Cycle(g, cut, path) {
      RankFalls(g, cut, rank, path);
    }
  }

  lemma {:induction false} RankFalls(g: Graph, cut: set<Uuid>, rank: Rank, path: seq<Uuid>)
    requires Ranked(g, cut, rank) && Path(g, path) && |path| > 1
    requires forall i :: 0 <= i < |path| ==> path[i] !in cut
    ensures rank(path[|path| - 1]) < rank(path[0])
  {
    PathTail(g, path);
    if |path| > 2 {
      RankFalls(g, cut, rank, path[1..]);
    }
  }
}
