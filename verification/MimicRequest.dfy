/** The whole of mimicry: gather the bundles above the starting ones, then remake. */
module MimicRequest {
  import opened Common
  import opened MimicGraph
  import opened Mimic

  // ---------------------------------------------------------------- gathering

  /** Those of the first `n` parents that are not known yet. */
  ghost function Unknown(ps: seq<Uuid>, known: set<Uuid>, n: nat): seq<Uuid>
    requires n <= |ps|
  {
    if n == 0 then []
    else Unknown(ps, known, n - 1) + if ps[n - 1] in known then [] else [ps[n - 1]]
  }

  lemma {:induction false} UnknownElems(ps: seq<Uuid>, known: set<Uuid>, n: nat)
    requires n <= |ps|
    ensures forall p :: p in Unknown(ps, known, n) <==> p in ps[..n] && p !in known
  {
    if n > 0 {
      UnknownElems(ps, known, n - 1);
      assert ps[..n] == ps[..n - 1] + [ps[n - 1]];
    }
  }

  /** The batch that the first `n` bundles of `queue` send up to the next level. */
  ghost function NextBatch(g: Graph, known: set<Uuid>, visited: set<Uuid>, queue: seq<Uuid>, n: nat): seq<Uuid>
    requires n <= |queue|
  {
    if n == 0 then []
    else
      var u := queue[n - 1];
      NextBatch(g, known, visited, queue, n - 1) +
      if u in visited + Elems(queue[..n - 1]) || u !in g then []
      else Unknown(Parents(g[u]), known + Elems(queue[..n]), |g[u].dependencies|)
  }

  /** Only parents of bundles in the queue are sent up. */
  lemma {:induction false} NextBatchSound(g: Graph, known: set<Uuid>, visited: set<Uuid>, queue: seq<Uuid>, n: nat, p: Uuid)
    requires n <= |queue| && p in NextBatch(g, known, visited, queue, n)
    ensures p in ParentsOf(g, Elems(queue))
  {
    var u := queue[n - 1];
    if p in NextBatch(g, known, visited, queue, n - 1) {
      NextBatchSound(g, known, visited, queue, n - 1, p);
    } else {
      UnknownElems(Parents(g[u]), known + Elems(queue[..n]), |g[u].dependencies|);
      var s := Elems(queue);
      assert u in s && u in g && p in Parents(g[u]);
    }
  }

  /** A parent of a newly visited bundle is known by then, or is sent up. */
  lemma {:induction false} NextBatchComplete(g: Graph, known: set<Uuid>, visited: set<Uuid>, queue: seq<Uuid>, n: nat,
                                             u: Uuid, p: Uuid)
    requires n <= |queue| && u in queue[..n] && u !in visited && Edge(g, u, p)
    ensures p in known + Elems(queue[..n]) || p in NextBatch(g, known, visited, queue, n)
  {
    assert queue[..n] == queue[..n - 1] + [queue[n - 1]];
    if u in queue[..n - 1] {
      NextBatchComplete(g, known, visited, queue, n - 1, u, p);
    } else {
      UnknownElems(Parents(g[u]), known + Elems(queue[..n]), |g[u].dependencies|);
    }
  }

  /** All bundles looked at, the last level first. */
  ghost function Lineage(g: Graph, known: set<Uuid>, visited: set<Uuid>, queue: seq<Uuid>, result: seq<Uuid>,
                         depth: nat): seq<Uuid>
    decreases depth
  {
    if depth == 0 then result
    else
      var next := NextBatch(g, known, visited, queue, |queue|);
      Lineage(g, known + Elems(queue), visited + Elems(queue), next, next + result, depth - 1)
  }

  /** What the search knows when level `k` begins. */
  ghost predicate AtLevel(g: Graph, starts: set<Uuid>, k: nat, known: set<Uuid>, visited: set<Uuid>, queue: seq<Uuid>) {
    && known + Elems(queue) == Within(g, starts, k)
    && if k == 0 then known == starts && visited == {}
       else known == visited == Within(g, starts, k - 1)
  }

  lemma LevelStep(g: Graph, starts: set<Uuid>, k: nat, known: set<Uuid>, visited: set<Uuid>, queue: seq<Uuid>)
    requires AtLevel(g, starts, k, known, visited, queue)
    requires k == 0 ==> Elems(queue) == starts
    ensures AtLevel(g, starts, k + 1, known + Elems(queue), visited + Elems(queue),
                    NextBatch(g, known, visited, queue, |queue|))
    ensures visited <= known
    ensures Elems(NextBatch(g, known, visited, queue, |queue|)) + Within(g, starts, k) == Within(g, starts, k + 1)
  {
    var n := |queue|;
    assert queue[..n] == queue;
    var w := Within(g, starts, k);
    var next := NextBatch(g, known, visited, queue, n);
    forall p | p in ParentsOf(g, w)
      ensures p in w + Elems(next)
    {
      var u :| u in w && u in g && p in Parents(g[u]);
      assert Edge(g, u, p);
      if u in visited {
        assert p in ParentsOf(g, Within(g, starts, k - 1));
      } else {
        assert u in queue[..n];
        NextBatchComplete(g, known, visited, queue, n, u, p);
      }
    }
    forall p | p in next
      ensures p in ParentsOf(g, w)
    {
      NextBatchSound(g, known, visited, queue, n, p);
    }
  }

  /** The bundles whose information the search needs: those fewer than `depth` steps up. */
  ghost function Needed(g: Graph, starts: seq<Uuid>, depth: nat): set<Uuid> {
    Within(g, Elems(starts), if depth == 0 then 0 else depth - 1)
  }

  ghost function Restrict(g: Graph, s: set<Uuid>): Graph {
    map u | u in g && u in s :: g[u]
  }

  method UnfetchedParents(info: Info<Uuid>, infos: Graph) returns (next: seq<Uuid>)
    ensures next == Unknown(Parents(info), infos.Keys, |info.dependencies|)
  {
    next := [];
    for i := 0 to |info.dependencies|
      invariant next == Unknown(Parents(info), infos.Keys, i)
    {
      var p := info.dependencies[i].parent;
      if p !in infos {
        next := next + [p];
      }
    }
  }

  /** The first `j` bundles of a level have been visited. */
  ghost predicate LevelSoFar(g: Graph, infos: Graph, visited: set<Uuid>, queue: seq<Uuid>, j: nat,
                             infos': Graph, visited': set<Uuid>, next: seq<Uuid>)
  {
    && j <= |queue| && infos.Keys + Elems(queue[..j]) <= g.Keys
    && infos' == Restrict(g, infos.Keys + Elems(queue[..j])) && infos'.Keys == infos.Keys + Elems(queue[..j])
    && visited' == visited + Elems(queue[..j])
    && next == NextBatch(g, infos.Keys, visited, queue, j)
  }

  /** A bundle met for the first time is fetched unless it is known, and sends its parents up. */
  lemma LevelVisits(g: Graph, infos: Graph, visited: set<Uuid>, queue: seq<Uuid>, j: nat,
                    infos': Graph, visited': set<Uuid>, next: seq<Uuid>)
    requires LevelSoFar(g, infos, visited, queue, j, infos', visited', next)
    requires j < |queue| && queue[j] !in visited' && queue[j] in g
    ensures var u := queue[j]; var more := if u in infos' then infos' else infos'[u := g[u]];
      && u in more && more[u] == g[u]
      && LevelSoFar(g, infos, visited, queue, j + 1, more, visited' + {u},
                    next + Unknown(Parents(g[u]), more.Keys, |g[u].dependencies|))
  {
    hide Restrict, Elems, Unknown;
    var u, known := queue[j], infos.Keys + Elems(queue[..j]);
    ElemsSnoc(queue, j);
    RestrictAdd(g, known, u);
    RestrictGet(g, known + {u}, u);
    assert infos.Keys + Elems(queue[..j + 1]) == known + {u};
    assert visited + Elems(queue[..j + 1]) == visited' + {u};
    var more := if u in infos' then infos' else infos'[u := g[u]];
    assert more == Restrict(g, known + {u}) && more.Keys == known + {u};
  }

  /** A bundle that was visited before is skipped. */
  lemma LevelSkips(g: Graph, infos: Graph, visited: set<Uuid>, queue: seq<Uuid>, j: nat,
                   infos': Graph, visited': set<Uuid>, next: seq<Uuid>)
    requires LevelSoFar(g, infos, visited, queue, j, infos', visited', next) && visited <= infos.Keys
    requires j < |queue| && queue[j] in visited'
    ensures LevelSoFar(g, infos, visited, queue, j + 1, infos', visited', next)
  {
    hide Restrict, Elems, Unknown;
    var u, known := queue[j], infos.Keys + Elems(queue[..j]);
    ElemsSnoc(queue, j);
    assert infos.Keys + Elems(queue[..j + 1]) == known && visited + Elems(queue[..j + 1]) == visited';
  }

  /** One level: visit the queue, fetching what is missing. */
  method GatherLevel(client: Client, infos: Graph, visited: set<Uuid>, queue: seq<Uuid>)
    returns (missing: Option<Uuid>, infos': Graph, visited': set<Uuid>, next: seq<Uuid>)
    requires RestrictsTo(client.bundles, infos) && visited <= infos.Keys
    ensures missing.None? ==>
      && Elems(queue) <= client.bundles.Keys
      && infos' == Restrict(client.bundles, infos.Keys + Elems(queue))
      && visited' == visited + Elems(queue)
      && next == NextBatch(client.bundles, infos.Keys, visited, queue, |queue|)
    ensures missing.Some? ==> missing.value in queue && missing.value !in client.bundles
  {
    infos', visited', next, missing := infos, visited, [], None;
    ghost var g := client.bundles;
    LevelBegins(g, infos, visited, queue);
    hide *;
    for j := 0 to |queue|
      invariant LevelSoFar(g, infos, visited, queue, j, infos', visited', next)
    {
      var u := queue[j];
      if u in visited' {
        LevelSkips(g, infos, visited, queue, j, infos', visited', next);
      } else {
        if u !in infos' && u !in client.bundles {
          missing := Some(u);
          return;
        }
        LevelKnown(g, infos, visited, queue, j, infos', visited', next, u);
        LevelVisits(g, infos, visited, queue, j, infos', visited', next);
        if u !in infos' {
          infos' := infos'[u := client.bundles[u]];
        }
        var more := UnfetchedParents(infos'[u], infos');
        next := next + more;
        visited' := visited' + {u};
      }
    }
    LevelEnds(g, infos, visited, queue, infos', visited', next);
  }

  lemma LevelBegins(g: Graph, infos: Graph, visited: set<Uuid>, queue: seq<Uuid>)
    requires RestrictsTo(g, infos)
    ensures LevelSoFar(g, infos, visited, queue, 0, infos, visited, [])
  {
    assert infos.Keys + Elems(queue[..0]) == infos.Keys;
  }

  lemma LevelKnown(g: Graph, infos: Graph, visited: set<Uuid>, queue: seq<Uuid>, j: nat,
                   infos': Graph, visited': set<Uuid>, next: seq<Uuid>, u: Uuid)
    requires LevelSoFar(g, infos, visited, queue, j, infos', visited', next)
    ensures u in infos' ==> u in g
  {
  }

  lemma LevelEnds(g: Graph, infos: Graph, visited: set<Uuid>, queue: seq<Uuid>,
                  infos': Graph, visited': set<Uuid>, next: seq<Uuid>)
    requires LevelSoFar(g, infos, visited, queue, |queue|, infos', visited', next)
    ensures Elems(queue) <= g.Keys && infos' == Restrict(g, infos.Keys + Elems(queue))
    ensures visited' == visited + Elems(queue) && next == NextBatch(g, infos.Keys, visited, queue, |queue|)
  {
    assert queue[..|queue|] == queue;
  }

  lemma RestrictGet(g: Graph, s: set<Uuid>, u: Uuid)
    requires u in g && u in s
    ensures u in Restrict(g, s) && Restrict(g, s)[u] == g[u]
  {
  }

  lemma ElemsSnoc<T>(s: seq<T>, j: nat)
    requires j < |s|
    ensures Elems(s[..j + 1]) == Elems(s[..j]) + {s[j]}
  {
    assert s[..j + 1] == s[..j] + [s[j]];
  }

  lemma RestrictAdd(g: Graph, s: set<Uuid>, u: Uuid)
    requires u in g && s <= g.Keys
    ensures Restrict(g, s).Keys == s && Restrict(g, s + {u}) == Restrict(g, s)[u := g[u]]
    ensures u in s ==> s + {u} == s
  {
  }

  /** Where the search stands when level `k` begins. */
  ghost predicate Gathered(g: Graph, starts: seq<Uuid>, depth: nat, k: nat, infos: Graph, visited: set<Uuid>,
                           queue: seq<Uuid>, all: seq<Uuid>) {
    && k <= depth && AtLevel(g, Elems(starts), k, infos.Keys, visited, queue) && (k == 0 ==> Elems(queue) == Elems(starts))
    && RestrictsTo(g, infos) && visited <= infos.Keys
    && Elems(all) == Within(g, Elems(starts), k)
    && Lineage(g, infos.Keys, visited, queue, all, depth - k) == Lineage(g, Elems(starts), {}, starts, starts, depth)
  }

  lemma GatheredStart(g: Graph, starts: seq<Uuid>, depth: nat, infos: Graph)
    requires Elems(starts) <= g.Keys && infos == map u | u in starts :: g[u]
    ensures Gathered(g, starts, depth, 0, infos, {}, starts, starts)
  {
    hide Lineage;
    assert infos == Restrict(g, Elems(starts)) && infos.Keys == Elems(starts);
    LevelZero(g, starts);
  }

  lemma GatheredNow(g: Graph, starts: seq<Uuid>, depth: nat, k: nat, infos: Graph, visited: set<Uuid>,
                    queue: seq<Uuid>, all: seq<Uuid>)
    requires Gathered(g, starts, depth, k, infos, visited, queue, all) && k < depth
    ensures RestrictsTo(g, infos) && visited <= infos.Keys && Elems(queue) <= Needed(g, starts, depth)
  {
    QueueNeeded(g, starts, depth, k, infos.Keys, visited, queue);
  }

  lemma MissingBlocks(g: Graph, starts: seq<Uuid>, depth: nat, queue: seq<Uuid>, u: Uuid)
    requires Elems(queue) <= Needed(g, starts, depth) && u in queue && u !in g
    ensures !(Needed(g, starts, depth) <= g.Keys)
  {
    assert u in Elems(queue);
  }

  lemma GatheredNext(g: Graph, starts: seq<Uuid>, depth: nat, k: nat, infos: Graph, visited: set<Uuid>,
                     queue: seq<Uuid>, all: seq<Uuid>)
    requires Gathered(g, starts, depth, k, infos, visited, queue, all) && k < depth && Elems(queue) <= g.Keys
    ensures var next := NextBatch(g, infos.Keys, visited, queue, |queue|);
      Gathered(g, starts, depth, k + 1, Restrict(g, infos.Keys + Elems(queue)), visited + Elems(queue), next, next + all)
  {
    hide Restrict, Elems, NextBatch, Within, AtLevel, Lineage, RestrictsTo;
    var next := NextBatch(g, infos.Keys, visited, queue, |queue|);
    LevelStep(g, Elems(starts), k, infos.Keys, visited, queue);
    RestrictMore(g, infos, Elems(queue));
    LineageStep(g, infos.Keys, visited, queue, all, depth - k);
    ElemsAppend(next, all);
  }

  lemma GatheredEnd(g: Graph, starts: seq<Uuid>, depth: nat, infos: Graph, visited: set<Uuid>,
                    queue: seq<Uuid>, all: seq<Uuid>)
    requires Gathered(g, starts, depth, depth, infos, visited, queue, all)
    ensures Needed(g, starts, depth) <= g.Keys && infos == Restrict(g, Needed(g, starts, depth))
    ensures all == Lineage(g, Elems(starts), {}, starts, starts, depth)
    ensures Elems(all) == Within(g, Elems(starts), depth)
  {
    LevelDepth(g, starts, depth, infos.Keys, visited, queue);
  }

  /** Fetch everything fewer than `depth` dependency steps above the starting bundles. */
  method Gather(client: Client, starts: seq<Uuid>, depth: nat) returns (r: Result<Graph, Error>, all: seq<Uuid>)
    requires Elems(starts) <= client.bundles.Keys
    ensures r.Ok? <==> Needed(client.bundles, starts, depth) <= client.bundles.Keys
    ensures r.Ok? ==> r.value == Restrict(client.bundles, Needed(client.bundles, starts, depth))
    ensures r.Ok? ==> all == Lineage(client.bundles, Elems(starts), {}, starts, starts, depth)
    ensures r.Ok? ==> Elems(all) == Within(client.bundles, Elems(starts), depth)
    ensures r.Ok? ==> forall u :: u in all <==> Near(client.bundles, Elems(starts), depth, u)
    ensures r.Err? ==> r.error.NotFound?
  {
    forall u
      ensures u in Within(client.bundles, Elems(starts), depth) <==> Near(client.bundles, Elems(starts), depth, u)
    {
      WithinExactly(client.bundles, Elems(starts), depth, u);
    }
    hide Within, Near;
    var infos := map u | u in starts :: client.bundles[u];
    GatheredStart(client.bundles, starts, depth, infos);
    r, all := GatherFrom(client, starts, depth, infos);
  }

  /** The search from the bundles at the start. */
  method GatherFrom(client: Client, starts: seq<Uuid>, depth: nat, infos0: Graph) returns (r: Result<Graph, Error>, all: seq<Uuid>)
    requires Gathered(client.bundles, starts, depth, 0, infos0, {}, starts, starts)
    ensures r.Ok? <==> Needed(client.bundles, starts, depth) <= client.bundles.Keys
    ensures r.Ok? ==> r.value == Restrict(client.bundles, Needed(client.bundles, starts, depth))
    ensures r.Ok? ==> all == Lineage(client.bundles, Elems(starts), {}, starts, starts, depth)
    ensures r.Ok? ==> Elems(all) == Within(client.bundles, Elems(starts), depth)
    ensures r.Err? ==> r.error.NotFound?
  {
    hide *;
    ghost var g := client.bundles;
    var infos, visited: set<Uuid>, queue := infos0, {}, starts;
    all := starts;
    for level := 0 to depth
      invariant Gathered(g, starts, depth, level, infos, visited, queue, all)
    {
      GatheredNow(g, starts, depth, level, infos, visited, queue, all);
      var missing, infos1, visited1, next := GatherLevel(client, infos, visited, queue);
      if missing.Some? {
        MissingBlocks(g, starts, depth, queue, missing.value);
        return Err(NotFound(missing.value)), [];
      }
      GatheredNext(g, starts, depth, level, infos, visited, queue, all);
      infos, visited, queue, all := infos1, visited1, next, next + all;
    }
    GatheredEnd(g, starts, depth, infos, visited, queue, all);
    r := Ok(infos);
  }

  lemma LevelZero(g: Graph, starts: seq<Uuid>)
    ensures AtLevel(g, Elems(starts), 0, Elems(starts), {}, starts) && Within(g, Elems(starts), 0) == Elems(starts)
  {
  }

  lemma LevelDepth(g: Graph, starts: seq<Uuid>, depth: nat, known: set<Uuid>, visited: set<Uuid>, queue: seq<Uuid>)
    requires AtLevel(g, Elems(starts), depth, known, visited, queue)
    ensures known == Needed(g, starts, depth)
  {
  }

  lemma QueueNeeded(g: Graph, starts: seq<Uuid>, depth: nat, level: nat, known: set<Uuid>, visited: set<Uuid>,
                    queue: seq<Uuid>)
    requires level < depth && AtLevel(g, Elems(starts), level, known, visited, queue)
    ensures Elems(queue) <= Needed(g, starts, depth)
  {
    WithinMonotone(g, Elems(starts), level, depth - 1);
  }

  ghost predicate RestrictsTo(g: Graph, infos: Graph) {
    infos.Keys <= g.Keys && infos == Restrict(g, infos.Keys)
  }

  lemma RestrictMore(g: Graph, infos: Graph, s: set<Uuid>)
    requires RestrictsTo(g, infos) && s <= g.Keys
    ensures Restrict(g, infos.Keys + s).Keys == infos.Keys + s
    ensures RestrictsTo(g, Restrict(g, infos.Keys + s))
  {
    assert Restrict(g, infos.Keys + s).Keys == infos.Keys + s;
  }

  lemma LineageStep(g: Graph, known: set<Uuid>, visited: set<Uuid>, queue: seq<Uuid>, result: seq<Uuid>, depth: nat)
    requires depth > 0
    ensures Lineage(g, known, visited, queue, result, depth) ==
      var next := NextBatch(g, known, visited, queue, |queue|);
      Lineage(g, known + Elems(queue), visited + Elems(queue), next, next + result, depth - 1)
  {
  }

  lemma ElemsAppend<T>(a: seq<T>, b: seq<T>)
    ensures Elems(a + b) == Elems(a) + Elems(b)
  {
  }

  // ---------------------------------------------------------------- the request

  /** What the caller asks for. `descendants` is the server's answer to the first fetch of a
      request without an output: the old inputs and what was derived from them. */
  datatype Request = Request(oldInputs: seq<Uuid>, oldOutput: Option<Uuid>, newInputs: seq<Uuid>,
                             descendants: seq<Uuid>, depth: nat) {

    function Starts(): seq<Uuid> {
      if oldOutput.Some? then [oldOutput.value] else descendants
    }

    /** Pairs of old and new input, a later pair overriding an earlier one. */
    ghost function Pairs(n: nat): map<Uuid, Uuid>
      requires n <= |oldInputs| && n <= |newInputs|
    {
      if n == 0 then map[] else Pairs(n - 1)[oldInputs[n - 1] := newInputs[n - 1]]
    }

    ghost function Inputs(): map<Uuid, Uuid> {
      Pairs(if |oldInputs| <= |newInputs| then |oldInputs| else |newInputs|)
    }

    lemma {:induction false} PairsFrom(n: nat)
      requires n <= |oldInputs| && n <= |newInputs|
      ensures forall u :: u in Pairs(n) <==> u in oldInputs[..n]
      ensures forall u :: u in Pairs(n) ==> Pairs(n)[u] in newInputs
    {
      if n > 0 {
        PairsFrom(n - 1);
        assert oldInputs[..n] == oldInputs[..n - 1] + [oldInputs[n - 1]];
      }
    }

    /** The old inputs as far as both lists go, each with the new input that stands beside its last
        place. */
    ghost predicate Paired(inputs: map<Uuid, Uuid>) {
      var n := if |oldInputs| <= |newInputs| then |oldInputs| else |newInputs|;
      && (forall u :: u in inputs <==> u in oldInputs[..n])
      && forall i | 0 <= i < n && (forall j :: i < j < n ==> oldInputs[j] != oldInputs[i]) ::
           oldInputs[i] in inputs && inputs[oldInputs[i]] == newInputs[i]
    }

    lemma {:induction false} PairsLast(n: nat, i: nat)
      requires i < n <= |oldInputs| && n <= |newInputs|
      requires forall j :: i < j < n ==> oldInputs[j] != oldInputs[i]
      ensures oldInputs[i] in Pairs(n) && Pairs(n)[oldInputs[i]] == newInputs[i]
    {
      if i < n - 1 {
        PairsLast(n - 1, i);
        assert oldInputs[n - 1] != oldInputs[i];
      }
    }

    lemma InputsPaired()
      ensures Paired(Inputs())
    {
      var n := if |oldInputs| <= |newInputs| then |oldInputs| else |newInputs|;
      PairsFrom(n);
      forall i | 0 <= i < n && (forall j :: i < j < n ==> oldInputs[j] != oldInputs[i])
        ensures oldInputs[i] in Pairs(n) && Pairs(n)[oldInputs[i]] == newInputs[i]
      {
        PairsLast(n, i);
      }
    }

    lemma {:induction false} LastPlace(u: Uuid, n: nat) returns (i: nat)
      requires n <= |oldInputs| && u in oldInputs[..n]
      ensures i < n && oldInputs[i] == u && forall j :: i < j < n ==> oldInputs[j] != u
    {
      if oldInputs[n - 1] == u {
        i := n - 1;
      } else {
        assert oldInputs[..n] == oldInputs[..n - 1] + [oldInputs[n - 1]];
        i := LastPlace(u, n - 1);
      }
    }

    /** Each old input stands for the new input beside its last place. */
    ghost predicate Replaces(oldToNew: map<Uuid, Option<Uuid>>) {
      var n := if |oldInputs| <= |newInputs| then |oldInputs| else |newInputs|;
      forall i | 0 <= i < n && (forall j :: i < j < n ==> oldInputs[j] != oldInputs[i]) ::
        oldInputs[i] in oldToNew && oldToNew[oldInputs[i]] == Some(newInputs[i])
    }

    lemma InputsReplaced(run: Run, s: State)
      requires run.Inv(s) && run.setup.inputs == Inputs()
      ensures Replaces(s.oldToNew)
    {
      InputsPaired();
      hide Request.Inputs;
      assert run.MapOk(s);
      hide Run.Inv;
    }

    lemma PairedWith(inputs: map<Uuid, Uuid>, u: Uuid, i: nat)
      requires Paired(inputs) && i < |oldInputs| && i < |newInputs| && oldInputs[i] == u
      requires forall j :: i < j < |oldInputs| && j < |newInputs| ==> oldInputs[j] != u
      ensures u in inputs && inputs[u] == newInputs[i]
    {
    }

    /** There is only one such pairing. */
    lemma PairedUnique(a: map<Uuid, Uuid>, b: map<Uuid, Uuid>)
      requires Paired(a) && Paired(b)
      ensures a == b
    {
      var n := if |oldInputs| <= |newInputs| then |oldInputs| else |newInputs|;
      assert forall u :: u in a <==> u in oldInputs[..n];
      assert forall u :: u in b <==> u in oldInputs[..n];
      hide Paired;
      forall u | u in a
        ensures a[u] == b[u]
      {
        var i := LastPlace(u, n);
        PairedWith(a, u, i);
        PairedWith(b, u, i);
      }
      assert a.Keys == b.Keys;
    }

    /** Every bundle the search asks the server for exists. */
    ghost predicate Available(g: Graph) {
      Elems(Starts()) <= g.Keys && Needed(g, Starts(), depth) <= g.Keys
    }

    ghost function Setup(g: Graph): Setup {
      Mimic.Setup(Restrict(g, Needed(g, Starts(), depth)), Inputs(), if oldInputs == [] then oldOutput else None)
    }

    /** The bundles mimicry is asked for, in turn. */
    ghost function Asked(g: Graph): seq<Uuid> {
      if oldOutput.Some? then [oldOutput.value]
      else Lineage(g, Elems(descendants), {}, descendants, descendants, depth)
    }

    /** The bundles that are looked into, in the order they are finished. It depends on the
        graph and the request only. */
    ghost function Order(g: Graph, rank: Rank): seq<Uuid>
      requires Ranked(g, Inputs().Keys, rank)
    {
      OrderFirst(g, rank, |Asked(g)|)
    }

    /** Every bundle that would be remade is a run or a make. */
    ghost predicate Doable(g: Graph, rank: Rank)
      requires Ranked(g, Inputs().Keys, rank)
    {
      forall u :: u in Order(g, rank) && Setup(g).Downstream(u) ==>
        u in Setup(g).infos && Runnable(Setup(g).infos[u])
    }

    /** What a request comes to: how it ends, the plan, and the server afterwards. */
    ghost predicate Outcome(base: World, dryRun: bool, rank: Rank, r: Result<seq<PlanEntry>, Error>, s: State, world: World)
      requires Ranked(base.bundles, Inputs().Keys, rank)
    {
      && (r.Ok? <==> Available(base.bundles) && (dryRun || Doable(base.bundles, rank)))
      && (r.Err? ==> (r.error.NotFound? <==> !Available(base.bundles)))
      && (r.Ok? ==>
            && Run(Setup(base.bundles), dryRun, base).Inv(s) && s.world == world
            && s.order == Order(base.bundles, rank) && s.plan == r.value
            && Olds(r.value) == Setup(base.bundles).Remakes(Order(base.bundles, rank)))
    }

    lemma SetupGrounded(base: World, dryRun: bool)
      requires base.Valid() && Elems(newInputs) <= base.issued && Available(base.bundles)
      ensures Run(Setup(base.bundles), dryRun, base).Grounded()
    {
      PairsFrom(if |oldInputs| <= |newInputs| then |oldInputs| else |newInputs|);
      if oldOutput.Some? {
        WithinMonotone(base.bundles, Elems(Starts()), 0, if depth == 0 then 0 else depth - 1);
        assert oldOutput.value in Elems(Starts());
      }
    }

    lemma OrderNext(g: Graph, rank: Rank, i: nat)
      requires Ranked(g, Inputs().Keys, rank) && i < |Asked(g)|
      ensures Ranked(Setup(g).infos, Inputs().Keys, rank)
      ensures OrderFirst(g, rank, i + 1)
           == Visit(Setup(g).infos, Inputs().Keys, rank, Asked(g)[i], OrderFirst(g, rank, i))
    {
      SubRanked(g, Setup(g).infos, Inputs().Keys, rank);
    }

    lemma DoableFrom(g: Graph, rank: Rank)
      requires Ranked(g, Inputs().Keys, rank)
      requires forall u :: u in Order(g, rank) && Setup(g).Downstream(u) ==>
                 u in Setup(g).infos && Runnable(Setup(g).infos[u])
      ensures Doable(g, rank)
    {
    }

    lemma BlockedStays(g: Graph, rank: Rank, run: Run, n: nat, e: Error)
      requires Ranked(g, Inputs().Keys, rank) && n <= |Asked(g)|
      requires run.setup == Setup(g) && run.Blocked(OrderFirst(g, rank, n), e)
      ensures run.Blocked(Order(g, rank), e) && !Doable(g, rank)
    {
      SubRanked(g, Setup(g).infos, Inputs().Keys, rank);
      Ceiling(rank, Asked(g));
      VisitFirstGrows(Setup(g).infos, Inputs().Keys, rank, Above(rank, Asked(g)), Asked(g), n, |Asked(g)|, []);
    }

    ghost function OrderFirst(g: Graph, rank: Rank, n: nat): seq<Uuid>
      requires Ranked(g, Inputs().Keys, rank) && n <= |Asked(g)|
    {
      SubRanked(g, Setup(g).infos, Inputs().Keys, rank);
      Ceiling(rank, Asked(g));
      VisitFirst(Setup(g).infos, Inputs().Keys, rank, Above(rank, Asked(g)), Asked(g), n, [])
    }
  }

  lemma StartsAre(req: Request)
    ensures Elems(req.Starts()) == if req.oldOutput.Some? then {req.oldOutput.value} else Elems(req.descendants)
  {
    assert req.oldOutput.Some? ==> Elems([req.oldOutput.value]) == {req.oldOutput.value};
  }

  lemma FetchedAre(req: Request, g: Graph)
    ensures forall u :: u in req.Setup(g).infos <==>
      u in g && Near(g, Elems(req.Starts()), if req.depth == 0 then 0 else req.depth - 1, u)
    ensures forall u :: u in req.Setup(g).infos ==> req.Setup(g).infos[u] == g[u]
  {
    var k := if req.depth == 0 then 0 else req.depth - 1;
    hide Within, Near, Request.Inputs, Request.Starts;
    forall u
      ensures u in Within(g, Elems(req.Starts()), k) <==> Near(g, Elems(req.Starts()), k, u)
    {
      WithinExactly(g, Elems(req.Starts()), k, u);
    }
  }

  /** What a request comes down to. Fetched are the bundles that have a walk of fewer than `depth` steps
      from an output, or from an old input or what was derived from one when no output is given.
      Mimicry is asked for the output alone, or else for all that have a walk of at most `depth` steps.
      The output counts as downstream by itself when there are no old inputs. */
  lemma RequestComesTo(req: Request, g: Graph)
    ensures var setup, starts := req.Setup(g), if req.oldOutput.Some? then {req.oldOutput.value} else Elems(req.descendants);
      && (forall u :: u in setup.infos <==> u in g && Near(g, starts, if req.depth == 0 then 0 else req.depth - 1, u))
      && (forall u :: u in setup.infos ==> setup.infos[u] == g[u])
      && req.Paired(setup.inputs)
      && setup.lone == (if req.oldInputs == [] then req.oldOutput else None)
      && (req.oldOutput.Some? ==> req.Asked(g) == [req.oldOutput.value])
  {
    StartsAre(req);
    FetchedAre(req, g);
    req.InputsPaired();
    hide Needed, Restrict, Near, Request.Paired, Request.Inputs, Request.Starts;
  }

  /** The plan is exactly what has to be remade: the bundles that some request leads to and that
      have a dependency path to an old input (or are the lone output). Each is there once, and
      a remade parent stands before its children. */
  lemma PlanExactly(req: Request, g: Graph, rank: Rank)
    requires Ranked(g, req.Inputs().Keys, rank) && req.Available(g)
    ensures var setup := req.Setup(g); var plan := setup.Remakes(req.Order(g, rank));
      && NoDup(plan)
      && (forall u :: u in plan <==>
            setup.Downstream(u) && exists a :: a in req.Asked(g) && Leads(setup.infos, setup.inputs.Keys, a, u))
      && forall i, p :: 0 <= i < |plan| && Edge(setup.infos, plan[i], p) && setup.Downstream(p) && p !in setup.inputs
           ==> p in plan[..i]
  {
    var setup, asked := req.Setup(g), req.Asked(g);
    SubRanked(g, setup.infos, setup.inputs.Keys, rank);
    Ceiling(rank, asked);
    VisitFirstFacts(setup.infos, setup.inputs.Keys, rank, Above(rank, asked), asked, |asked|, []);
    setup.RemakesExactly(req.Order(g, rank));
    forall u
      ensures u in req.Order(g, rank) <==> exists a :: a in asked && Leads(setup.infos, setup.inputs.Keys, a, u)
    {
      VisitedExactly(setup.infos, setup.inputs.Keys, rank, Above(rank, asked), asked, u);
    }
    if setup.lone.Some? {
      WithinMonotone(g, Elems(req.Starts()), 0, if req.depth == 0 then 0 else req.depth - 1);
      assert setup.lone.value in Elems(req.Starts());
    }
    setup.RemakesOrdered(req.Order(g, rank));
  }

  /** A real run can be carried out iff every bundle in the plan is a run or a make. */
  lemma DoableExactly(req: Request, g: Graph, rank: Rank)
    requires Ranked(g, req.Inputs().Keys, rank) && req.Available(g)
    ensures var setup := req.Setup(g);
      req.Doable(g, rank) <==> forall u :: u in setup.Remakes(req.Order(g, rank)) ==>
        u in setup.infos && setup.infos[u].bundleType in {"run", "make"}
  {
    var setup, asked := req.Setup(g), req.Asked(g);
    SubRanked(g, setup.infos, setup.inputs.Keys, rank);
    Ceiling(rank, asked);
    VisitFirstFacts(setup.infos, setup.inputs.Keys, rank, Above(rank, asked), asked, |asked|, []);
    setup.RemakesExactly(req.Order(g, rank));
  }

  lemma SubRanked(g: Graph, sub: Graph, cut: set<Uuid>, rank: Rank)
    requires Ranked(g, cut, rank) && forall u :: u in sub ==> u in g && g[u] == sub[u]
    ensures Ranked(sub, cut, rank)
  {
    forall u, p | u !in cut && Edge(sub, u, p)
      ensures rank(p) < rank(u)
    {
      assert Edge(g, u, p);
    }
  }

  ghost function Above(rank: Rank, us: seq<Uuid>): nat {
    if us == [] then 0
    else
      var n := |us| - 1;
      var rest := Above(rank, us[..n]);
      if rank(us[n]) < rest then rest else rank(us[n]) + 1
  }

  lemma {:induction false} Ceiling(rank: Rank, us: seq<Uuid>)
    ensures forall u :: u in us ==> rank(u) < Above(rank, us)
  {
    if us != [] {
      var n := |us| - 1;
      Ceiling(rank, us[..n]);
      assert us == us[..n] + [us[n]];
    }
  }

  /** Pair up old and new inputs as far as both lists go. */
  method ZipInputs(req: Request) returns (inputs: map<Uuid, Uuid>)
    ensures inputs == req.Inputs() && req.Paired(inputs)
    ensures inputs.Values <= Elems(req.newInputs)
  {
    var n := if |req.oldInputs| <= |req.newInputs| then |req.oldInputs| else |req.newInputs|;
    inputs := map[];
    for i := 0 to n
      invariant inputs == req.Pairs(i)
    {
      inputs := inputs[req.oldInputs[i] := req.newInputs[i]];
    }
    req.PairsFrom(n);
    req.InputsPaired();
  }

  /** Mimic a set of bundles. The order and the old bundles of the plan are fixed by the graph
      and the request, so a dry run and a completed real run list the same ones. */
  method MimicBundles(client: Client, req: Request, dryRun: bool, ghost rank: Rank)
    returns (r: Result<seq<PlanEntry>, Error>, ghost s: State)
    requires client.View().Valid() && Elems(req.newInputs) <= client.issued && NoDup(req.descendants)
    requires Ranked(client.bundles, req.Inputs().Keys, rank)
    modifies client
    ensures old(client.View()).GrowsTo(client.View()) && (dryRun ==> client.View() == old(client.View()))
    ensures req.Outcome(old(client.View()), dryRun, rank, r, s, client.View())
    ensures r.Ok? ==> req.Replaces(s.oldToNew)
  {
    ghost var base := client.View();
    s := State(map[], {}, {}, [], [], base);
    var starts := req.Starts();
    if i :| 0 <= i < |starts| && starts[i] !in client.bundles {
      assert starts[i] in Elems(starts);
      return Err(NotFound(starts[i])), s;
    }
    var infos, all := Gather(client, starts, req.depth);
    if infos.Err? {
      return Err(infos.error), s;
    }
    var inputs := ZipInputs(req);
    var setup := Mimic.Setup(infos.value, inputs, if req.oldInputs == [] then req.oldOutput else None);
    assert setup == req.Setup(client.bundles);
    ghost var run := Run(setup, dryRun, base);
    req.SetupGrounded(base, dryRun);
    var m := new Mimicry(setup, dryRun, client);
    var asked := if req.oldOutput.Some? then [req.oldOutput.value] else all;
    r := RecurseAll(m, req, asked, rank);
    if r.Ok? {
      s := m.View();
      req.InputsReplaced(run, s);
    }
  }

  /** Ask for each bundle in turn. */
  method RecurseAll(m: Mimicry, ghost req: Request, asked: seq<Uuid>, ghost rank: Rank)
    returns (r: Result<seq<PlanEntry>, Error>)
    requires m.Valid() && m.order == [] && Ranked(m.run.base.bundles, req.Inputs().Keys, rank)
    requires m.setup == req.Setup(m.run.base.bundles) && asked == req.Asked(m.run.base.bundles)
    modifies m, m.client
    ensures m.run.WorldOk(m.client.View())
    ensures r.Ok? ==> m.Valid() && m.order == req.Order(m.run.base.bundles, rank) && r.value == m.plan
    ensures r.Ok? <==> m.dryRun || req.Doable(m.run.base.bundles, rank)
    ensures r.Err? ==> r.error.CannotMimic?
  {
    ghost var g := m.run.base.bundles;
    m.run.InvBasics(m.View());
    SubRanked(g, m.setup.infos, req.Inputs().Keys, rank);
    hide Run.Inv, Run.WorldOk, Ranked, Request.Asked, Request.Setup, Request.Doable, Request.Inputs, Run.Blocked;
    for i := 0 to |asked|
      invariant m.Valid() && m.run.WorldOk(m.client.View())
      invariant m.order == req.OrderFirst(g, rank, i)
    {
      var to := m.Recurse(asked[i], rank);
      req.OrderNext(g, rank, i);
      if to.Err? {
        req.BlockedStays(g, rank, m.run, i + 1, to.error);
        return Err(to.error);
      }
    }
    if !m.dryRun {
      m.run.AllRunnable(m.View());
      req.DoableFrom(g, rank);
    }
    r := Ok(m.plan);
  }
}
