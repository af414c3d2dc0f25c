/** Bundle mimicry: remake everything downstream of some old inputs, with new inputs in
    their place. The class follows the recursive worker of the program; its state is proved
    to be determined by the dependency graph alone. */
module Mimic {
  import opened Common
  import opened MimicGraph

  /** What a run of mimicry works from: the fetched bundles, the replacement of old inputs by
      new ones, and the requested output when there are no inputs at all. */
  datatype Setup = Setup(infos: Graph, inputs: map<Uuid, Uuid>, lone: Option<Uuid>) {

    ghost function Seeds(): set<Uuid> {
      inputs.Keys + if lone.Some? then {lone.value} else {}
    }

    /** The bundle depends, through fetched bundles, on an old input (or is the lone output). */
    ghost predicate Downstream(u: Uuid) {
      Reaches(infos, Seeds(), u)
    }

    ghost function Remakes(order: seq<Uuid>): seq<Uuid> {
      if order == [] then []
      else
        var u := order[|order| - 1];
        Remakes(order[..|order| - 1]) + if Downstream(u) then [u] else []
    }

    lemma {:induction false} RemakesExactly(order: seq<Uuid>)
      requires NoDup(order)
      ensures NoDup(Remakes(order))
      ensures forall u :: u in Remakes(order) <==> u in order && Downstream(u)
    {
      hide Setup.Downstream;
      if order != [] {
        var n := |order| - 1;
        RemakesExactly(order[..n]);
        assert order == order[..n] + [order[n]] && order[n] !in order[..n];
      }
    }

    /** Remade parents are remade before their children. */
    lemma {:induction false} RemakesOrdered(order: seq<Uuid>)
      requires Ordered(infos, inputs.Keys, order) && (lone.Some? ==> lone.value in infos)
      ensures forall i, p ::
        0 <= i < |Remakes(order)| && Edge(infos, Remakes(order)[i], p) && Downstream(p) && p !in inputs ==>
          p in Remakes(order)[..i]
    {
      if order != [] {
        var n := |order| - 1;
        var before := order[..n];
        assert forall i :: 0 <= i < n ==> before[..i] == order[..i];
        RemakesOrdered(before);
        RemakesExactly(before);
        forall i, p | 0 <= i < |Remakes(order)| && Edge(infos, Remakes(order)[i], p) && Downstream(p) && p !in inputs
          ensures p in Remakes(order)[..i]
        {
          ReachesStep(infos, Seeds(), p);
          if i < |Remakes(before)| {
            assert Remakes(order)[..i] == Remakes(before)[..i];
          } else {
            assert Remakes(order)[..i] == Remakes(before) && Settled(infos, inputs.Keys, order[..n], p);
          }
        }
      }
    }

    lemma RemakesSnoc(order: seq<Uuid>, u: Uuid)
      ensures Remakes(order + [u]) == Remakes(order) + if Downstream(u) then [u] else []
    {
      assert (order + [u])[..|order|] == order;
    }
  }

  lemma VisitFirstGrows(g: Graph, cut: set<Uuid>, rank: Rank, bound: nat, us: seq<Uuid>, m: nat, n: nat, done: seq<Uuid>)
    requires Ranked(g, cut, rank) && Ordered(g, cut, done) && m <= n <= |us|
    requires forall u :: u in us ==> rank(u) < bound
    ensures VisitFirst(g, cut, rank, bound, us, m, done) <= VisitFirst(g, cut, rank, bound, us, n, done)
  {
    if m < n {
      VisitFirstGrows(g, cut, rank, bound, us, m, n - 1, done);
      VisitFirstFacts(g, cut, rank, bound, us, n - 1, done);
      VisitFacts(g, cut, rank, us[n - 1], VisitFirst(g, cut, rank, bound, us, n - 1, done));
    }
  }

  /** Where an old bundle ends up: its new version if it has one, else itself. A dry run has
      no uuid for the bundles it would create. */
  function Image(image: map<Uuid, Option<Uuid>>, u: Uuid): Option<Uuid> {
    if u in image then image[u] else Some(u)
  }

  /** `made` has the type and command of `orig`, and its dependencies in the same order under
      the same child and parent paths, each moved to where its parent ended up. */
  ghost predicate Copies(orig: Info<Uuid>, made: Info<Option<Uuid>>, image: map<Uuid, Option<Uuid>>) {
    && made.bundleType == orig.bundleType && made.command == orig.command
    && |made.dependencies| == |orig.dependencies|
    && forall i :: 0 <= i < |orig.dependencies| ==>
         made.dependencies[i] == Dependency(Image(image, orig.dependencies[i].parent),
                                            orig.dependencies[i].parentPath, orig.dependencies[i].childPath)
  }

  ghost predicate Concrete(made: Info<Option<Uuid>>) {
    forall i :: 0 <= i < |made.dependencies| ==> made.dependencies[i].parent.Some?
  }

  function Sent(made: Info<Option<Uuid>>): (info: Info<Uuid>)
    requires Concrete(made)
  {
    Info(made.bundleType, made.command,
         seq(|made.dependencies|, i requires 0 <= i < |made.dependencies| =>
           Dependency(made.dependencies[i].parent.value, made.dependencies[i].parentPath,
                      made.dependencies[i].childPath)))
  }

  /** Only runs and makes can be created by mimicry. */
  predicate Runnable(info: Info<Uuid>) {
    info.bundleType == "make" || info.bundleType == "run"
  }

  datatype PlanEntry = PlanEntry(orig: Uuid, made: Option<Uuid>, info: Info<Option<Uuid>>)

  ghost function Olds(plan: seq<PlanEntry>): (s: seq<Uuid>) {
    seq(|plan|, i requires 0 <= i < |plan| => plan[i].orig)
  }

  datatype Error = NotFound(uuid: Uuid) | CannotMimic(uuid: Uuid)

  /** The server's bundle table. Every uuid in circulation was issued by it at some time, and
      none is issued twice. */
  datatype World = World(bundles: Graph, issued: set<Uuid>) {

    ghost predicate Valid() {
      bundles.Keys <= issued && forall u, p :: Edge(bundles, u, p) ==> p in issued
    }

    /** Nothing was lost or changed, and what is new stands under uuids never issued before. */
    ghost predicate GrowsTo(later: World) {
      && later.Valid() && issued <= later.issued
      && (forall u :: u in bundles ==> u in later.bundles && later.bundles[u] == bundles[u])
      && (forall u :: u in later.bundles && u !in bundles ==> u !in issued)
    }
  }

  class Client {
    var bundles: Graph
    var issued: set<Uuid>

    ghost function View(): World
      reads this
    {
      World(bundles, issued)
    }

    constructor (bundles: Graph, issued: set<Uuid>)
      ensures View() == World(bundles, issued)
    {
      this.bundles, this.issued := bundles, issued;
    }

    method Create(info: Info<Uuid>) returns (uuid: Uuid)
      requires View().Valid() && forall p :: p in Parents(info) ==> p in issued
      modifies this
      ensures View().Valid() && uuid !in old(issued)
      ensures View() == World(old(bundles)[uuid := info], old(issued) + {uuid})
    {
      ghost var free := Outside(issued);
      assert free !in issued;
      uuid :| uuid !in issued;
      var was := bundles;
      bundles := bundles[uuid := info];
      issued := issued + {uuid};
      forall u, p | Edge(bundles, u, p)
        ensures p in issued
      {
        if u != uuid {
          assert Edge(was, u, p);
        }
      }
    }
  }

  lemma RankedParents(g: Graph, cut: set<Uuid>, rank: Rank, u: Uuid)
    requires Ranked(g, cut, rank) && u in g && u !in cut
    ensures forall p :: p in Parents(g[u]) ==> rank(p) < rank(u)
  {
    assert forall p :: p in Parents(g[u]) ==> Edge(g, u, p);
  }

  // ---------------------------------------------------------------- the state of a run

  /** The variables of a run, with the order in which bundles were finished and the server as
      it now is. */
  datatype State = State(
    oldToNew: map<Uuid, Option<Uuid>>,
    downstream: set<Uuid>,
    created: set<Option<Uuid>>,
    plan: seq<PlanEntry>,
    order: seq<Uuid>,
    world: World)

  /** What does not change during a run: the request and the server as it was. */
  datatype Run = Run(setup: Setup, dryRun: bool, base: World) {

    ghost predicate Grounded() {
      && base.Valid() && setup.inputs.Values <= base.issued
      && (forall u :: u in setup.infos ==> u in base.bundles && base.bundles[u] == setup.infos[u])
      && (setup.lone.Some? ==> setup.lone.value in setup.infos)
    }

    ghost predicate Settled(order: seq<Uuid>, u: Uuid) {
      MimicGraph.Settled(setup.infos, setup.inputs.Keys, order, u)
    }

    ghost predicate WorldOk(world: World) {
      base.GrowsTo(world) && (dryRun ==> world == base)
    }

    ghost predicate MapOk(s: State) {
      && s.oldToNew.Keys == setup.inputs.Keys + Elems(s.order)
      && (forall u :: u in setup.inputs ==> s.oldToNew[u] == Some(setup.inputs[u]))
      && (forall u :: u in s.order && !setup.Downstream(u) ==> s.oldToNew[u] == Some(u))
      && (forall u :: u in s.oldToNew && s.oldToNew[u].Some? ==> s.oldToNew[u].value in s.world.issued)
      && (forall u :: u in s.oldToNew && !dryRun ==> s.oldToNew[u].Some?)
      && (forall u :: u in s.downstream <==> u in setup.inputs || (u in s.order && setup.Downstream(u)))
    }

    /** Entry `e` is a right new version of its bundle, and a real run has put it on the server. */
    ghost predicate Made(s: State, e: PlanEntry) {
      && e.orig in s.order && e.orig in s.oldToNew && s.oldToNew[e.orig] == e.made
      && e.orig in setup.infos && Copies(setup.infos[e.orig], e.info, s.oldToNew)
      && if dryRun then e.made.None?
         else
           && Runnable(setup.infos[e.orig]) && Concrete(e.info) && e.made.Some?
           && e.made.value in s.world.bundles && e.made.value !in base.issued
           && s.world.bundles[e.made.value] == Sent(e.info)
    }

    ghost predicate PlanOk(s: State) {
      && Olds(s.plan) == setup.Remakes(s.order)
      && (forall e :: e in s.plan ==> Made(s, e))
      && (!dryRun ==> forall i, j :: 0 <= i < j < |s.plan| ==> s.plan[i].made != s.plan[j].made)
      && (forall m :: m in s.created <==> exists e :: e in s.plan && e.made == m)
    }

    ghost predicate Inv(s: State) {
      && Grounded() && WorldOk(s.world) && MapOk(s) && PlanOk(s)
      && Ordered(setup.infos, setup.inputs.Keys, s.order)
    }

    /** For a settled bundle the downstream set is right. */
    lemma SettledSeen(s: State, p: Uuid)
      requires Inv(s) && Settled(s.order, p)
      ensures p in s.downstream <==> setup.Downstream(p)
    {
      ReachesStep(setup.infos, setup.Seeds(), p);
      assert p !in setup.infos ==> forall q :: !Edge(setup.infos, p, q);
      hide Reaches, Ordered, Edge, Run.PlanOk, Run.WorldOk;
    }

    lemma DependencyEdge(u: Uuid, p: Uuid)
      requires u in setup.infos
      ensures Edge(setup.infos, u, p) <==> exists d | d in setup.infos[u].dependencies :: d.parent == p
    {
      var deps := setup.infos[u].dependencies;
      if Edge(setup.infos, u, p) {
        var i :| 0 <= i < |deps| && Parents(setup.infos[u])[i] == p;
        assert deps[i] in deps && deps[i].parent == p;
      }
      if d :| d in deps && d.parent == p {
        var i :| 0 <= i < |deps| && deps[i] == d;
        assert Parents(setup.infos[u])[i] == p;
      }
    }

    lemma UnplacedSeed(s: State, u: Uuid)
      requires Inv(s) && u in setup.infos && u !in s.oldToNew
      ensures u in setup.Seeds() <==> setup.lone == Some(u)
      ensures WorldOk(s.world) && s.world.Valid()
    {
      hide Ordered, Run.PlanOk, World.Valid;
    }

    /** Once the parents are settled, the downstream set knows whether `u` is downstream. */
    lemma DownstreamDecided(s: State, u: Uuid)
      requires Inv(s) && u in setup.infos && u !in s.oldToNew
      requires forall p :: Edge(setup.infos, u, p) ==> Settled(s.order, p)
      ensures setup.Downstream(u) <==>
        setup.lone == Some(u) || exists d | d in setup.infos[u].dependencies :: d.parent in s.downstream
      ensures WorldOk(s.world) && s.world.Valid()
    {
      UnplacedSeed(s, u);
      ReachesStep(setup.infos, setup.Seeds(), u);
      hide Reaches, Edge, Setup.Seeds, Run.Inv, Run.Settled, Run.WorldOk, World.Valid;
      forall p | Edge(setup.infos, u, p)
        ensures p in s.downstream <==> setup.Downstream(p)
      {
        SettledSeen(s, p);
      }
      forall p
        ensures Edge(setup.infos, u, p) <==> exists d | d in setup.infos[u].dependencies :: d.parent == p
      {
        DependencyEdge(u, p);
      }
      if d :| d in setup.infos[u].dependencies && d.parent in s.downstream {
        assert Edge(setup.infos, u, d.parent);
      }
    }

    /** In a real run every parent of a bundle about to be remade has ended up somewhere. */
    lemma ParentsConcrete(s: State, u: Uuid, info: Info<Option<Uuid>>)
      requires Inv(s) && u in setup.infos && !dryRun && Copies(setup.infos[u], info, s.oldToNew)
      ensures Concrete(info)
      ensures forall p :: p in Parents(Sent(info)) ==> p in s.world.issued
    {
      var deps := setup.infos[u].dependencies;
      forall i | 0 <= i < |deps|
        ensures info.dependencies[i].parent.Some? && info.dependencies[i].parent.value in s.world.issued
      {
        assert Edge(base.bundles, u, deps[i].parent) by {
          assert Parents(setup.infos[u])[i] == deps[i].parent;
        }
      }
    }

    /** A bundle that already has its place keeps its copy right when more bundles are placed. */
    lemma CopiesStable(s: State, x: Uuid, info: Info<Option<Uuid>>, u: Uuid, to: Option<Uuid>)
      requires Inv(s) && x in s.order && u in setup.infos && u !in s.oldToNew
      requires Copies(setup.infos[x], info, s.oldToNew)
      ensures Copies(setup.infos[x], info, s.oldToNew[u := to])
    {
      var deps := setup.infos[x].dependencies;
      forall i | 0 <= i < |deps|
        ensures Image(s.oldToNew[u := to], deps[i].parent) == Image(s.oldToNew, deps[i].parent)
      {
        var k :| 0 <= k < |s.order| && s.order[k] == x;
        assert Parents(setup.infos[x])[i] == deps[i].parent;
        assert Edge(setup.infos, s.order[k], deps[i].parent);
        assert Settled(s.order[..k], deps[i].parent);
      }
    }

    /** The bundle is its own new version when it is not downstream. */
    function Kept(s: State, u: Uuid): State {
      s.(oldToNew := s.oldToNew[u := Some(u)], order := s.order + [u])
    }

    function Remade(s: State, u: Uuid, to: Option<Uuid>, info: Info<Option<Uuid>>, world: World): State {
      State(s.oldToNew[u := to], s.downstream + {u}, s.created + {to}, s.plan + [PlanEntry(u, to, info)],
            s.order + [u], world)
    }

    ghost predicate Ready(s: State, u: Uuid) {
      && Inv(s) && u in setup.infos && u !in s.oldToNew
      && forall p :: Edge(setup.infos, u, p) ==> Settled(s.order, p)
    }

    lemma OrderGrows(s: State, u: Uuid)
      requires Ready(s, u)
      ensures Ordered(setup.infos, setup.inputs.Keys, s.order + [u])
      ensures Elems(s.order + [u]) == Elems(s.order) + {u}
    {
      var after := s.order + [u];
      assert after[..|s.order|] == s.order;
      assert forall i :: 0 <= i < |s.order| ==> after[..i] == s.order[..i];
    }

    lemma KeptPlan(s: State, u: Uuid)
      requires Ready(s, u) && !setup.Downstream(u)
      ensures PlanOk(Kept(s, u))
    {
      hide Reaches, Ordered;
      var t := Kept(s, u);
      setup.RemakesSnoc(s.order, u);
      forall e | e in t.plan
        ensures Made(t, e)
      {
        CopiesStable(s, e.orig, e.info, u, Some(u));
      }
    }

    lemma KeptMap(s: State, u: Uuid)
      requires MapOk(s) && u !in s.oldToNew && u in s.world.issued && !setup.Downstream(u)
      ensures MapOk(Kept(s, u))
    {
      hide Reaches;
      assert forall x :: x in Kept(s, u).order <==> x in s.order || x == u;
      assert Elems(Kept(s, u).order) == Elems(s.order) + {u};
    }

    lemma KeptInv(s: State, u: Uuid)
      requires Ready(s, u) && !setup.Downstream(u)
      ensures Inv(Kept(s, u)) && WorldOk(s.world)
    {
      OrderGrows(s, u);
      KeptPlan(s, u);
      hide Reaches, Ordered, Run.PlanOk, Run.MapOk, Run.Settled;
      assert u in s.world.issued by {
        assert u in base.bundles;
      }
      KeptMap(s, u);
    }

    /** What the server says once the new version of `u` exists; a dry run creates nothing. */
    ghost predicate Creates(s: State, u: Uuid, to: Option<Uuid>, info: Info<Option<Uuid>>, world: World) {
      && setup.Downstream(u) && u in setup.infos && Copies(setup.infos[u], info, s.oldToNew)
      && if dryRun then to.None? && world == s.world
         else
           && Runnable(setup.infos[u]) && Concrete(info) && to.Some? && to.value !in s.world.issued
           && world.Valid()
           && world == World(s.world.bundles[to.value := Sent(info)], s.world.issued + {to.value})
    }

    lemma RemadeMade(s: State, u: Uuid, to: Option<Uuid>, info: Info<Option<Uuid>>, world: World, e: PlanEntry)
      requires Ready(s, u) && Creates(s, u, to, info, world)
      requires e in s.plan || e == PlanEntry(u, to, info)
      ensures Made(Remade(s, u, to, info, world), e)
    {
      hide Reaches, Ordered;
      if e in s.plan {
        CopiesStable(s, e.orig, e.info, u, to);
      } else {
        ReadyCopies(s, u, to, info);
      }
    }

    lemma RemadePlan(s: State, u: Uuid, to: Option<Uuid>, info: Info<Option<Uuid>>, world: World)
      requires Ready(s, u) && Creates(s, u, to, info, world)
      ensures PlanOk(Remade(s, u, to, info, world))
    {
      hide Reaches, Ordered, Run.MapOk, Copies;
      var t := Remade(s, u, to, info, world);
      forall e | e in t.plan
        ensures Made(t, e)
      {
        RemadeMade(s, u, to, info, world, e);
      }
      setup.RemakesSnoc(s.order, u);
      assert Olds(t.plan) == Olds(s.plan) + [u];
      if !dryRun {
        PlanIssued(s);
      }
      CreatedSnoc(s.created, s.plan, PlanEntry(u, to, info));
    }

    lemma RemadeMap(s: State, u: Uuid, to: Option<Uuid>, info: Info<Option<Uuid>>, world: World)
      requires MapOk(s) && u !in s.oldToNew && Creates(s, u, to, info, world)
      ensures MapOk(Remade(s, u, to, info, world))
    {
      hide Reaches, Copies, World.Valid;
      var t := Remade(s, u, to, info, world);
      assert forall x :: x in t.order <==> x in s.order || x == u;
      assert Elems(t.order) == Elems(s.order) + {u};
    }

    lemma CreatesGrows(s: State, u: Uuid, to: Option<Uuid>, info: Info<Option<Uuid>>, world: World)
      requires WorldOk(s.world) && base.Valid() && Creates(s, u, to, info, world)
      ensures WorldOk(world)
    {
      hide Reaches, Copies;
    }

    lemma RemadeInv(s: State, u: Uuid, to: Option<Uuid>, info: Info<Option<Uuid>>, world: World)
      requires Ready(s, u) && Creates(s, u, to, info, world)
      ensures Inv(Remade(s, u, to, info, world)) && WorldOk(world)
    {
      hide Reaches, Ordered, Run.PlanOk, Run.MapOk, Run.WorldOk, Run.Settled, Run.Creates;
      OrderGrows(s, u);
      RemadePlan(s, u, to, info, world);
      RemadeMap(s, u, to, info, world);
      CreatesGrows(s, u, to, info, world);
    }

    lemma CreatedSnoc(created: set<Option<Uuid>>, plan: seq<PlanEntry>, last: PlanEntry)
      requires forall m :: m in created <==> exists e :: e in plan && e.made == m
      ensures forall m :: m in created + {last.made} <==> exists e :: e in plan + [last] && e.made == m
    {
      forall m | m in created + {last.made}
        ensures exists e :: e in plan + [last] && e.made == m
      {
        if m in created {
          var e :| e in plan && e.made == m;
          assert e in plan + [last];
        } else {
          assert last in plan + [last];
        }
      }
    }

    lemma ReadyCopies(s: State, u: Uuid, to: Option<Uuid>, info: Info<Option<Uuid>>)
      requires Ready(s, u) && Copies(setup.infos[u], info, s.oldToNew)
      ensures Copies(setup.infos[u], info, s.oldToNew[u := to])
    {
      var deps := setup.infos[u].dependencies;
      forall i | 0 <= i < |deps|
        ensures deps[i].parent != u
      {
        assert Parents(setup.infos[u])[i] == deps[i].parent;
        assert Edge(setup.infos, u, deps[i].parent);
      }
    }

    lemma InvBasics(s: State)
      requires Inv(s)
      ensures WorldOk(s.world) && s.oldToNew.Keys == setup.inputs.Keys + Elems(s.order)
      ensures Ordered(setup.infos, setup.inputs.Keys, s.order)
    {
    }

    /** A real run that got to its end remade runs and makes only. */
    lemma AllRunnable(s: State)
      requires Inv(s) && !dryRun
      ensures forall u :: u in s.order && setup.Downstream(u) ==> u in setup.infos && Runnable(setup.infos[u])
      ensures forall u :: u in s.order && setup.Downstream(u) ==> setup.infos[u].bundleType in {"run", "make"}
    {
      setup.RemakesExactly(s.order);
      forall u | u in s.order && setup.Downstream(u)
        ensures u in setup.infos && Runnable(setup.infos[u])
      {
        var i :| 0 <= i < |s.plan| && Olds(s.plan)[i] == u;
        assert Made(s, s.plan[i]);
      }
    }

    /** A settled bundle has found its place for good. */
    lemma ImageStable(s: State, image: map<Uuid, Option<Uuid>>, here: seq<Uuid>, p: Uuid)
      requires Inv(s) && here <= s.order && image.Keys == setup.inputs.Keys + Elems(here)
      requires forall k :: k in image ==> k in s.oldToNew && s.oldToNew[k] == image[k]
      requires Settled(here, p)
      ensures Image(image, p) == Image(s.oldToNew, p) && Settled(s.order, p)
    {
    }

    /** The first dependencies of `u`, moved to where their settled parents ended up. */
    ghost predicate Rewritten(image: map<Uuid, Option<Uuid>>, order: seq<Uuid>, u: Uuid,
                              newDeps: seq<Dependency<Option<Uuid>>>)
      requires u in setup.infos
    {
      var deps := setup.infos[u].dependencies;
      |newDeps| <= |deps| && forall j :: 0 <= j < |newDeps| ==>
        && Settled(order, deps[j].parent)
        && newDeps[j] == Dependency(Image(image, deps[j].parent), deps[j].parentPath, deps[j].childPath)
    }

    /** `now` continues `was`: nothing placed has moved, and the order is as told. */
    ghost predicate Continues(was: State, now: State, order: seq<Uuid>) {
      && Inv(now) && now.order == order
      && forall k :: k in was.oldToNew ==> k in now.oldToNew && now.oldToNew[k] == was.oldToNew[k]
    }

    ghost predicate Acyclic(rank: Rank) {
      Ranked(setup.infos, setup.inputs.Keys, rank)
    }

    ghost function After(rank: Rank, u: Uuid, order: seq<Uuid>): seq<Uuid>
      requires Acyclic(rank)
    {
      Visit(setup.infos, setup.inputs.Keys, rank, u, order)
    }

    ghost predicate ParentsBelow(rank: Rank, u: Uuid) {
      u in setup.infos && forall p :: p in Parents(setup.infos[u]) ==> rank(p) < rank(u)
    }

    ghost function AfterParents(rank: Rank, u: Uuid, n: nat, order: seq<Uuid>): seq<Uuid>
      requires Acyclic(rank) && ParentsBelow(rank, u) && n <= |setup.infos[u].dependencies|
    {
      VisitFirst(setup.infos, setup.inputs.Keys, rank, rank(u), Parents(setup.infos[u]), n, order)
    }

    /** The bundle has been asked for and `to` is where it ended up. */
    ghost predicate Asked(was: State, now: State, rank: Rank, u: Uuid, to: Option<Uuid>)
      requires Acyclic(rank)
    {
      Continues(was, now, After(rank, u, was.order)) && to == Image(now.oldToNew, u)
    }

    /** The first parents of `u` have been asked for, and `newDeps` are its dependencies so far. */
    ghost predicate AskedParents(was: State, now: State, rank: Rank, u: Uuid, newDeps: seq<Dependency<Option<Uuid>>>)
      requires Acyclic(rank) && ParentsBelow(rank, u)
    {
      && |newDeps| <= |setup.infos[u].dependencies|
      && Continues(was, now, AfterParents(rank, u, |newDeps|, was.order))
      && Rewritten(now.oldToNew, now.order, u, newDeps)
    }

    lemma AskedSettled(s: State, rank: Rank, u: Uuid)
      requires Inv(s) && Acyclic(rank) && (u in s.oldToNew || u !in setup.infos)
      ensures Asked(s, s, rank, u, Image(s.oldToNew, u))
    {
    }

    lemma BelowRank(s: State, rank: Rank, u: Uuid)
      requires Inv(s) && Acyclic(rank) && u !in s.oldToNew && u in setup.infos
      ensures ParentsBelow(rank, u)
    {
      RankedParents(setup.infos, setup.inputs.Keys, rank, u);
    }

    lemma AskedParentsNil(s: State, rank: Rank, u: Uuid)
      requires Inv(s) && Acyclic(rank) && ParentsBelow(rank, u)
      ensures AskedParents(s, s, rank, u, [])
    {
    }

    lemma AskedParentsSnoc(was: State, mid: State, now: State, rank: Rank, u: Uuid,
                           newDeps: seq<Dependency<Option<Uuid>>>, to: Option<Uuid>)
      requires Inv(was) && Inv(mid) && Acyclic(rank) && ParentsBelow(rank, u)
      requires AskedParents(was, mid, rank, u, newDeps) && |newDeps| < |setup.infos[u].dependencies|
      requires Asked(mid, now, rank, setup.infos[u].dependencies[|newDeps|].parent, to)
      ensures var d := setup.infos[u].dependencies[|newDeps|];
        AskedParents(was, now, rank, u, newDeps + [Dependency(to, d.parentPath, d.childPath)])
    {
      var d := setup.infos[u].dependencies[|newDeps|];
      assert Parents(setup.infos[u])[|newDeps|] == d.parent;
      VisitFacts(setup.infos, setup.inputs.Keys, rank, d.parent, mid.order);
      RewrittenSnoc(now, mid.oldToNew, mid.order, u, newDeps);
    }

    lemma ParentBlocks(was: State, mid: State, rank: Rank, u: Uuid, newDeps: seq<Dependency<Option<Uuid>>>, e: Error)
      requires Inv(was) && Acyclic(rank) && ParentsBelow(rank, u)
      requires AskedParents(was, mid, rank, u, newDeps) && |newDeps| < |setup.infos[u].dependencies|
      requires Blocked(After(rank, setup.infos[u].dependencies[|newDeps|].parent, mid.order), e)
      ensures Blocked(AfterParents(rank, u, |setup.infos[u].dependencies|, was.order), e)
    {
      var n := |newDeps|;
      assert Parents(setup.infos[u])[n] == setup.infos[u].dependencies[n].parent;
      VisitFirstGrows(setup.infos, setup.inputs.Keys, rank, rank(u), Parents(setup.infos[u]), n + 1,
                      |setup.infos[u].dependencies|, was.order);
    }

    /** When all parents have been asked for, `u` itself comes next. */
    lemma AskedParentsReady(was: State, now: State, rank: Rank, u: Uuid, newDeps: seq<Dependency<Option<Uuid>>>)
      requires Inv(was) && Acyclic(rank) && ParentsBelow(rank, u) && u !in was.oldToNew
      requires AskedParents(was, now, rank, u, newDeps) && |newDeps| == |setup.infos[u].dependencies|
      ensures Ready(now, u) && now.order + [u] == After(rank, u, was.order)
      ensures Copies(setup.infos[u], Info(setup.infos[u].bundleType, setup.infos[u].command, newDeps), now.oldToNew)
    {
      var ps := Parents(setup.infos[u]);
      VisitFirstFacts(setup.infos, setup.inputs.Keys, rank, rank(u), ps, |ps|, was.order);
      RewrittenReady(now, u, newDeps);
    }

    lemma AskedLast(was: State, mid: State, now: State, rank: Rank, u: Uuid,
                    newDeps: seq<Dependency<Option<Uuid>>>, to: Option<Uuid>)
      requires Acyclic(rank) && ParentsBelow(rank, u) && AskedParents(was, mid, rank, u, newDeps)
      requires Continues(mid, now, After(rank, u, was.order)) && to == Image(now.oldToNew, u)
      ensures Asked(was, now, rank, u, to)
    {
    }

    /** A blocked parent blocks `u`. */
    lemma BlockedAbove(s: State, rank: Rank, u: Uuid, e: Error)
      requires Inv(s) && Acyclic(rank) && ParentsBelow(rank, u) && u !in s.oldToNew
      requires Blocked(AfterParents(rank, u, |setup.infos[u].dependencies|, s.order), e)
      ensures Blocked(After(rank, u, s.order), e)
    {
    }

    lemma RewrittenSnoc(s: State, image: map<Uuid, Option<Uuid>>, here: seq<Uuid>, u: Uuid,
                        newDeps: seq<Dependency<Option<Uuid>>>)
      requires Inv(s) && here <= s.order && image.Keys == setup.inputs.Keys + Elems(here)
      requires forall k :: k in image ==> k in s.oldToNew && s.oldToNew[k] == image[k]
      requires u in setup.infos && |newDeps| < |setup.infos[u].dependencies| && Rewritten(image, here, u, newDeps)
      requires Settled(s.order, setup.infos[u].dependencies[|newDeps|].parent)
      ensures var d := setup.infos[u].dependencies[|newDeps|];
        Rewritten(s.oldToNew, s.order, u,
                  newDeps + [Dependency(Image(s.oldToNew, d.parent), d.parentPath, d.childPath)])
    {
      var deps := setup.infos[u].dependencies;
      forall j | 0 <= j < |newDeps|
        ensures Image(image, deps[j].parent) == Image(s.oldToNew, deps[j].parent) && Settled(s.order, deps[j].parent)
      {
        ImageStable(s, image, here, deps[j].parent);
      }
    }

    lemma RewrittenReady(s: State, u: Uuid, newDeps: seq<Dependency<Option<Uuid>>>)
      requires Inv(s) && u in setup.infos && u !in setup.inputs && u !in s.order
      requires |newDeps| == |setup.infos[u].dependencies| && Rewritten(s.oldToNew, s.order, u, newDeps)
      ensures Ready(s, u)
      ensures Copies(setup.infos[u], Info(setup.infos[u].bundleType, setup.infos[u].command, newDeps), s.oldToNew)
    {
      var ps := Parents(setup.infos[u]);
      forall p | Edge(setup.infos, u, p)
        ensures Settled(s.order, p)
      {
        var j :| 0 <= j < |ps| && ps[j] == p;
      }
    }

    /** A bundle that would have to be remade for real but is neither a run nor a make. */
    ghost predicate Blocked(done: seq<Uuid>, e: Error) {
      && !dryRun && e.CannotMimic? && e.uuid in done && setup.Downstream(e.uuid)
      && e.uuid in setup.infos && !Runnable(setup.infos[e.uuid])
    }

    lemma PlanIssued(s: State)
      requires Inv(s) && !dryRun
      ensures forall i :: 0 <= i < |s.plan| ==> s.plan[i].made.Some? && s.plan[i].made.value in s.world.issued
    {
      forall i | 0 <= i < |s.plan|
        ensures s.plan[i].made.Some? && s.plan[i].made.value in s.world.issued
      {
        assert Made(s, s.plan[i]);
      }
    }
  }

  /** The imperative worker: the variables of the program as fields, one call per bundle. */
  class Mimicry {
    const setup: Setup
    const dryRun: bool
    const client: Client
    var oldToNew: map<Uuid, Option<Uuid>>
    var downstream: set<Uuid>
    var created: set<Option<Uuid>>
    var plan: seq<PlanEntry>

    ghost const run: Run
    ghost var order: seq<Uuid>

    ghost function View(): State
      reads this, client
    {
      State(oldToNew, downstream, created, plan, order, client.View())
    }

    ghost predicate Valid()
      reads this, client
    {
      run.setup == setup && run.dryRun == dryRun && run.Inv(View())
    }

    constructor (setup: Setup, dryRun: bool, client: Client)
      requires Run(setup, dryRun, client.View()).Grounded()
      ensures Valid() && this.setup == setup && this.dryRun == dryRun && this.client == client
      ensures order == [] && run.base == client.View()
    {
      this.setup, this.dryRun, this.client := setup, dryRun, client;
      oldToNew := map u | u in setup.inputs :: Some(setup.inputs[u]);
      downstream, created, plan := setup.inputs.Keys, {}, [];
      run, order := Run(setup, dryRun, client.View()), [];
    }

    /** All parents are settled: decide whether the bundle itself is remade, and do it. */
    method Finish(u: Uuid, newDeps: seq<Dependency<Option<Uuid>>>) returns (r: Result<Option<Uuid>, Error>)
      requires Valid() && run.Ready(View(), u) && u in setup.infos
      requires Copies(setup.infos[u], Info(setup.infos[u].bundleType, setup.infos[u].command, newDeps), oldToNew)
      modifies this, client
      ensures run.WorldOk(client.View())
      ensures r.Ok? ==>
        && Valid() && run.Continues(old(View()), View(), old(order) + [u]) && r.value == Image(oldToNew, u)
      ensures r.Err? ==> run.Blocked(old(order) + [u], r.error)
    {
      hide Reaches, Ordered, Run.Inv, Run.WorldOk, Copies, Setup.Downstream;
      var info := setup.infos[u];
      var loneOutput := setup.lone == Some(u);
      var downstreamOfInputs := exists d | d in info.dependencies :: d.parent in downstream;
      ghost var s := View();
      assert run.Inv(s) && forall p :: Edge(setup.infos, u, p) ==> run.Settled(order, p);
      assert u !in oldToNew;
      hide Run.Ready, Run.Settled, Edge, World.Valid;
      run.DownstreamDecided(s, u);
      if loneOutput || downstreamOfInputs {
        var newInfo := Info(info.bundleType, info.command, newDeps);
        var newUuid: Option<Uuid> := None;
        if !dryRun {
          if !Runnable(info) {
            assert (order + [u])[|order|] == u;
            return Err(CannotMimic(u));
          }
          run.ParentsConcrete(s, u, newInfo);
          var uuid := client.Create(Sent(newInfo));
          newUuid := Some(uuid);
        }
        run.RemadeInv(s, u, newUuid, newInfo, client.View());
        plan := plan + [PlanEntry(u, newUuid, newInfo)];
        downstream := downstream + {u};
        created := created + {newUuid};
        oldToNew := oldToNew[u := newUuid];
      } else {
        run.KeptInv(s, u);
        oldToNew := oldToNew[u := Some(u)];
      }
      order := order + [u];
      r := Ok(oldToNew[u]);
    }

    method Recurse(u: Uuid, ghost rank: Rank) returns (r: Result<Option<Uuid>, Error>)
      requires Valid() && run.Acyclic(rank)
      modifies this, client
      ensures run.WorldOk(client.View())
      ensures r.Ok? ==> Valid() && run.Asked(old(View()), View(), rank, u, r.value)
      ensures r.Err? ==> run.Blocked(run.After(rank, u, old(order)), r.error)
      decreases rank(u), 1
    {
      run.InvBasics(View());
      hide Run.Inv, Run.WorldOk, Run.Asked, Run.AskedParents, Run.After, Run.AfterParents, Run.Acyclic, Run.Ready,
        Run.Blocked, Copies;
      if u in oldToNew || u !in setup.infos {
        run.AskedSettled(View(), rank, u);
        return Ok(if u in oldToNew then oldToNew[u] else Some(u));
      }
      ghost var was := View();
      run.BelowRank(was, rank, u);
      var newDeps := RecurseParents(u, rank);
      if newDeps.Err? {
        run.BlockedAbove(was, rank, u, newDeps.error);
        return Err(newDeps.error);
      }
      run.AskedParentsReady(was, View(), rank, u, newDeps.value);
      ghost var mid := View();
      r := Finish(u, newDeps.value);
      if r.Ok? {
        run.AskedLast(was, mid, View(), rank, u, newDeps.value, r.value);
      }
    }

    /** The rewritten dependencies of `u`, after each parent has been asked for in turn. */
    method RecurseParents(u: Uuid, ghost rank: Rank) returns (r: Result<seq<Dependency<Option<Uuid>>>, Error>)
      requires Valid() && run.Acyclic(rank) && run.ParentsBelow(rank, u)
      modifies this, client
      ensures run.WorldOk(client.View())
      ensures r.Ok? ==>
        && Valid() && |r.value| == |setup.infos[u].dependencies|
        && run.AskedParents(old(View()), View(), rank, u, r.value)
      ensures r.Err? ==> run.Blocked(run.AfterParents(rank, u, |setup.infos[u].dependencies|, old(order)), r.error)
      decreases rank(u), 0
    {
      run.InvBasics(View());
      hide Run.Inv, Run.WorldOk, Run.Asked, Run.AskedParents, Run.After, Run.AfterParents, Run.Acyclic, Run.Blocked;
      ghost var was := View();
      var deps := setup.infos[u].dependencies;
      var newDeps := [];
      run.AskedParentsNil(was, rank, u);
      for i := 0 to |deps|
        invariant Valid() && run.WorldOk(client.View())
        invariant |newDeps| == i && run.AskedParents(was, View(), rank, u, newDeps)
      {
        ghost var mid := View();
        assert Parents(setup.infos[u])[i] == deps[i].parent;
        var parent := Recurse(deps[i].parent, rank);
        if parent.Err? {
          run.ParentBlocks(was, mid, rank, u, newDeps, parent.error);
          return Err(parent.error);
        }
        run.AskedParentsSnoc(was, mid, View(), rank, u, newDeps, parent.value);
        newDeps := newDeps + [Dependency(parent.value, deps[i].parentPath, deps[i].childPath)];
      }
      r := Ok(newDeps);
    }
  }
}
