/** What mimicry means. A bundle's meaning is the tree of commands it was made by, ending in
    uuids nothing is known about; equal trees are equal under every interpretation of the
    commands. Mimicry is shown to be substitution on these trees, and the competition daemon's
    prediction step, which plans before it acts, is shown never to be surprised. */
module MimicMeaning {
  import opened Common
  import opened MimicGraph
  import opened Mimic
  import opened MimicRequest

  datatype Meaning = Absent(uuid: Uuid) | Made(bundleType: string, command: string, args: seq<Argument>)

  datatype Argument = Argument(childPath: string, parentPath: string, meaning: Meaning)

  /** `args` carries the paths of the dependencies, in order. */
  ghost predicate SamePaths<P>(deps: seq<Dependency<P>>, args: seq<Argument>) {
    && |args| == |deps|
    && forall i :: 0 <= i < |deps| ==> args[i].childPath == deps[i].childPath && args[i].parentPath == deps[i].parentPath
  }

  /** `t` is the meaning of `u` among the bundles of `g`. */
  ghost predicate Means(g: Graph, u: Uuid, t: Meaning)
    decreases t
  {
    match t
    case Absent(v) => v == u && u !in g
    case Made(bundleType, command, args) =>
      && u in g && g[u].bundleType == bundleType && g[u].command == command
      && SamePaths(g[u].dependencies, args)
      && forall i :: 0 <= i < |args| ==> Means(g, g[u].dependencies[i].parent, args[i].meaning)
  }

  /** `t` is the meaning of `u` with every old input replaced by its new input. Only bundles
      that were fetched are looked into; the rest keep their meaning. */
  ghost predicate MeansWith(g: Graph, setup: Setup, u: Uuid, t: Meaning)
    decreases t
  {
    if u in setup.inputs then Means(g, setup.inputs[u], t)
    else if u !in setup.infos then Means(g, u, t)
    else
      var info := setup.infos[u];
      && t.Made? && info.bundleType == t.bundleType && info.command == t.command
      && SamePaths(info.dependencies, t.args)
      && forall i :: 0 <= i < |t.args| ==> MeansWith(g, setup, info.dependencies[i].parent, t.args[i].meaning)
  }

  lemma {:induction false} MeaningUnique(g: Graph, u: Uuid, s: Meaning, t: Meaning)
    requires Means(g, u, s) && Means(g, u, t)
    ensures s == t
    decreases s
  {
    if s.Made? {
      forall i | 0 <= i < |s.args|
        ensures s.args[i] == t.args[i]
      {
        MeaningUnique(g, g[u].dependencies[i].parent, s.args[i].meaning, t.args[i].meaning);
      }
    }
  }

  /** In an acyclic table every bundle has a meaning. */
  lemma {:induction false} MeaningExists(g: Graph, rank: Rank, u: Uuid) returns (t: Meaning)
    requires Ranked(g, {}, rank)
    ensures Means(g, u, t)
    decreases rank(u)
  {
    if u !in g {
      return Absent(u);
    }
    var deps := g[u].dependencies;
    var args: seq<Argument> := [];
    RankedParents(g, {}, rank, u);
    for i := 0 to |deps|
      invariant |args| == i
      invariant forall j :: 0 <= j < i ==>
        && args[j].childPath == deps[j].childPath && args[j].parentPath == deps[j].parentPath
        && Means(g, deps[j].parent, args[j].meaning)
    {
      assert Parents(g[u])[i] == deps[i].parent;
      var arg := MeaningExists(g, rank, deps[i].parent);
      args := args + [Argument(deps[i].childPath, deps[i].parentPath, arg)];
    }
    t := Made(g[u].bundleType, g[u].command, args);
  }

  /** New bundles change the meaning of nothing that existed or was referred to before. */
  lemma {:induction false} OldMeaningsStay(base: World, later: World, u: Uuid, t: Meaning)
    requires base.Valid() && base.GrowsTo(later) && u in base.issued
    ensures Means(base.bundles, u, t) <==> Means(later.bundles, u, t)
    decreases t
  {
    if u in base.bundles && t.Made? && |t.args| == |base.bundles[u].dependencies| {
      forall i | 0 <= i < |t.args|
        ensures Means(base.bundles, base.bundles[u].dependencies[i].parent, t.args[i].meaning)
           <==> Means(later.bundles, base.bundles[u].dependencies[i].parent, t.args[i].meaning)
      {
        var p := base.bundles[u].dependencies[i].parent;
        assert Parents(base.bundles[u])[i] == p;
        assert Edge(base.bundles, u, p);
        OldMeaningsStay(base, later, p, t.args[i].meaning);
      }
    }
  }

  /** Where a bundle ended up, among the bundles of a completed real run. */
  ghost predicate Placed(run: Run, s: State, u: Uuid) {
    && run.Inv(s) && !run.dryRun && u in run.base.issued
    && run.Settled(s.order, u)
  }

  ghost function Place(run: Run, s: State, u: Uuid): Uuid
    requires Placed(run, s, u)
  {
    Image(s.oldToNew, u).value
  }

  lemma ParentPlaced(run: Run, s: State, u: Uuid, i: nat)
    requires Placed(run, s, u) && u in run.setup.infos && u !in run.setup.inputs
    requires i < |run.setup.infos[u].dependencies|
    ensures Placed(run, s, run.setup.infos[u].dependencies[i].parent)
  {
    var p := run.setup.infos[u].dependencies[i].parent;
    assert Parents(run.setup.infos[u])[i] == p;
    assert Edge(run.setup.infos, u, p) && Edge(run.base.bundles, u, p);
    var k :| 0 <= k < |s.order| && s.order[k] == u;
    assert run.Settled(s.order[..k], p);
  }

  /** A bundle that is kept has only parents that are kept. */
  lemma KeptParent(run: Run, s: State, u: Uuid, i: nat)
    requires Placed(run, s, u) && u in run.setup.infos && u !in run.setup.inputs && !run.setup.Downstream(u)
    requires i < |run.setup.infos[u].dependencies|
    ensures Image(s.oldToNew, run.setup.infos[u].dependencies[i].parent) == Some(run.setup.infos[u].dependencies[i].parent)
  {
    ParentPlaced(run, s, u, i);
    var p := run.setup.infos[u].dependencies[i].parent;
    assert Parents(run.setup.infos[u])[i] == p;
    assert Edge(run.setup.infos, u, p);
    hide Reaches, Ordered;
    ReachesStep(run.setup.infos, run.setup.Seeds(), u);
    ReachesStep(run.setup.infos, run.setup.Seeds(), p);
    assert !run.setup.Downstream(p);
  }

  lemma EntryOf(run: Run, s: State, u: Uuid) returns (e: PlanEntry)
    requires Placed(run, s, u) && u in run.setup.infos && u !in run.setup.inputs && run.setup.Downstream(u)
    ensures run.Made(s, e) && e.orig == u
  {
    run.setup.RemakesExactly(s.order);
    var i :| 0 <= i < |s.plan| && Olds(s.plan)[i] == u;
    e := s.plan[i];
  }

  /** Whatever happened to a fetched bundle, the bundle that stands for it has its type and
      command, and its dependencies in order under the same paths, moved to where they ended up. */
  lemma PlaceCopies(run: Run, s: State, u: Uuid)
    requires Placed(run, s, u) && u in run.setup.infos && u !in run.setup.inputs
    ensures var info, made := run.setup.infos[u], Place(run, s, u);
      && made in s.world.bundles
      && s.world.bundles[made].bundleType == info.bundleType && s.world.bundles[made].command == info.command
      && |s.world.bundles[made].dependencies| == |info.dependencies|
      && forall i :: 0 <= i < |info.dependencies| ==>
           && Placed(run, s, info.dependencies[i].parent)
           && s.world.bundles[made].dependencies[i] ==
                Dependency(Place(run, s, info.dependencies[i].parent),
                           info.dependencies[i].parentPath, info.dependencies[i].childPath)
  {
    var info := run.setup.infos[u];
    forall i | 0 <= i < |info.dependencies|
      ensures Placed(run, s, info.dependencies[i].parent)
    {
      ParentPlaced(run, s, u, i);
    }
    if run.setup.Downstream(u) {
      var e := EntryOf(run, s, u);
    } else {
      forall i | 0 <= i < |info.dependencies|
        ensures Place(run, s, info.dependencies[i].parent) == info.dependencies[i].parent
      {
        KeptParent(run, s, u, i);
      }
    }
  }

  /** Where mimicry does not look further: an old input is mapped to its new input, and a bundle
      beyond the fetched ones to itself. */
  lemma PlaceAtEdge(run: Run, s: State, u: Uuid)
    requires Placed(run, s, u) && (u in run.setup.inputs || u !in run.setup.infos)
    ensures run.base.Valid() && run.base.GrowsTo(s.world) && Place(run, s, u) in run.base.issued
    ensures Place(run, s, u) == if u in run.setup.inputs then run.setup.inputs[u] else u
  {
  }

  /** Mimicry is substitution: the bundle an old bundle is mapped to means what the old bundle
      meant, with every old input replaced by its new input. */
  lemma {:induction false} MimicPreservesMeaning(run: Run, s: State, u: Uuid, t: Meaning)
    requires Placed(run, s, u)
    ensures MeansWith(run.base.bundles, run.setup, u, t) <==> Means(s.world.bundles, Place(run, s, u), t)
    decreases t
  {
    hide Reaches, Ordered, Run.Inv, Run.Settled, World.Valid, World.GrowsTo, Placed, Place;
    var g := run.base.bundles;
    if u in run.setup.inputs || u !in run.setup.infos {
      PlaceAtEdge(run, s, u);
      OldMeaningsStay(run.base, s.world, Place(run, s, u), t);
    } else {
      PlaceCopies(run, s, u);
      var info, made := run.setup.infos[u], Place(run, s, u);
      if t.Made? && |t.args| == |info.dependencies| {
        forall i | 0 <= i < |t.args|
          ensures MeansWith(g, run.setup, info.dependencies[i].parent, t.args[i].meaning)
             <==> Means(s.world.bundles, s.world.bundles[made].dependencies[i].parent, t.args[i].meaning)
        {
          MimicPreservesMeaning(run, s, info.dependencies[i].parent, t.args[i].meaning);
        }
      }
    }
  }

  /** In an acyclic table the substitution has a result for every bundle. */
  lemma {:induction false} SubstitutionExists(g: Graph, setup: Setup, rank: Rank, u: Uuid) returns (t: Meaning)
    requires Ranked(g, {}, rank) && forall v :: v in setup.infos ==> v in g && g[v] == setup.infos[v]
    ensures MeansWith(g, setup, u, t)
    decreases rank(u)
  {
    if u in setup.inputs {
      t := MeaningExists(g, rank, setup.inputs[u]);
    } else if u !in setup.infos {
      t := MeaningExists(g, rank, u);
    } else {
      var deps := g[u].dependencies;
      var args: seq<Argument> := [];
      RankedParents(g, {}, rank, u);
      for i := 0 to |deps|
        invariant |args| == i
        invariant forall j :: 0 <= j < i ==>
          && args[j].childPath == deps[j].childPath && args[j].parentPath == deps[j].parentPath
          && MeansWith(g, setup, deps[j].parent, args[j].meaning)
      {
        assert Parents(g[u])[i] == deps[i].parent;
        var arg := SubstitutionExists(g, setup, rank, deps[i].parent);
        args := args + [Argument(deps[i].childPath, deps[i].parentPath, arg)];
      }
      t := Made(g[u].bundleType, g[u].command, args);
    }
  }

  /** So in an acyclic table there is one meaning, and only one, that is both: the old bundle's with
      every old input replaced, and that of the bundle it is mapped to. */
  lemma MimicSubstitutes(run: Run, s: State, rank: Rank, u: Uuid) returns (t: Meaning)
    requires Placed(run, s, u) && Ranked(run.base.bundles, {}, rank)
    ensures MeansWith(run.base.bundles, run.setup, u, t) && Means(s.world.bundles, Place(run, s, u), t)
    ensures forall other :: Means(s.world.bundles, Place(run, s, u), other) ==> other == t
    ensures forall other :: MeansWith(run.base.bundles, run.setup, u, other) ==> other == t
  {
    FetchedAsStored(run, s, u);
    t := SubstitutionExists(run.base.bundles, run.setup, rank, u);
    MimicPreservesMeaning(run, s, u, t);
    forall other | Means(s.world.bundles, Place(run, s, u), other) || MeansWith(run.base.bundles, run.setup, u, other)
      ensures other == t
    {
      MimicPreservesMeaning(run, s, u, other);
      MeaningUnique(s.world.bundles, Place(run, s, u), other, t);
    }
  }

  lemma FetchedAsStored(run: Run, s: State, u: Uuid)
    requires Placed(run, s, u)
    ensures forall v :: v in run.setup.infos ==> v in run.base.bundles && run.base.bundles[v] == run.setup.infos[v]
  {
  }

  /** A bundle with no dependency path through fetched bundles to an old input keeps its
      meaning under the substitution, and mimicry leaves it where it is. */
  lemma {:induction false} UntouchedMeaning(run: Run, s: State, u: Uuid, t: Meaning)
    requires Placed(run, s, u) && u !in run.setup.inputs && !run.setup.Downstream(u)
    ensures Place(run, s, u) == u
    ensures MeansWith(run.base.bundles, run.setup, u, t) <==> Means(run.base.bundles, u, t)
  {
    MimicPreservesMeaning(run, s, u, t);
    OldMeaningsStay(run.base, s.world, u, t);
  }

  // ---------------------------------------------------------------- predicting for a submission

  /** The plan's entry for a bundle. */
  method FindMimicked(plan: seq<PlanEntry>, uuid: Uuid) returns (found: Option<PlanEntry>)
    ensures found.Some? <==> uuid in Olds(plan)
    ensures found.Some? ==> found.value in plan && found.value.orig == uuid
  {
    for i := 0 to |plan|
      invariant forall j :: 0 <= j < i ==> plan[j].orig != uuid
    {
      if plan[i].orig == uuid {
        assert Olds(plan)[i] == uuid;
        return Some(plan[i]);
      }
    }
    found := None;
  }

  /** Plan first, and act only when the submission is in the plan. The submission is then in
      the plan of the real run as well, and nothing can be missing by then. */
  method RunPrediction(client: Client, req: Request, submission: Uuid, ghost rank: Rank)
    returns (r: Result<Option<PlanEntry>, Error>)
    requires client.View().Valid() && Elems(req.newInputs) <= client.issued && NoDup(req.descendants)
    requires req.oldOutput == Some(submission) && Ranked(client.bundles, req.Inputs().Keys, rank)
    modifies client
    ensures old(client.View()).GrowsTo(client.View())
    ensures var g := old(client.bundles);
      var planned := submission in req.Setup(g).Remakes(req.Order(g, rank));
      && (r == Ok(None) <==> !req.Available(g) || !planned)
      && (r.Ok? && r.value.Some? <==> req.Available(g) && planned && req.Doable(g, rank))
      && (r == Ok(None) ==> client.View() == old(client.View()))
      && (r.Ok? && r.value.Some? ==>
            && r.value.value.orig == submission && r.value.value.made.Some?
            && r.value.value.made.value in client.bundles && r.value.value.made.value !in old(client.issued))
  {
    var dry, s := MimicBundles(client, req, true, rank);
    if dry.Err? {
      return Ok(None);
    }
    var planned := FindMimicked(dry.value, submission);
    if planned.None? {
      return Ok(None);
    }
    ghost var base := client.View();
    var acted, s' := MimicBundles(client, req, false, rank);
    if acted.Err? {
      return Err(acted.error);
    }
    var predicted := FindMimicked(acted.value, submission);
    assert predicted.Some?;
    assert Run(req.Setup(base.bundles), false, base).Made(s', predicted.value);
    r := Ok(predicted);
  }
}
