/** The worker tables and the reply sockets: `WorkerModel`. */
module WorkerSockets {
  import opened Common

  /** A worker, by user and worker id. */
  datatype Owner = Owner(user: nat, worker: nat)

  /** Who takes a step: the read under study, or anyone else. */
  datatype Actor = Me | Others

  /** What happens to the socket table. */
  datatype Event =
    | Allocate(actor: Actor, id: nat, owner: Owner)
    | Release(actor: Actor, id: nat)
    | Cleanup(owner: Owner)

  type History = seq<Event>

  /** The rows of other workers. */
  function Without(m: map<nat, Owner>, o: Owner): map<nat, Owner> {
    map id | id in m && m[id] != o :: m[id]
  }

  function After(m: map<nat, Owner>, e: Event): map<nat, Owner> {
    match e
    case Allocate(_, id, owner) => m[id := owner]
    case Release(_, id) => m - {id}
    case Cleanup(owner) => Without(m, owner)
  }

  /** The socket table a history leaves behind. */
  function Replay(h: History): map<nat, Owner> {
    if h == [] then map[] else After(Replay(h[..|h| - 1]), h[|h| - 1])
  }

  /** The database hands out only ids that are not in the table. */
  ghost predicate Fresh(h: History) {
    forall k | 0 <= k < |h| && h[k].Allocate? :: h[k].id !in Replay(h[..k])
  }

  /** Socket `id` was allocated to worker `o`, and neither it was released nor the worker cleaned
      up since. */
  ghost predicate Live(h: History, o: Owner, id: nat) {
    exists k | 0 <= k < |h| :: LiveSince(h, k, o, id)
  }

  ghost predicate LiveSince(h: History, k: nat, o: Owner, id: nat)
    requires k < |h|
  {
    && h[k].Allocate? && h[k].id == id && h[k].owner == o
    && forall j | k < j < |h| :: !Ends(h[j], o, id)
  }

  predicate Ends(e: Event, o: Owner, id: nat) {
    (e.Release? && e.id == id) || (e.Cleanup? && e.owner == o)
  }

  lemma ReplaySnoc(h: History, e: Event)
    ensures Replay(h + [e]) == After(Replay(h), e)
  {
    assert (h + [e])[..|h|] == h;
  }

  lemma FreshPrefix(h: History, n: nat)
    requires Fresh(h) && n <= |h|
    ensures Fresh(h[..n])
  {
    forall k | 0 <= k < n && h[..n][k].Allocate?
      ensures h[..n][k].id !in Replay(h[..n][..k])
    {
      assert h[..n][..k] == h[..k];
    }
  }

  /** The table holds exactly the sockets that are live. */
  lemma {:induction false} RowsAreLive(h: History, o: Owner, id: nat)
    requires Fresh(h)
    ensures (id in Replay(h) && Replay(h)[id] == o) <==> Live(h, o, id)
  {
    if h != [] {
      var n := |h| - 1;
      var p, e := h[..n], h[n];
      FreshPrefix(h, n);
      RowsAreLive(p, o, id);
      assert h == p + [e];
      if e.Allocate? && e.id == id && e.owner == o {
        assert LiveSince(h, n, o, id);
      } else {
        LiveSnoc(p, e, o, id);
        if e.Allocate? && e.id == id {
          assert id !in Replay(p);
        }
      }
    }
  }

  /** An event that is not an allocation of the socket to the worker keeps it live unless it ends
      that. */
  lemma LiveSnoc(p: History, e: Event, o: Owner, id: nat)
    requires !(e.Allocate? && e.id == id && e.owner == o)
    ensures Live(p + [e], o, id) <==> Live(p, o, id) && !Ends(e, o, id)
  {
    var h := p + [e];
    if Live(h, o, id) {
      var k :| 0 <= k < |h| && LiveSince(h, k, o, id);
      assert k < |p| && !Ends(h[|p|], o, id);
      assert LiveSince(p, k, o, id) by {
        forall j | k < j < |p|
          ensures !Ends(p[j], o, id)
        {
          assert h[j] == p[j];
        }
      }
    }
    if Live(p, o, id) && !Ends(e, o, id) {
      var k :| 0 <= k < |p| && LiveSince(p, k, o, id);
      assert LiveSince(h, k, o, id);
    }
  }

  // ---------------------------------------------------------------- what one read does to the table

  /** The sockets the read was given and has not released. */
  function Open(h: History): set<nat> {
    if h == [] then {}
    else
      var o, e := Open(h[..|h| - 1]), h[|h| - 1];
      if e.Allocate? && e.actor == Me then o + {e.id}
      else if e.Release? && e.actor == Me then o - {e.id}
      else o
  }

  /** The history without the steps of the read. */
  function OthersOnly(h: History): History {
    if h == [] then []
    else
      var e := h[|h| - 1];
      OthersOnly(h[..|h| - 1]) + if e.Cleanup? || e.actor == Others then [e] else []
  }

  /** The read releases only what it was given. */
  ghost predicate Disciplined(h: History) {
    forall k | 0 <= k < |h| && h[k].Release? && h[k].actor == Me :: h[k].id in Open(h[..k])
  }

  /** No socket of the read is given to anyone else before the read has released it. */
  ghost predicate Exclusive(h: History) {
    forall k | 0 <= k < |h| && h[k].Allocate? && h[k].actor == Others :: h[k].id !in Open(h[..k])
  }

  lemma RulesPrefix(h: History, n: nat)
    requires n <= |h|
    ensures Disciplined(h) ==> Disciplined(h[..n])
    ensures Exclusive(h) ==> Exclusive(h[..n])
  {
    forall k | 0 <= k < n
      ensures h[..n][..k] == h[..k]
    {
    }
  }

  /** One event, seen with and without the open sockets `o`. */
  lemma TableStep(m: map<nat, Owner>, o: set<nat>, e: Event)
    requires e.Allocate? && e.actor == Me ==> e.id !in m
    requires e.Allocate? && e.actor == Others ==> e.id !in o
    requires e.Release? && e.actor == Me ==> e.id in o
    ensures e.Cleanup? || e.actor == Others ==> After(m, e) - o == After(m - o, e)
    ensures e.Allocate? && e.actor == Me ==> After(m, e) - (o + {e.id}) == m - o
    ensures e.Release? && e.actor == Me ==> After(m, e) - (o - {e.id}) == m - o
  {
  }

  /** At every moment the table is what the others made it, plus the open sockets of the read. */
  lemma {:induction false} NoInterference(h: History)
    requires Fresh(h) && Disciplined(h) && Exclusive(h)
    ensures Replay(OthersOnly(h)) == Replay(h) - Open(h)
  {
    if h != [] {
      var n := |h| - 1;
      var p, e := h[..n], h[n];
      FreshPrefix(h, n);
      RulesPrefix(h, n);
      NoInterference(p);
      assert h == p + [e];
      ReplaySnoc(p, e);
      TableStep(Replay(p), Open(p), e);
      if e.Cleanup? || e.actor == Others {
        ReplaySnoc(OthersOnly(p), e);
      } else {
        assert OthersOnly(h) == OthersOnly(p);
      }
    }
  }

  /** The read is invisible in the table: at every moment the table is what the others made it, plus
      the open sockets of the read. */
  ghost predicate Invisible(h: History) {
    forall n | 0 <= n <= |h| :: Replay(OthersOnly(h[..n])) == Replay(h[..n]) - Open(h[..n])
  }

  /** The read is invisible at every moment exactly when no socket of it is given to anyone else
      before the read has released it. */
  lemma InvisibleExactly(h: History)
    requires Fresh(h) && Disciplined(h)
    ensures Exclusive(h) <==> Invisible(h)
  {
    if Exclusive(h) {
      forall n | 0 <= n <= |h|
        ensures Replay(OthersOnly(h[..n])) == Replay(h[..n]) - Open(h[..n])
      {
        FreshPrefix(h, n);
        RulesPrefix(h, n);
        NoInterference(h[..n]);
      }
    }
    if Invisible(h) {
      forall k | 0 <= k < |h| && h[k].Allocate? && h[k].actor == Others
        ensures h[k].id !in Open(h[..k])
      {
        GivenAwayShows(h, k);
      }
    }
  }

  /** A socket given away too early is a row that only the others' history has room for. */
  lemma GivenAwayShows(h: History, k: nat)
    requires k < |h| && h[k].Allocate? && h[k].actor == Others
    requires Replay(OthersOnly(h[..k + 1])) == Replay(h[..k + 1]) - Open(h[..k + 1])
    ensures h[k].id !in Open(h[..k])
  {
    var p, e := h[..k], h[k];
    assert h[..k + 1] == p + [e] && (p + [e])[..k] == p;
    ReplaySnoc(OthersOnly(p), e);
    assert e.id in Replay(OthersOnly(p + [e]));
    assert Open(p + [e]) == Open(p);
  }

  /** Once the read has released all it was given, it has left no trace in the table. */
  lemma LeavesNoTrace(h: History)
    requires Fresh(h) && Disciplined(h) && Exclusive(h) && Open(h) == {}
    ensures Replay(h) == Replay(OthersOnly(h))
  {
    NoInterference(h);
  }

  /** Ids that are never handed out twice keep a read's sockets to itself. */
  lemma {:induction false} UniqueIdsSuffice(h: History)
    requires forall j, k | 0 <= j < k < |h| && h[j].Allocate? && h[k].Allocate? :: h[j].id != h[k].id
    ensures Exclusive(h)
  {
    forall k | 0 <= k < |h| && h[k].Allocate? && h[k].actor == Others
      ensures h[k].id !in Open(h[..k])
    {
      OpenWasAllocated(h[..k], h[k].id);
    }
  }

  lemma {:induction false} OpenWasAllocated(h: History, id: nat)
    ensures id in Open(h) ==> exists j :: 0 <= j < |h| && h[j].Allocate? && h[j].id == id
  {
    if h != [] && id in Open(h) {
      var n := |h| - 1;
      if !(h[n].Allocate? && h[n].id == id) {
        OpenWasAllocated(h[..n], id);
        var j :| 0 <= j < n && h[..n][j].Allocate? && h[..n][j].id == id;
        assert h[j].Allocate?;
      }
    }
  }

  lemma ExclusiveSnoc(h: History)
    requires h != []
    requires var n := |h| - 1; Exclusive(h[..n]) && (h[n].Allocate? && h[n].actor == Others ==> h[n].id !in Open(h[..n]))
    ensures Exclusive(h)
  {
    var n := |h| - 1;
    forall k | 0 <= k < |h| && h[k].Allocate? && h[k].actor == Others
      ensures h[k].id !in Open(h[..k])
    {
      if k < n {
        assert h[..n][k] == h[k] && h[..n][..k] == h[..k];
      }
    }
  }

  /** One event that is no cleanup, with all open sockets in the table. */
  lemma OpenHeld(m: map<nat, Owner>, o: set<nat>, e: Event)
    requires o <= m.Keys && !e.Cleanup? && (e.Release? && e.actor == Others ==> e.id !in o)
    ensures e.Allocate? && e.actor == Me ==> o + {e.id} <= After(m, e).Keys
    ensures e.Release? && e.actor == Me ==> o - {e.id} <= After(m, e).Keys
    ensures e.actor == Others ==> o <= After(m, e).Keys
  {
  }

  /** So does the absence of cleanups, even when ids of released sockets are handed out again. */
  lemma {:induction false} NoCleanupSuffices(h: History)
    requires Fresh(h) && forall k | 0 <= k < |h| :: !h[k].Cleanup?
    requires forall k | 0 <= k < |h| && h[k].Release? && h[k].actor == Others :: h[k].id !in Open(h[..k])
    ensures Exclusive(h) && Open(h) <= Replay(h).Keys
  {
    if h != [] {
      var n := |h| - 1;
      FreshPrefix(h, n);
      RulesPrefix(h, n);
      forall k | 0 <= k < n
        ensures h[..n][..k] == h[..k] && h[..n][k] == h[k]
      {
      }
      NoCleanupSuffices(h[..n]);
      OpenHeld(Replay(h[..n]), Open(h[..n]), h[n]);
      assert h[..n] + [h[n]] == h;
      ReplaySnoc(h[..n], h[n]);
      ExclusiveSnoc(h);
    }
  }

  /** The history of `ReusedIdIsTaken`, and its prefixes. */
  function Reuse(o: Owner, p: Owner): History {
    [Allocate(Me, 1, o), Cleanup(o), Allocate(Others, 1, p)]
  }

  lemma ReuseSteps(o: Owner, p: Owner)
    ensures Replay([Allocate(Me, 1, o)]) == map[1 := o] && Open([Allocate(Me, 1, o)]) == {1}
    ensures Replay([Allocate(Me, 1, o), Cleanup(o)]) == map[] && Open([Allocate(Me, 1, o), Cleanup(o)]) == {1}
    ensures OthersOnly([Allocate(Me, 1, o), Cleanup(o)]) == [Cleanup(o)] && Replay([Cleanup(o)]) == map[]
  {
    var h := [Allocate(Me, 1, o), Cleanup(o)];
    assert h[..1] == [Allocate(Me, 1, o)];
    assert OthersOnly(h[..1]) == [];
    assert OthersOnly(h) == OthersOnly(h[..1]) + [Cleanup(o)];
  }

  lemma ReuseTable(o: Owner, p: Owner)
    ensures Replay(Reuse(o, p)) == map[1 := p] && Open(Reuse(o, p)) == {1} && Fresh(Reuse(o, p))
    ensures Replay(OthersOnly(Reuse(o, p))) == map[1 := p]
  {
    ReuseSteps(o, p);
    var h, h2 := Reuse(o, p), [Allocate(Me, 1, o), Cleanup(o)];
    assert h[..2] == h2 && h[..0] == [];
    assert OthersOnly(h) == OthersOnly(h2) + [h[2]];
    ReplaySnoc(OthersOnly(h2), h[2]);
  }

  /** If ids come back after a cleanup, a read can take a socket away from another: its worker is
      cleaned up while it waits, its id goes to someone else, and then it releases the id. */
  lemma ReusedIdIsTaken(o: Owner, p: Owner)
    ensures var h := Reuse(o, p) + [Release(Me, 1)];
      && Fresh(h) && Disciplined(h) && Open(h) == {}
      && Live(Reuse(o, p), p, 1) && !Live(h, p, 1)
      && Replay(OthersOnly(h)) == map[1 := p] && Replay(h) == map[]
  {
    ReuseTable(o, p);
    var before, e := Reuse(o, p), Release(Me, 1);
    var h := before + [e];
    assert h[..3] == before && forall k | 0 <= k < 3 :: h[k] == before[k] && h[..k] == before[..k];
    assert OthersOnly(h) == OthersOnly(before);
    RowsAreLive(before, p, 1);
    RowsAreLive(h, p, 1);
  }

  // ---------------------------------------------------------------- the tables

  /** A worker row: its socket, its group if any, and all other columns together. */
  datatype Row = Row(socket: nat, group: Option<nat>, info: nat)

  /** A row of the outer join of workers with dependencies: a worker, and whose dependencies stand
      beside it. */
  datatype JoinRow = JoinRow(owner: Owner, source: Option<Owner>)

  predicate SameWorker(dependencies: map<Owner, nat>, o: Owner, p: Owner) {
    p in dependencies && p.worker == o.worker
  }

  /** The join compares worker ids only; a worker without a match gets one row. */
  function Joined(workers: map<Owner, Row>, dependencies: map<Owner, nat>): set<JoinRow> {
    (set o, p | o in workers && p in dependencies && SameWorker(dependencies, o, p) :: JoinRow(o, Some(p))) +
    set o | o in workers && (forall p | p in dependencies :: !SameWorker(dependencies, o, p)) :: JoinRow(o, None)
  }

  /** The last of a worker's rows. */
  function LastRow(rows: seq<JoinRow>, o: Owner): Option<JoinRow> {
    if rows == [] then None
    else if rows[|rows| - 1].owner == o then Some(rows[|rows| - 1])
    else LastRow(rows[..|rows| - 1], o)
  }

  /** The dependencies a row brings, if any. */
  function Brought(dependencies: map<Owner, nat>, row: JoinRow): Option<nat> {
    if row.source.Some? && row.source.value in dependencies then Some(dependencies[row.source.value]) else None
  }

  /** The dependencies a worker is listed with: each of its rows overwrites the one before. */
  function Listed(dependencies: map<Owner, nat>, rows: seq<JoinRow>, o: Owner): Option<nat> {
    var row := LastRow(rows, o);
    if row.Some? then Brought(dependencies, row.value) else None
  }

  /** The runs of a worker, in the order of the rows. */
  function RunsOf(rows: seq<(Owner, nat)>, o: Owner): seq<nat> {
    if rows == [] then []
    else
      var n := |rows| - 1;
      RunsOf(rows[..n], o) + if rows[n].0 == o then [rows[n].1] else []
  }

  /** What is listed for a worker. */
  datatype Info = Info(row: Row, runs: seq<nat>, dependencies: Option<nat>)

  lemma {:induction false} LastRowFacts(rows: seq<JoinRow>, o: Owner)
    ensures match LastRow(rows, o)
      case None => forall r :: r in rows ==> r.owner != o
      case Some(r) => r in rows && r.owner == o
  {
    if rows != [] {
      LastRowFacts(rows[..|rows| - 1], o);
      assert rows == rows[..|rows| - 1] + [rows[|rows| - 1]];
    }
  }

  /** What the loop over the joined rows has made so far. */
  ghost predicate JoinedSoFar(workers: map<Owner, Row>, dependencies: map<Owner, nat>, rows: seq<JoinRow>,
                              dict: map<Owner, Info>)
  {
    && (forall o :: o in dict <==> LastRow(rows, o).Some?)
    && forall o :: o in dict ==> o in workers && dict[o] == Info(workers[o], [], Listed(dependencies, rows, o))
  }

  lemma NothingJoined(workers: map<Owner, Row>, dependencies: map<Owner, nat>)
    ensures JoinedSoFar(workers, dependencies, [], map[])
  {
  }

  lemma JoinedOwner(workers: map<Owner, Row>, dependencies: map<Owner, nat>, row: JoinRow)
    requires row in Joined(workers, dependencies)
    ensures row.owner in workers
  {
  }

  lemma JoinedNext(workers: map<Owner, Row>, dependencies: map<Owner, nat>, rows: seq<JoinRow>,
                   dict: map<Owner, Info>, row: JoinRow)
    requires JoinedSoFar(workers, dependencies, rows, dict) && row in Joined(workers, dependencies)
    ensures row.owner in workers
    ensures JoinedSoFar(workers, dependencies, rows + [row],
                        dict[row.owner := Info(workers[row.owner], [], Brought(dependencies, row))])
  {
    JoinedOwner(workers, dependencies, row);
    hide Joined, Brought;
    assert (rows + [row])[..|rows|] == rows;
    assert forall o :: LastRow(rows + [row], o) == if row.owner == o then Some(row) else LastRow(rows, o);
  }

  lemma JoinedHas(workers: map<Owner, Row>, dependencies: map<Owner, nat>, o: Owner)
    ensures o in workers <==> exists r :: r in Joined(workers, dependencies) && r.owner == o
  {
    if o in workers {
      if p :| p in dependencies && SameWorker(dependencies, o, p) {
        assert JoinRow(o, Some(p)) in Joined(workers, dependencies);
      } else {
        assert JoinRow(o, None) in Joined(workers, dependencies);
      }
    }
  }

  lemma AllJoined(workers: map<Owner, Row>, dependencies: map<Owner, nat>, rows: seq<JoinRow>, dict: map<Owner, Info>)
    requires Lists(rows, Joined(workers, dependencies)) && JoinedSoFar(workers, dependencies, rows, dict)
    ensures RunsSoFar(workers, dependencies, rows, [], dict)
  {
    forall o
      ensures o in dict <==> o in workers
    {
      LastRowFacts(rows, o);
      JoinedHas(workers, dependencies, o);
      assert forall r :: r in rows <==> r in Elems(rows);
    }
  }

  /** What the loop over the runs has made so far. */
  ghost predicate RunsSoFar(workers: map<Owner, Row>, dependencies: map<Owner, nat>, rows: seq<JoinRow>,
                            runRows: seq<(Owner, nat)>, dict: map<Owner, Info>)
  {
    && dict.Keys == workers.Keys
    && (forall q :: q in runRows ==> q.0 in workers)
    && forall o :: o in dict ==> dict[o] == Info(workers[o], RunsOf(runRows, o), Listed(dependencies, rows, o))
  }

  lemma RunsKnown(workers: map<Owner, Row>, dependencies: map<Owner, nat>, rows: seq<JoinRow>,
                  runRows: seq<(Owner, nat)>, dict: map<Owner, Info>)
    requires RunsSoFar(workers, dependencies, rows, runRows, dict)
    ensures dict.Keys == workers.Keys && forall q :: q in runRows ==> q.0 in workers
    ensures forall o :: o in dict ==> dict[o] == Info(workers[o], RunsOf(runRows, o), Listed(dependencies, rows, o))
  {
  }

  lemma RunsNext(workers: map<Owner, Row>, dependencies: map<Owner, nat>, rows: seq<JoinRow>,
                 runRows: seq<(Owner, nat)>, dict: map<Owner, Info>, owner: Owner, run: nat)
    requires RunsSoFar(workers, dependencies, rows, runRows, dict) && owner in dict
    ensures RunsSoFar(workers, dependencies, rows, runRows + [(owner, run)],
                      dict[owner := dict[owner].(runs := dict[owner].runs + [run])])
  {
    hide Listed;
    var more := runRows + [(owner, run)];
    assert more[..|runRows|] == runRows;
    assert forall o :: RunsOf(more, o) == RunsOf(runRows, o) + if owner == o then [run] else [];
    assert forall q :: q in more <==> q in runRows || q == (owner, run);
  }

  class WorkerModel {
    var workers: map<Owner, Row>
    var dependencies: map<Owner, nat>
    var runs: set<(Owner, nat)>
    var sockets: map<nat, Owner>
    var files: set<nat>
    ghost var history: History

    /** Workers and their dependencies have the same keys, and the socket table is what its
        history makes it. */
    ghost predicate Valid()
      reads this
    {
      workers.Keys == dependencies.Keys && sockets == Replay(history) && Fresh(history)
    }

    constructor ()
      ensures Valid() && history == [] && workers == map[] && files == {} && runs == {}
    {
      workers, dependencies, runs, sockets, files, history := map[], map[], {}, map[], {}, [];
    }

    method AllocateSocket(actor: Actor, o: Owner) returns (id: nat)
      requires Valid()
      modifies this`sockets, this`history
      ensures Valid() && id !in old(sockets) && sockets == old(sockets)[id := o]
      ensures history == old(history) + [Allocate(actor, id, o)]
    {
      ghost var free := Outside(sockets.Keys);
      assert free !in sockets;
      id :| id !in sockets;
      AllocateKeepsFresh(history, Allocate(actor, id, o));
      sockets, history := sockets[id := o], history + [Allocate(actor, id, o)];
    }

    method DeallocateSocket(actor: Actor, id: nat)
      requires Valid()
      modifies this`sockets, this`history, this`files
      ensures Valid() && sockets == old(sockets) - {id} && files == old(files) - {id}
      ensures history == old(history) + [Release(actor, id)]
    {
      AllocateKeepsFresh(history, Release(actor, id));
      files := files - {id};
      sockets, history := sockets - {id}, history + [Release(actor, id)];
    }

    method StartListening(id: nat)
      modifies this`files
      ensures files == old(files) + {id}
    {
      files := files + {id};
    }

    /** Adds the worker or refreshes its row; a worker keeps its socket from one checkin to the next,
        and its group when the new group name is unknown. */
    method WorkerCheckin(o: Owner, group: Option<nat>, info: nat, dependencyBlob: nat) returns (socket: nat)
      requires Valid()
      modifies this`workers, this`dependencies, this`sockets, this`history
      ensures Valid()
      ensures dependencies == old(dependencies)[o := dependencyBlob]
      ensures workers == old(workers)[o := Row(socket, workers[o].group, info)]
      ensures workers[o].group ==
        if group.None? && o in old(workers) then old(workers)[o].group else group
      ensures o in old(workers) ==> socket == old(workers)[o].socket && history == old(history) && sockets == old(sockets)
      ensures o !in old(workers) ==>
        history == old(history) + [Allocate(Others, socket, o)] && Live(history, o, socket)
    {
      hide Fresh, Replay, Live;
      if o in workers {
        socket := workers[o].socket;
        var kept := if group.None? then workers[o].group else group;
        workers := workers[o := Row(socket, kept, info)];
      } else {
        socket := AllocateSocket(Others, o);
        workers := workers[o := Row(socket, group, info)];
        RowsAreLive(history, o, socket);
      }
      dependencies := dependencies[o := dependencyBlob];
    }

    /** Deletes the worker and all that hangs on it, and nothing of any other worker. */
    method WorkerCleanup(o: Owner)
      requires Valid()
      modifies this
      ensures Valid() && history == old(history) + [Cleanup(o)]
      ensures workers == old(workers) - {o} && dependencies == old(dependencies) - {o}
      ensures runs == set r | r in old(runs) && r.0 != o
      ensures sockets == Without(old(sockets), o)
      ensures files == set f | f in old(files) && !(f in old(sockets) && old(sockets)[f] == o)
      ensures forall id :: !Live(history, o, id)
    {
      AllocateKeepsFresh(history, Cleanup(o));
      files := set f | f in files && !(f in sockets && sockets[f] == o);
      sockets, history := Without(sockets, o), history + [Cleanup(o)];
      runs := set r | r in runs && r.0 != o;
      dependencies := dependencies - {o};
      workers := workers - {o};
      forall id
        ensures !Live(history, o, id)
      {
        RowsAreLive(history, o, id);
      }
    }

    /** All workers, with their runs and what the joined rows say of their dependencies; the
        database gives the rows in any order. A run of an unknown worker is an error. */
    method GetWorkers(joined: seq<JoinRow>, runRows: seq<(Owner, nat)>) returns (r: Result<map<Owner, Info>, Owner>)
      requires Lists(joined, Joined(workers, dependencies)) && Lists(runRows, runs)
      ensures r.Err? <==> exists q :: q in runs && q.0 !in workers
      ensures r.Err? ==> r.error !in workers
      ensures r.Ok? ==>
        && r.value.Keys == workers.Keys
        && forall o :: o in workers ==>
             r.value[o] == Info(workers[o], RunsOf(runRows, o), Listed(dependencies, joined, o))
    {
      hide JoinedSoFar, RunsSoFar, Joined;
      var dict: map<Owner, Info> := map[];
      NothingJoined(workers, dependencies);
      for i := 0 to |joined|
        invariant JoinedSoFar(workers, dependencies, joined[..i], dict)
      {
        var row := joined[i];
        assert row in Elems(joined);
        JoinedNext(workers, dependencies, joined[..i], dict, row);
        assert joined[..i + 1] == joined[..i] + [row];
        dict := dict[row.owner := Info(workers[row.owner], [], Brought(dependencies, row))];
      }
      assert joined[..|joined|] == joined;
      AllJoined(workers, dependencies, joined, dict);
      for i := 0 to |runRows|
        invariant RunsSoFar(workers, dependencies, joined, runRows[..i], dict)
      {
        var (owner, run) := runRows[i];
        assert runRows[i] in Elems(runRows);
        if owner !in dict {
          RunsKnown(workers, dependencies, joined, runRows[..i], dict);
          return Err(owner);
        }
        RunsNext(workers, dependencies, joined, runRows[..i], dict, owner, run);
        assert runRows[..i + 1] == runRows[..i] + [(owner, run)];
        dict := dict[owner := dict[owner].(runs := dict[owner].runs + [run])];
      }
      assert runRows[..|runRows|] == runRows;
      RunsKnown(workers, dependencies, joined, runRows, dict);
      assert forall q :: q in runs ==> q in Elems(runRows);
      r := Ok(dict);
    }

    /** A worker may reply exactly on the sockets that were allocated to it and are still live. */
    method HasReplyPermission(o: Owner, id: nat) returns (b: bool)
      requires Valid()
      ensures b <==> Live(history, o, id)
    {
      RowsAreLive(history, o, id);
      b := id in sockets && sockets[id] == o;
    }
  }

  lemma AllocateKeepsFresh(h: History, e: Event)
    requires Fresh(h) && (e.Allocate? ==> e.id !in Replay(h))
    ensures Fresh(h + [e]) && Replay(h + [e]) == After(Replay(h), e)
  {
    var h' := h + [e];
    ReplaySnoc(h, e);
    forall k | 0 <= k < |h'| && h'[k].Allocate?
      ensures h'[k].id !in Replay(h'[..k])
    {
      assert h'[..k] == h[..k];
      if k == |h| {
        assert h[..k] == h;
      }
    }
  }

  lemma JoinedSource(workers: map<Owner, Row>, dependencies: map<Owner, nat>, row: JoinRow)
    requires row in Joined(workers, dependencies) && row.owner in dependencies
    ensures row.source.Some? && row.source.value in dependencies && row.source.value.worker == row.owner.worker
  {
    assert SameWorker(dependencies, row.owner, row.owner);
  }

  /** Every worker has a row in the join of tables with the same keys, and only rows with the
      dependencies of some worker of its worker id. */
  lemma ListedFromJoin(workers: map<Owner, Row>, dependencies: map<Owner, nat>, rows: seq<JoinRow>, o: Owner)
    requires workers.Keys == dependencies.Keys && o in workers && Lists(rows, Joined(workers, dependencies))
    ensures exists p :: p in dependencies && p.worker == o.worker && Listed(dependencies, rows, o) == Some(dependencies[p])
  {
    LastRowFacts(rows, o);
    JoinedHas(workers, dependencies, o);
    assert forall r :: r in rows <==> r in Elems(rows);
    hide Joined;
    JoinedSource(workers, dependencies, LastRow(rows, o).value);
  }

  /** Of two workers with one worker id the one may be listed with the dependencies of the other:
      the database only has to give that joined row last. */
  lemma SharedIdMixesUp(workers: map<Owner, Row>, dependencies: map<Owner, nat>, o: Owner, p: Owner)
    returns (rows: seq<JoinRow>)
    requires o in workers && p in dependencies && p.worker == o.worker
    ensures Lists(rows, Joined(workers, dependencies)) && Listed(dependencies, rows, o) == Some(dependencies[p])
  {
    rows := ListedLast(Joined(workers, dependencies), JoinRow(o, Some(p)));
  }

  /** However the database orders its answer, a worker is listed with its own dependencies. */
  ghost predicate AlwaysOwn(workers: map<Owner, Row>, dependencies: map<Owner, nat>, o: Owner)
    requires o in dependencies
  {
    forall rows | Lists(rows, Joined(workers, dependencies)) :: Listed(dependencies, rows, o) == Some(dependencies[o])
  }

  /** A worker is sure to be listed with its own dependencies exactly when every worker with its
      worker id, of whichever user, has the same ones: the tables are joined on the worker id alone. */
  lemma ListedOwnExactly(workers: map<Owner, Row>, dependencies: map<Owner, nat>, o: Owner)
    requires workers.Keys == dependencies.Keys && o in workers
    ensures AlwaysOwn(workers, dependencies, o) <==>
      forall p | p in dependencies && p.worker == o.worker :: dependencies[p] == dependencies[o]
  {
    if AlwaysOwn(workers, dependencies, o) {
      forall p | p in dependencies && p.worker == o.worker
        ensures dependencies[p] == dependencies[o]
      {
        var rows := SharedIdMixesUp(workers, dependencies, o, p);
        assert Listed(dependencies, rows, o) == Some(dependencies[o]);
      }
    } else {
      var rows :| Lists(rows, Joined(workers, dependencies)) && Listed(dependencies, rows, o) != Some(dependencies[o]);
      ListedFromJoin(workers, dependencies, rows, o);
    }
  }

  /** Two users check in under one worker id with different dependencies: from whatever tables, the
      first may then be listed with the second's. */
  lemma TwoCheckinsMixUp(workers: map<Owner, Row>, dependencies: map<Owner, nat>, o: Owner, p: Owner,
                         first: Row, second: Row, own: nat, other: nat) returns (rows: seq<JoinRow>)
    requires o != p && o.worker == p.worker && own != other
    ensures var w, d := workers[o := first][p := second], dependencies[o := own][p := other];
      Lists(rows, Joined(w, d)) && d[o] == own && Listed(d, rows, o) == Some(other)
  {
    rows := SharedIdMixesUp(workers[o := first][p := second], dependencies[o := own][p := other], o, p);
  }
}
