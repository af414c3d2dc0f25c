/** The socket discipline of the download manager: every read that goes to a worker gives back the
    socket it was given, however it ends. What the database, the disks and the workers answer is
    left open, and other requests take steps of their own at every point where a read waits. */
module DownloadManager {
  import opened Common
  import opened WorkerSockets

  datatype Kind = NotFound | Usage | Path | Internal

  datatype Exn = Exn(kind: Kind, message: string)

  const BUNDLE_NO_LONGER_RUNNING_MESSAGE := "Bundle no longer running"

  predicate Stale<T>(r: Result<T, Exn>) {
    r.Err? && r.error.message == BUNDLE_NO_LONGER_RUNNING_MESSAGE
  }

  type Name = string
  type Path = p: seq<Name> | p != [] witness [""]

  datatype Target = Target(bundle: nat, path: Path)

  datatype Dependency = Dependency(child: Name, parent: nat, parentPath: seq<Name>)

  type Dependencies = nat -> seq<Dependency>

  // ---------------------------------------------------------------- paths that lead into a dependency

  /** The entry for a child path in a dictionary filled from the dependencies in order. */
  function Matching(deps: seq<Dependency>, child: Name): Option<Dependency> {
    if deps == [] then None
    else if deps[|deps| - 1].child == child then Some(deps[|deps| - 1])
    else Matching(deps[..|deps| - 1], child)
  }

  /** Where a path that is not in the bundle leads: the first name picks a dependency, the rest is
      looked up below the path the dependency points to. */
  function Forward(deps: Dependencies, t: Target): Option<Target> {
    match Matching(deps(t.bundle), t.path[0])
    case None => None
    case Some(d) =>
      var path := d.parentPath + t.path[1..];
      Some(Target(d.parent, if path == [] then [""] else path))
  }

  /** A dependency `key:bundle/subpath` forwards `key/rest` to `subpath/rest` in that bundle; of several
      with one key the last counts. */
  lemma ForwardsTo(deps: Dependencies, b: nat, key: Name, rest: seq<Name>, k: nat)
    requires k < |deps(b)| && deps(b)[k].child == key && forall j :: k < j < |deps(b)| ==> deps(b)[j].child != key
    ensures var d := deps(b)[k];
      Forward(deps, Target(b, [key] + rest)) ==
        Some(Target(d.parent, if d.parentPath == [] && rest == [] then [""] else d.parentPath + rest))
  {
    LastMatches(deps(b), key, k);
    assert ([key] + rest)[1..] == rest;
  }

  lemma {:induction false} LastMatches(deps: seq<Dependency>, key: Name, k: nat)
    requires k < |deps| && deps[k].child == key && forall j :: k < j < |deps| ==> deps[j].child != key
    ensures Matching(deps, key) == Some(deps[k])
  {
    var n := |deps| - 1;
    if k < n {
      assert deps[n].child != key;
      LastMatches(deps[..n], key, k);
    }
  }

  /** `s` is reached from `t` in some number of steps into dependencies. */
  ghost predicate Leads(deps: Dependencies, rank: nat -> nat, t: Target, s: Target)
    requires Ranked(deps, rank)
    decreases rank(t.bundle)
  {
    t == s || (Forward(deps, t).Some? &&
      (MatchingIsOne(deps(t.bundle), t.path[0]); Leads(deps, rank, Forward(deps, t).value, s)))
  }

  /** Bundles depend only on bundles of lower rank. */
  ghost predicate Ranked(deps: Dependencies, rank: nat -> nat) {
    forall b, d | d in deps(b) :: rank(d.parent) < rank(b)
  }

  lemma {:induction false} MatchingIsOne(deps: seq<Dependency>, child: Name)
    ensures Matching(deps, child).Some? ==> Matching(deps, child).value in deps && Matching(deps, child).value.child == child
    ensures Matching(deps, child).None? ==> forall d | d in deps :: d.child != child
  {
    if deps != [] && deps[|deps| - 1].child != child {
      var n := |deps| - 1;
      MatchingIsOne(deps[..n], child);
      assert deps == deps[..n] + [deps[n]];
    }
  }

  // ---------------------------------------------------------------- steps of a read

  /** The workers for which the read was given sockets, in turn. */
  function Asked(h: History): seq<Owner> {
    if h == [] then []
    else
      var e := h[|h| - 1];
      Asked(h[..|h| - 1]) + if e.Allocate? && e.actor == Me then [e.owner] else []
  }

  /** The history has grown, the read now holds just these sockets, it was given sockets for just these
      workers meanwhile, and it released only its own. */
  ghost predicate Grows(h: History, h': History, open: set<nat>, asked: seq<Owner>) {
    h <= h' && Open(h') == open && Asked(h') == Asked(h) + asked && (Disciplined(h) ==> Disciplined(h'))
  }

  /** The same for a read that holds nothing in the end, whomever it asked. */
  ghost predicate GrowsClosed(h: History, h': History) {
    h <= h' && Open(h') == {} && (Disciplined(h) ==> Disciplined(h'))
  }

  lemma OneStep(h: History, e: Event)
    requires e.Release? && e.actor == Me ==> e.id in Open(h)
    ensures Grows(h, h + [e],
      if e.Allocate? && e.actor == Me then Open(h) + {e.id}
      else if e.Release? && e.actor == Me then Open(h) - {e.id}
      else Open(h),
      if e.Allocate? && e.actor == Me then [e.owner] else [])
  {
    var h' := h + [e];
    assert h'[..|h|] == h;
    if Disciplined(h) {
      forall k | 0 <= k < |h'| && h'[k].Release? && h'[k].actor == Me
        ensures h'[k].id in Open(h'[..k])
      {
        assert h'[..k] == h[..k];
        if k == |h| {
          assert h[..k] == h;
        }
      }
    }
  }

  /** Others allocate, release and clean up as they like. */
  method Interfere(wm: WorkerModel)
    requires wm.Valid()
    modifies wm
    ensures wm.Valid() && Grows(old(wm.history), wm.history, old(Open(wm.history)), [])
  {
    var steps: nat :| true;
    for i := 0 to steps
      invariant wm.Valid() && Grows(old(wm.history), wm.history, old(Open(wm.history)), [])
    {
      ghost var h := wm.history;
      var o: Owner, id: nat, choice: nat :| true;
      if choice == 0 {
        id := wm.AllocateSocket(Others, o);
      } else if choice == 1 {
        wm.DeallocateSocket(Others, id);
      } else {
        wm.WorkerCleanup(o);
      }
      OneStep(h, wm.history[|h|]);
      assert wm.history == h + [wm.history[|h|]];
    }
  }

  /** What a read is told on its way: whether the file is available locally, the local file, the
      worker that runs the bundle, whether sending the message raised, and what the worker answered. */
  datatype Answers<T> = Answers(
    available: Result<bool, Exn>, file: Result<T, Exn>,
    worker: Result<Owner, Exn>, sent: Result<(), Exn>, reply: Result<T, Exn>)
  {
    /** What talking to the worker comes to. */
    function Remote(): Result<T, Exn> {
      if worker.Err? then Err(worker.error)
      else if sent.Err? then Err(sent.error)
      else reply
    }

    /** What a read comes to: the local file when there is one, else what the worker answers; the
        first failure on the way is passed on. */
    function Outcome(): Result<T, Exn> {
      if available.Err? then Err(available.error)
      else if available.value then file
      else Remote()
    }

    /** The worker that is asked: none when the file is there, or when nobody knows who runs the bundle. */
    function Worker(): seq<Owner> {
      if available.Ok? && !available.value && worker.Ok? then [worker.value] else []
    }

    /** Whether what was read came from the worker. */
    predicate FromWorker() {
      available.Ok? && !available.value && Remote().Ok?
    }
  }

  /** Waits for an answer, with others working meanwhile. */
  method Await<T>(wm: WorkerModel, answer: Result<T, Exn>) returns (r: Result<T, Exn>)
    requires wm.Valid()
    modifies wm
    ensures wm.Valid() && Grows(old(wm.history), wm.history, old(Open(wm.history)), [])
    ensures r == answer
  {
    Interfere(wm);
    r := answer;
  }

  /** Sends a message to the worker and listens for its answer on the socket, which must still be
      allocated. */
  method Converse<T>(wm: WorkerModel, id: nat, sent: Result<(), Exn>, reply: Result<T, Exn>) returns (r: Result<T, Exn>)
    requires wm.Valid() && Open(wm.history) == {id}
    modifies wm
    ensures wm.Valid() && Grows(old(wm.history), wm.history, old(Open(wm.history)), [])
    ensures r == if sent.Err? then Err(sent.error) else reply
  {
    var s := Await(wm, sent);
    if s.Err? {
      return Err(s.error);
    }
    wm.StartListening(id);
    r := Await(wm, reply);
  }

  /** A socket for a read that holds none. */
  method Allocate(wm: WorkerModel, o: Owner) returns (id: nat)
    requires wm.Valid() && Open(wm.history) == {}
    modifies wm
    ensures wm.Valid() && Grows(old(wm.history), wm.history, {id}, [o])
  {
    ghost var h := wm.history;
    id := wm.AllocateSocket(Me, o);
    OneStep(h, WorkerSockets.Event.Allocate(Me, id, o));
  }

  /** Gives the socket back. */
  method Deallocate(wm: WorkerModel, id: nat)
    requires wm.Valid() && Open(wm.history) == {id}
    modifies wm
    ensures wm.Valid() && Grows(old(wm.history), wm.history, {}, [])
  {
    ghost var h := wm.history;
    wm.DeallocateSocket(Me, id);
    OneStep(h, Release(Me, id));
  }

  /** The reply of the worker, or the first failure on the way to it. */
  ghost predicate Passes<T>(a: Answers<T>, r: Result<T, Exn>) {
    && (a.worker.Err? ==> r == Err(a.worker.error))
    && (a.worker.Ok? && a.sent.Err? ==> r == Err(a.sent.error))
    && (a.worker.Ok? && a.sent.Ok? ==> r == a.reply)
  }

  /** Asks the worker, and gives the socket back however it ends. */
  method Exchange<T>(wm: WorkerModel, a: Answers<T>) returns (r: Result<T, Exn>)
    requires wm.Valid() && Open(wm.history) == {}
    modifies wm
    ensures wm.Valid() && Grows(old(wm.history), wm.history, {}, if a.worker.Ok? then [a.worker.value] else [])
    ensures r == a.Remote() && Passes(a, r)
  {
    var worker := Await(wm, a.worker);
    if worker.Err? {
      return Err(worker.error);
    }
    var id := Allocate(wm, worker.value);
    r := Converse(wm, id, a.sent, a.reply);
    Deallocate(wm, id);
  }

  // ---------------------------------------------------------------- the reads

  datatype BundleState = Preparing | Running | Other

  datatype Stream = Local | Deallocating(socket: nat)

  /** The sockets the caller of a stream still has to give back, by closing it. */
  function Held(r: Result<Stream, Exn>): set<nat> {
    if r.Ok? && r.value.Deallocating? then {r.value.socket} else {}
  }

  /** The outcome that counts: the second one when the first is that the bundle had just stopped
      running, else the first. */
  function Retried<T>(first: Result<T, Exn>, second: Result<T, Exn>): Result<T, Exn> {
    if Stale(first) then second else first
  }

  /** The message with which a worker says that the bundle has just stopped. */
  ghost predicate StoppedRunning<T>(r: Result<T, Exn>) {
    r.Err? && r.error.message == "Bundle no longer running"
  }

  /** Closes a stream. A failure to close the file keeps the socket allocated. */
  method Close(wm: WorkerModel, s: Stream, closed: Result<(), Exn>) returns (r: Result<(), Exn>)
    requires wm.Valid() && Open(wm.history) == Held(Ok(s))
    modifies wm
    ensures wm.Valid() && Grows(old(wm.history), wm.history, if closed.Ok? then {} else Held(Ok(s)), [])
    ensures r == closed
  {
    r := Await(wm, closed);
    if r.Ok? && s.Deallocating? {
      Deallocate(wm, s.socket);
    }
  }

  /** The stream stands for what `outcome` says, and is tied to a socket iff it came from a worker. */
  ghost predicate StreamOf(r: Result<Stream, Exn>, outcome: Result<(), Exn>, remote: bool) {
    && (r.Ok? <==> outcome.Ok?)
    && (r.Err? ==> r.error == outcome.error)
    && (r.Ok? ==> (r.value.Deallocating? <==> remote))
  }

  /** What a read comes to, whom it asks, and what a stream still holds. */
  lemma ReadsComeTo<T>(a: Answers<T>, r: Result<Stream, Exn>)
    ensures a.available.Err? ==> a.Outcome() == Err(a.available.error)
    ensures a.available == Ok(true) ==> a.Outcome() == a.file
    ensures a.available == Ok(false) ==> Passes(a, a.Outcome())
    ensures a.FromWorker() <==> a.available == Ok(false) && a.worker.Ok? && a.sent.Ok? && a.reply.Ok?
    ensures a.Worker() == if a.available == Ok(false) && a.worker.Ok? then [a.worker.value] else []
    ensures forall id :: id in Held(r) <==> r == Ok(Deallocating(id))
  {
  }

  /** One try of `stream_file` or `stream_tarred_gzipped_directory`. */
  method StreamOnce(wm: WorkerModel, a: Answers<()>) returns (r: Result<Stream, Exn>)
    requires wm.Valid() && Open(wm.history) == {}
    modifies wm
    ensures wm.Valid() && Grows(old(wm.history), wm.history, Held(r), a.Worker())
    ensures StreamOf(r, a.Outcome(), a.FromWorker())
    ensures a.available == Ok(true) ==> (if a.file.Ok? then r == Ok(Local) else r == Err(a.file.error))
    ensures a.available == Ok(false) && a.worker.Ok? && a.sent.Ok? ==>
      if a.reply.Ok? then r.Ok? && r.value.Deallocating? else r == Err(a.reply.error)
  {
    var available := Await(wm, a.available);
    if available.Err? {
      return Err(available.error);
    }
    if available.value {
      var file := Await(wm, a.file);
      return if file.Err? then Err(file.error) else Ok(Local);
    }
    var worker := Await(wm, a.worker);
    if worker.Err? {
      return Err(worker.error);
    }
    var id := Allocate(wm, worker.value);
    var file := Converse(wm, id, a.sent, a.reply);
    if file.Err? {
      Deallocate(wm, id);
      return Err(file.error);
    }
    r := Ok(Deallocating(id));
  }

  /** With the retry: the second try gets answers of its own. */
  method StreamFile(wm: WorkerModel, a: Answers<()>, b: Answers<()>) returns (r: Result<Stream, Exn>)
    requires wm.Valid() && Open(wm.history) == {}
    modifies wm
    ensures wm.Valid()
    ensures Grows(old(wm.history), wm.history, Held(r), a.Worker() + if StoppedRunning(a.Outcome()) then b.Worker() else [])
    ensures StreamOf(r, Retried(a.Outcome(), b.Outcome()), if StoppedRunning(a.Outcome()) then b.FromWorker() else a.FromWorker())
  {
    r := StreamOnce(wm, a);
    if Stale(r) {
      r := StreamOnce(wm, b);
    }
  }

  /** What is handed to the caller: data from a worker is unzipped unless zipped data is wanted. */
  function Unzipped(a: Answers<string>, gzipped: bool, unzip: string -> Result<string, Exn>): Result<string, Exn> {
    if a.FromWorker() && !gzipped then unzip(a.reply.value) else a.Outcome()
  }

  /** One try of `read_file_section` or `summarize_file`. */
  method ReadOnce(wm: WorkerModel, gzipped: bool, unzip: string -> Result<string, Exn>, a: Answers<string>)
    returns (r: Result<string, Exn>)
    requires wm.Valid() && Open(wm.history) == {}
    modifies wm
    ensures wm.Valid() && Grows(old(wm.history), wm.history, {}, a.Worker())
    ensures r == Unzipped(a, gzipped, unzip)
    ensures a.available == Ok(true) ==> r == a.file
    ensures a.available == Ok(false) && a.worker.Ok? && a.sent.Ok? && a.reply.Ok? ==>
      r == if gzipped then a.reply else unzip(a.reply.value)
  {
    var available := Await(wm, a.available);
    if available.Err? {
      return Err(available.error);
    }
    if available.value {
      r := Await(wm, a.file);
      return;
    }
    r := Exchange(wm, a);
    if r.Ok? && !gzipped {
      r := unzip(r.value);
    }
  }

  method ReadFileSection(wm: WorkerModel, gzipped: bool, unzip: string -> Result<string, Exn>,
                         a: Answers<string>, b: Answers<string>)
    returns (r: Result<string, Exn>)
    requires wm.Valid() && Open(wm.history) == {}
    modifies wm
    ensures wm.Valid()
    ensures var first := Unzipped(a, gzipped, unzip);
      && Grows(old(wm.history), wm.history, {}, a.Worker() + if StoppedRunning(first) then b.Worker() else [])
      && r == if StoppedRunning(first) then Unzipped(b, gzipped, unzip) else first
  {
    r := ReadOnce(wm, gzipped, unzip, a);
    if Stale(r) {
      r := ReadOnce(wm, gzipped, unzip, b);
    }
  }

  /** Not retried, and always asks the worker. */
  method Netcat(wm: WorkerModel, a: Answers<string>) returns (r: Result<string, Exn>)
    requires wm.Valid() && Open(wm.history) == {}
    modifies wm
    ensures wm.Valid() && Grows(old(wm.history), wm.history, {}, if a.worker.Ok? then [a.worker.value] else [])
    ensures r == a.Remote() && Passes(a, r)
  {
    r := Exchange(wm, a);
  }

  /** The information a bundle itself gives on a path: none before it runs, the worker's while it
      runs, the disk's after; a path error of the disk is a path that is not found. */
  function Within(state: Result<BundleState, Exn>, a: Answers<nat>): Result<nat, Exn> {
    if state.Err? then Err(state.error)
    else match state.value
      case Preparing => Err(Exn(NotFound, "not started"))
      case Running => a.Remote()
      case Other =>
        if a.file.Err? && a.file.error.kind == Kind.Path then Err(Exn(NotFound, a.file.error.message)) else a.file
  }

  method TargetInfoWithinBundle(wm: WorkerModel, state0: Result<BundleState, Exn>, a: Answers<nat>)
    returns (r: Result<nat, Exn>)
    requires wm.Valid() && Open(wm.history) == {}
    modifies wm
    ensures wm.Valid()
    ensures Grows(old(wm.history), wm.history, {}, if state0 == Ok(Running) && a.worker.Ok? then [a.worker.value] else [])
    ensures r == Within(state0, a)
    ensures state0.Err? ==> r == Err(state0.error)
    ensures state0 == Ok(Preparing) ==> r.Err? && r.error.kind == NotFound
    ensures state0 == Ok(Running) ==> Passes(a, r)
    ensures state0 == Ok(Other) ==>
      if a.file.Err? && a.file.error.kind == Kind.Path then r == Err(Exn(NotFound, a.file.error.message)) else r == a.file
  {
    var state := Await(wm, state0);
    if state.Err? {
      return Err(state.error);
    }
    match state.value
    case Preparing =>
      r := Err(Exn(NotFound, "not started"));
    case Other =>
      r := Await(wm, a.file);
      if r.Err? && r.error.kind == Kind.Path {
        r := Err(Exn(NotFound, r.error.message));
      }
    case Running =>
      r := Exchange(wm, a);
  }

  /** Everything a bundle can be told when it is asked about a path, by the attempts made so far. */
  type Oracle = (Target, seq<nat>) -> (Result<BundleState, Exn>, Answers<nat>)

  /** The information on a path, with a retry at every bundle on the way. An attempt that does not
      find the path is carried on in the dependency the path leads into. */
  ghost function Info(o: Oracle, deps: Dependencies, rank: nat -> nat, t: Target, tries: seq<nat>): Result<nat, Exn>
    requires Ranked(deps, rank)
    decreases rank(t.bundle), 1
  {
    Retried(InfoOnce(o, deps, rank, t, tries + [0]), InfoOnce(o, deps, rank, t, tries + [1]))
  }

  ghost function InfoOnce(o: Oracle, deps: Dependencies, rank: nat -> nat, t: Target, tries: seq<nat>): Result<nat, Exn>
    requires Ranked(deps, rank)
    decreases rank(t.bundle), 0
  {
    var r := Within(o(t, tries).0, o(t, tries).1);
    if r.Ok? then r
    else if r.error.kind != NotFound then Err(Exn(NotFound, r.error.message))
    else if Forward(deps, t).None? then r
    else
      MatchingIsOne(deps(t.bundle), t.path[0]);
      Info(o, deps, rank, Forward(deps, t).value, tries)
  }

  /** Every failure is a path that is not found, and information is that of some bundle the path
      leads to, as that bundle itself gave it. */
  lemma {:induction false} InfoIsFound(o: Oracle, deps: Dependencies, rank: nat -> nat, t: Target, tries: seq<nat>)
    returns (s: Target, at: seq<nat>)
    requires Ranked(deps, rank)
    ensures var r := Info(o, deps, rank, t, tries);
      && (r.Err? ==> r.error.kind == NotFound)
      && (r.Ok? ==> Leads(deps, rank, t, s) && tries <= at && r == Within(o(s, at).0, o(s, at).1))
    decreases rank(t.bundle), 1
  {
    s, at := InfoOnceIsFound(o, deps, rank, t, tries + [0]);
    if Stale(InfoOnce(o, deps, rank, t, tries + [0])) {
      s, at := InfoOnceIsFound(o, deps, rank, t, tries + [1]);
    }
  }

  lemma {:induction false} InfoOnceIsFound(o: Oracle, deps: Dependencies, rank: nat -> nat, t: Target, tries: seq<nat>)
    returns (s: Target, at: seq<nat>)
    requires Ranked(deps, rank)
    ensures var r := InfoOnce(o, deps, rank, t, tries);
      && (r.Err? ==> r.error.kind == NotFound)
      && (r.Ok? ==> Leads(deps, rank, t, s) && tries <= at && r == Within(o(s, at).0, o(s, at).1))
    decreases rank(t.bundle), 0
  {
    s, at := t, tries;
    var r := Within(o(t, tries).0, o(t, tries).1);
    if r.Err? && r.error.kind == NotFound && Forward(deps, t).Some? {
      MatchingIsOne(deps(t.bundle), t.path[0]);
      s, at := InfoIsFound(o, deps, rank, Forward(deps, t).value, tries);
    }
  }

  /** What a bundle says of a path on an attempt. */
  function Told(o: Oracle, t: Target, tries: seq<nat>): Result<nat, Exn> {
    Within(o(t, tries).0, o(t, tries).1)
  }

  /** The attempts so far when `n` bundles have been asked, each for the first time. */
  function FirstTries(tries: seq<nat>, n: nat): seq<nat> {
    tries + seq(n, i => 0)
  }

  /** The bundles a path leads through, each the dependency of the one before, none of which has the path
      but perhaps the last. */
  ghost predicate LeadsThrough(o: Oracle, deps: Dependencies, way: seq<Target>, tries: seq<nat>) {
    && way != []
    && (forall i | 0 <= i < |way| :: !StoppedRunning(Told(o, way[i], FirstTries(tries, i + 1))))
    && (forall i | 0 <= i < |way| - 1 ::
          && Told(o, way[i], FirstTries(tries, i + 1)).Err?
          && Told(o, way[i], FirstTries(tries, i + 1)).error.kind == NotFound
          && Forward(deps, way[i]) == Some(way[i + 1]))
  }

  lemma WayOn(o: Oracle, deps: Dependencies, way: seq<Target>, tries: seq<nat>)
    requires LeadsThrough(o, deps, way, tries) && |way| > 1
    ensures LeadsThrough(o, deps, way[1..], tries + [0])
    ensures FirstTries(tries + [0], |way| - 1) == FirstTries(tries, |way|)
  {
    hide Told, Forward;
    var rest := way[1..];
    assert forall i | 0 <= i < |rest| :: rest[i] == way[i + 1];
    forall i | 0 <= i < |way|
      ensures FirstTries(tries + [0], i) == FirstTries(tries, i + 1)
    {
    }
    forall i | 0 <= i < |rest|
      ensures Told(o, rest[i], FirstTries(tries + [0], i + 1)) == Told(o, way[i + 1], FirstTries(tries, i + 2))
    {
      assert FirstTries(tries + [0], i + 1) == FirstTries(tries, i + 2);
    }
  }

  /** When nobody has just stopped running, the answer is that of the first bundle on the way that has the
      path, fails otherwise, or leads no further. */
  lemma {:induction false} InfoOfFirst(o: Oracle, deps: Dependencies, rank: nat -> nat, way: seq<Target>, tries: seq<nat>)
    requires Ranked(deps, rank) && LeadsThrough(o, deps, way, tries)
    requires var r := Told(o, way[|way| - 1], FirstTries(tries, |way|));
      r.Err? && r.error.kind == NotFound ==> Forward(deps, way[|way| - 1]).None?
    ensures var r := Told(o, way[|way| - 1], FirstTries(tries, |way|));
      Info(o, deps, rank, way[0], tries) == if r.Ok? then r else Err(Exn(NotFound, r.error.message))
    decreases |way|
  {
    hide Within;
    assert FirstTries(tries, 1) == tries + [0];
    if |way| > 1 {
      WayOn(o, deps, way, tries);
      InfoOfFirst(o, deps, rank, way[1..], tries + [0]);
    }
  }

  /** A bundle that had just stopped running is asked once more, and the second answer stands. */
  lemma RetryMade(o: Oracle, deps: Dependencies, rank: nat -> nat, t: Target, tries: seq<nat>)
    requires Ranked(deps, rank) && Told(o, t, tries + [0]).Err? && Told(o, t, tries + [0]).error.kind != NotFound
    requires Told(o, t, tries + [1]).Ok?
    ensures Info(o, deps, rank, t, tries) ==
      if StoppedRunning(Told(o, t, tries + [0])) then Told(o, t, tries + [1])
      else Err(Exn(NotFound, Told(o, t, tries + [0]).error.message))
  {
  }

  /** One try of `get_target_info`. */
  method TargetInfoOnce(wm: WorkerModel, o: Oracle, deps: Dependencies, ghost rank: nat -> nat, t: Target, tries: seq<nat>)
    returns (r: Result<nat, Exn>)
    requires wm.Valid() && Open(wm.history) == {} && Ranked(deps, rank)
    modifies wm
    ensures wm.Valid() && GrowsClosed(old(wm.history), wm.history)
    ensures r == InfoOnce(o, deps, rank, t, tries)
    decreases rank(t.bundle), 0
  {
    r := TargetInfoWithinBundle(wm, o(t, tries).0, o(t, tries).1);
    if r.Err? {
      if r.error.kind == NotFound {
        MatchingIsOne(deps(t.bundle), t.path[0]);
        match Forward(deps, t)
        case Some(next) =>
          r := GetTargetInfo(wm, o, deps, rank, next, tries);
        case None =>
      } else {
        r := Err(Exn(NotFound, r.error.message));
      }
    }
  }

  method GetTargetInfo(wm: WorkerModel, o: Oracle, deps: Dependencies, ghost rank: nat -> nat, t: Target, tries: seq<nat>)
    returns (r: Result<nat, Exn>)
    requires wm.Valid() && Open(wm.history) == {} && Ranked(deps, rank)
    modifies wm
    ensures wm.Valid() && GrowsClosed(old(wm.history), wm.history)
    ensures r == Info(o, deps, rank, t, tries)
    decreases rank(t.bundle), 1
  {
    r := TargetInfoOnce(wm, o, deps, rank, t, tries + [0]);
    if Stale(r) {
      r := TargetInfoOnce(wm, o, deps, rank, t, tries + [1]);
    }
  }

  // ---------------------------------------------------------------- what a read leaves behind

  /** A read that has given everything back leaves the table as the others made it; with nobody
      else at work, as it was before. */
  lemma ReadLeavesNoTrace(h: History, h': History)
    requires Open(h) == {} && GrowsClosed(h, h')
    requires Disciplined(h) && Fresh(h') && Exclusive(h')
    ensures Replay(h') == Replay(OthersOnly(h'))
    ensures (forall k | |h| <= k < |h'| :: !h'[k].Cleanup? && h'[k].actor == Me) ==> Replay(h') == Replay(h)
  {
    LeavesNoTrace(h');
    assert h'[..|h|] == h;
    if forall k | |h| <= k < |h'| :: !h'[k].Cleanup? && h'[k].actor == Me {
      FreshPrefix(h', |h|);
      RulesPrefix(h', |h|);
      LeavesNoTrace(h);
      OnlyMine(h', |h|);
    }
  }

  lemma {:induction false} OnlyMine(h: History, n: nat)
    requires n <= |h| && forall k | n <= k < |h| :: !h[k].Cleanup? && h[k].actor == Me
    ensures OthersOnly(h) == OthersOnly(h[..n])
  {
    if n == |h| {
      assert h[..n] == h;
    } else {
      var m := |h| - 1;
      OnlyMine(h[..m], n);
      assert h[..m][..n] == h[..n];
    }
  }
}
