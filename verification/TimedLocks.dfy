/** The websocket server's timed locks: one lock a worker connection, taken by the handlers that
    send to the worker and released by them or, when a message from the worker finds it held
    too long, by the failsafe. Handlers interleave at every await. */
module TimedLocks {
  import opened Common

  datatype Lock = Lock(locked: bool, since: real, timeout: real) {

    predicate Late(now: real) {
      now - since > timeout
    }
  }

  const TIMEOUT: real := 60.0

  /** A lock that a failsafe may release after its timeout. */
  class TimedLock {
    var locked: bool
    var since: real
    const timeout: real

    function View(): Lock
      reads this
    {
      Lock(locked, since, timeout)
    }

    constructor (timeout: real)
      ensures View() == Lock(false, 0.0, timeout)
    {
      this.locked, this.since, this.timeout := false, 0.0, timeout;
    }

    /** Take the lock without waiting. */
    method Acquire(now: real) returns (acquired: bool)
      modifies this
      ensures acquired == !old(locked)
      ensures View() == if acquired then Lock(true, now, timeout) else old(View())
    {
      acquired := !locked;
      if acquired {
        locked, since := true, now;
      }
    }

    /** Releasing a lock that is free is an error. */
    method Release() returns (ok: bool)
      modifies this
      ensures ok == old(locked) && View() == old(View()).(locked := false)
    {
      ok := locked;
      locked := false;
    }

    method ReleaseIfTimeout(now: real)
      modifies this
      ensures View() == Failsafe(old(View()), now)
      ensures locked <==> old(locked) && now <= old(since) + timeout
    {
      if locked && now - since > timeout {
        var _ := Release();
      }
    }
  }

  function Failsafe(lock: Lock, now: real): Lock {
    if lock.locked && lock.Late(now) then lock.(locked := false) else lock
  }

  // ---------------------------------------------------------------- the protocol

  datatype Key = Key(worker: string, socket: string)

  type Conn = nat
  type LockId = nat
  type Handler = nat
  type Data = string

  /** How far a handler that holds a lock has come; each phase ends at an await. */
  datatype Phase = Waiting | Received(data: Data) | Forwarded(data: Data) | Acknowledged

  datatype Holder = Holder(key: Key, conn: Conn, lock: LockId, phase: Phase)

  datatype Event = Got(h: Handler, data: Data) | Sent(h: Handler, conn: Conn, data: Data) | Ack(h: Handler)

  /** `keyOf` remembers under which key each connection was registered; `seen` the handlers that
      ever took a lock. */
  datatype State = State(
    ws: map<Key, Conn>,
    lockOf: map<Key, LockId>,
    locks: map<LockId, Lock>,
    holders: map<Handler, Holder>,
    keyOf: map<Conn, Key>,
    seen: set<Handler>,
    trace: seq<Event>)

  const EMPTY: State := State(map[], map[], map[], map[], map[], {}, [])

  datatype Step =
    | Connect(key: Key, conn: Conn, lock: LockId)
    | Disconnect(key: Key)
    | WorkerMessage(key: Key, now: real)
    | Acquire(h: Handler, key: Key, now: real)
    | Receive(h: Handler, data: Data)
    | Forward(h: Handler)
    | SendAck(h: Handler)
    | Release(h: Handler)
    | Crash(h: Handler)

  predicate Enabled(s: State, step: Step) {
    match step
    case Connect(_, conn, lock) => conn !in s.keyOf && lock !in s.locks
    case Disconnect(_) => true
    case WorkerMessage(_, _) => true
    case Acquire(h, key, _) =>
      && h !in s.seen && key in s.ws && key in s.lockOf && s.lockOf[key] in s.locks && !s.locks[s.lockOf[key]].locked
    case Receive(h, _) => h in s.holders && s.holders[h].phase.Waiting?
    case Forward(h) => h in s.holders && s.holders[h].phase.Received?
    case SendAck(h) => h in s.holders && s.holders[h].phase.Forwarded?
    case Release(h) => h in s.holders && s.holders[h].phase.Acknowledged?
    case Crash(h) => h in s.holders
  }

  function Unlock(s: State, key: Key): map<LockId, Lock> {
    if key in s.lockOf && s.lockOf[key] in s.locks then s.locks[s.lockOf[key] := s.locks[s.lockOf[key]].(locked := false)]
    else s.locks
  }

  function Moved(s: State, h: Handler, phase: Phase, e: Event): State
    requires h in s.holders
  {
    s.(holders := s.holders[h := s.holders[h].(phase := phase)], trace := s.trace + [e])
  }

  /** One atomic segment between two awaits. A handler looks its lock up again by key when it
      releases; a crash leaves the lock as it is. */
  function Next(s: State, step: Step): State
    requires Enabled(s, step)
  {
    match step
    case Connect(key, conn, lock) =>
      s.(ws := s.ws[key := conn], lockOf := s.lockOf[key := lock], locks := s.locks[lock := Lock(false, 0.0, TIMEOUT)],
         keyOf := s.keyOf[conn := key])
    case Disconnect(key) => s.(ws := s.ws - {key}, lockOf := s.lockOf - {key})
    case WorkerMessage(key, now) =>
      if key in s.lockOf && s.lockOf[key] in s.locks then
        s.(locks := s.locks[s.lockOf[key] := Failsafe(s.locks[s.lockOf[key]], now)])
      else s
    case Acquire(h, key, now) =>
      var id := s.lockOf[key];
      s.(locks := s.locks[id := Lock(true, now, s.locks[id].timeout)],
         holders := s.holders[h := Holder(key, s.ws[key], id, Waiting)], seen := s.seen + {h})
    case Receive(h, data) => Moved(s, h, Received(data), Got(h, data))
    case Forward(h) => Moved(s, h, Forwarded(s.holders[h].phase.data), Sent(h, s.holders[h].conn, s.holders[h].phase.data))
    case SendAck(h) => Moved(s, h, Acknowledged, Ack(h))
    case Release(h) => s.(locks := Unlock(s, s.holders[h].key), holders := s.holders - {h})
    case Crash(h) => s.(holders := s.holders - {h})
  }

  /** `steps` lead through the states `run`. */
  ghost predicate Leads(run: seq<State>, steps: seq<Step>) {
    && |run| == |steps| + 1
    && forall i :: 0 <= i < |steps| ==> Enabled(run[i], steps[i]) && run[i + 1] == Next(run[i], steps[i])
  }

  ghost predicate IsRun(run: seq<State>, steps: seq<Step>) {
    Leads(run, steps) && run[0] == EMPTY
  }

  // ---------------------------------------------------------------- exclusion

  /** No two live handlers are between acquire and release on one connection. */
  ghost predicate Exclusive(s: State) {
    forall g, h :: g in s.holders && h in s.holders && g != h ==> s.holders[g].conn != s.holders[h].conn
  }

  /** The tables agree, and each live handler of a registered key holds that key's lock. */
  ghost predicate Tables(s: State) {
    && s.ws.Keys == s.lockOf.Keys
    && (forall k :: k in s.lockOf ==> s.lockOf[k] in s.locks)
    && (forall j, k :: j in s.lockOf && k in s.lockOf && j != k ==> s.lockOf[j] != s.lockOf[k])
    && (forall k :: k in s.ws ==> s.ws[k] in s.keyOf && s.keyOf[s.ws[k]] == k)
    && s.holders.Keys <= s.seen
    && (forall h :: h in s.holders ==> s.holders[h].conn in s.keyOf && s.keyOf[s.holders[h].conn] == s.holders[h].key)
  }

  ghost predicate Held(s: State, holder: Holder) {
    holder.key in s.lockOf ==>
      && s.lockOf[holder.key] == holder.lock && holder.lock in s.locks && s.locks[holder.lock].locked
      && holder.key in s.ws && s.ws[holder.key] == holder.conn
  }

  ghost predicate Inv(s: State) {
    && Tables(s)
    && (forall h :: h in s.holders ==> Held(s, s.holders[h]))
    && (forall g, h :: g in s.holders && h in s.holders && g != h ==> s.holders[g].key != s.holders[h].key)
  }

  /** The two things a step must not do: let the failsafe free the lock of a live handler, or
      register a socket id again while a handler is sending on it. */
  ghost predicate Orderly(s: State, step: Step) {
    match step
    case WorkerMessage(key, now) =>
      forall h :: h in s.holders && s.holders[h].key == key && key in s.lockOf && s.lockOf[key] in s.locks ==>
        !s.locks[s.lockOf[key]].Late(now)
    case Connect(key, _, _) => forall h :: h in s.holders ==> s.holders[h].key != key
    case _ => true
  }

  lemma InvExcludes(s: State)
    requires Inv(s)
    ensures Exclusive(s)
  {
  }

  lemma ConnectKeeps(s: State, step: Step)
    requires Tables(s) && Enabled(s, step) && step.Connect?
    ensures Tables(Next(s, step))
  {
  }

  lemma DisconnectKeeps(s: State, step: Step)
    requires Tables(s) && Enabled(s, step) && step.Disconnect?
    ensures Tables(Next(s, step))
  {
  }

  lemma AcquireKeeps(s: State, step: Step)
    requires Tables(s) && Enabled(s, step) && step.Acquire?
    ensures Tables(Next(s, step))
  {
  }

  /** No entry and no handler is new, and handlers stay on their keys and connections. */
  ghost predicate Within(s: State, t: State) {
    && t.ws == s.ws && t.lockOf == s.lockOf && t.locks.Keys == s.locks.Keys && t.keyOf == s.keyOf && t.seen == s.seen
    && forall h :: h in t.holders ==>
         h in s.holders && t.holders[h].conn == s.holders[h].conn && t.holders[h].key == s.holders[h].key
  }

  lemma WithinKeeps(s: State, t: State)
    requires Tables(s) && Within(s, t)
    ensures Tables(t)
  {
    assert t.holders.Keys <= s.holders.Keys;
    forall k | k in t.lockOf
      ensures t.lockOf[k] in t.locks
    {
      assert t.lockOf[k] in s.locks.Keys;
    }
  }

  lemma MovedWithin(s: State, h: Handler, phase: Phase, e: Event)
    requires h in s.holders
    ensures Within(s, Moved(s, h, phase, e))
  {
  }

  /** The other steps free locks, move handlers on, or end them. */
  lemma StepsWithin(s: State, step: Step)
    requires Enabled(s, step) && !step.Connect? && !step.Disconnect? && !step.Acquire?
    ensures Within(s, Next(s, step))
  {
    if step.Receive? {
      MovedWithin(s, step.h, Received(step.data), Got(step.h, step.data));
    } else if step.Forward? {
      var data := s.holders[step.h].phase.data;
      MovedWithin(s, step.h, Forwarded(data), Sent(step.h, s.holders[step.h].conn, data));
    } else if step.SendAck? {
      MovedWithin(s, step.h, Acknowledged, Ack(step.h));
    }
    hide Moved;
  }

  lemma TablesKept(s: State, step: Step)
    requires Tables(s) && Enabled(s, step)
    ensures Tables(Next(s, step))
  {
    hide Tables, Next, Enabled, Within;
    if step.Connect? {
      ConnectKeeps(s, step);
    } else if step.Disconnect? {
      DisconnectKeeps(s, step);
    } else if step.Acquire? {
      AcquireKeeps(s, step);
    } else {
      StepsWithin(s, step);
      WithinKeeps(s, Next(s, step));
    }
  }

  lemma DisorderBreaks(s: State, step: Step)
    requires Inv(s) && Enabled(s, step) && !Orderly(s, step)
    ensures !Inv(Next(s, step))
  {
    var t := Next(s, step);
    match step
    case WorkerMessage(key, now) =>
      var h :| h in s.holders && s.holders[h].key == key && s.locks[s.lockOf[key]].Late(now);
      assert !Held(t, t.holders[h]);
    case Connect(key, conn, lock) =>
      var h :| h in s.holders && s.holders[h].key == key;
      assert !Held(t, t.holders[h]) by {
        assert t.lockOf[key] == lock && !t.locks[lock].locked;
      }
  }

  lemma OrderKeeps(s: State, step: Step, h: Handler)
    requires Inv(s) && Enabled(s, step) && Orderly(s, step) && h in Next(s, step).holders
    ensures Held(Next(s, step), Next(s, step).holders[h])
  {
    if h in s.holders {
      assert Held(s, s.holders[h]);
    }
  }

  lemma KeysStayApart(s: State, step: Step, g: Handler, h: Handler)
    requires Inv(s) && Enabled(s, step) && g in Next(s, step).holders && h in Next(s, step).holders && g != h
    ensures Next(s, step).holders[g].key != Next(s, step).holders[h].key
  {
    assert g in s.holders ==> Held(s, s.holders[g]);
    assert h in s.holders ==> Held(s, s.holders[h]);
  }

  /** The invariant survives a step exactly when the step is orderly. */
  lemma InvKept(s: State, step: Step)
    requires Inv(s) && Enabled(s, step)
    ensures Inv(Next(s, step)) <==> Orderly(s, step)
  {
    hide Tables, Held, Orderly, Next, Enabled;
    TablesKept(s, step);
    var t := Next(s, step);
    if !Orderly(s, step) {
      DisorderBreaks(s, step);
    } else {
      forall h | h in t.holders
        ensures Held(t, t.holders[h])
      {
        OrderKeeps(s, step, h);
      }
      forall g, h | g in t.holders && h in t.holders && g != h
        ensures t.holders[g].key != t.holders[h].key
      {
        KeysStayApart(s, step, g, h);
      }
    }
  }

  /** At most one live handler is between acquire and release on each connection, in every
      interleaving whose steps are orderly. */
  lemma {:induction false} ExclusionOverRuns(run: seq<State>, steps: seq<Step>, n: nat)
    requires IsRun(run, steps) && n <= |steps|
    requires forall i :: 0 <= i < n ==> Orderly(run[i], steps[i])
    ensures Inv(run[n]) && Exclusive(run[n])
  {
    hide Inv, Orderly, Next, Enabled;
    if n == 0 {
      EmptyInv();
    } else {
      ExclusionOverRuns(run, steps, n - 1);
      InvKept(run[n - 1], steps[n - 1]);
    }
    InvExcludes(run[n]);
  }

  lemma EmptyInv()
    ensures Inv(EMPTY)
  {
  }

  /** A worker message that comes too late for a live handler lets any other handler in beside it. */
  lemma SlowHolderShares(s: State, key: Key, now: real, h: Handler)
    requires Inv(s) && !Orderly(s, WorkerMessage(key, now)) && h !in s.seen
    ensures var t := Next(s, WorkerMessage(key, now));
      Enabled(t, Acquire(h, key, now)) && !Exclusive(Next(t, Acquire(h, key, now)))
  {
    var g :| g in s.holders && s.holders[g].key == key && s.locks[s.lockOf[key]].Late(now);
    assert Held(s, s.holders[g]);
    var t := Next(s, WorkerMessage(key, now));
    var u := Next(t, Acquire(h, key, now));
    assert g != h && g in u.holders && h in u.holders;
    assert s.keyOf[s.ws[key]] == key;
  }

  // ---------------------------------------------------------------- continuations

  /** Steps that are always orderly. */
  predicate Quiet(step: Step) {
    !step.WorkerMessage? && !step.Connect?
  }

  /** A continuation from `s` by quiet steps only. */
  ghost predicate Continues(run: seq<State>, steps: seq<Step>, s: State) {
    Leads(run, steps) && run[0] == s && forall i :: 0 <= i < |steps| ==> Quiet(steps[i])
  }

  /** However the handlers go on, no two of them come to be on one connection. */
  ghost predicate StaysExclusive(s: State) {
    forall run, steps :: Continues(run, steps, s) ==> Exclusive(run[|steps|])
  }

  lemma Joined(run: seq<State>, steps: seq<Step>, run': seq<State>, steps': seq<Step>, s: State)
    requires Continues(run, steps, s) && Continues(run', steps', run[|steps|])
    ensures Continues(run + run'[1..], steps + steps', s)
    ensures (run + run'[1..])[|steps + steps'|] == run'[|steps'|]
  {
    hide Next, Enabled;
    var all, path := run + run'[1..], steps + steps';
    forall i | 0 <= i < |path|
      ensures Enabled(all[i], path[i]) && all[i + 1] == Next(all[i], path[i])
    {
      var n := |steps|;
      if i >= n {
        assert path[i] == steps'[i - n] && all[i] == run'[i - n] && all[i + 1] == run'[i - n + 1];
      }
    }
  }

  lemma OneMore(run: seq<State>, steps: seq<Step>, s: State, step: Step)
    requires Continues(run, steps, s) && Quiet(step) && Enabled(run[|steps|], step)
    ensures Continues(run + [Next(run[|steps|], step)], steps + [step], s)
  {
    hide Next, Enabled;
    var last := run[|steps|];
    var run' := [last, Next(last, step)];
    assert run'[1..] == [Next(last, step)];
    Joined(run, steps, run', [step], s);
  }

  /** What a handler's own steps up to the release leave alone. */
  ghost predicate SameTables(s: State, t: State) {
    && t.ws == s.ws && t.lockOf == s.lockOf && t.locks == s.locks && t.keyOf == s.keyOf && t.seen == s.seen
    && t.holders.Keys == s.holders.Keys
    && forall h :: h in s.holders ==> t.holders[h].key == s.holders[h].key && t.holders[h].conn == s.holders[h].conn
  }

  function StepsLeft(phase: Phase): nat {
    match phase
    case Waiting => 3
    case Received(_) => 2
    case Forwarded(_) => 1
    case Acknowledged => 0
  }

  function OwnStep(s: State, g: Handler): (step: Step)
    requires g in s.holders && !s.holders[g].phase.Acknowledged?
    ensures Enabled(s, step) && Quiet(step)
  {
    match s.holders[g].phase
    case Waiting => Receive(g, "")
    case Received(_) => Forward(g)
    case Forwarded(_) => SendAck(g)
  }

  lemma MovedSame(s: State, g: Handler, phase: Phase, e: Event)
    requires g in s.holders
    ensures SameTables(s, Moved(s, g, phase, e)) && Moved(s, g, phase, e).holders[g].phase == phase
  {
  }

  lemma OwnStepKeeps(s: State, g: Handler)
    requires g in s.holders && !s.holders[g].phase.Acknowledged?
    ensures var t := Next(s, OwnStep(s, g));
      SameTables(s, t) && StepsLeft(t.holders[g].phase) < StepsLeft(s.holders[g].phase)
  {
    var phase := s.holders[g].phase;
    if phase.Waiting? {
      MovedSame(s, g, Received(""), Got(g, ""));
    } else if phase.Received? {
      MovedSame(s, g, Forwarded(phase.data), Sent(g, s.holders[g].conn, phase.data));
    } else {
      MovedSame(s, g, Acknowledged, Ack(g));
    }
    hide Moved, SameTables;
  }

  /** A handler can always come to the point where only the release is left. */
  lemma {:induction false} SendsOn(s: State, g: Handler) returns (run: seq<State>, steps: seq<Step>)
    requires g in s.holders
    ensures Continues(run, steps, s)
    ensures SameTables(s, run[|steps|]) && run[|steps|].holders[g].phase.Acknowledged?
    decreases StepsLeft(s.holders[g].phase)
  {
    run, steps := [s], [];
    if !s.holders[g].phase.Acknowledged? {
      var step := OwnStep(s, g);
      var t := Next(s, step);
      OwnStepKeeps(s, g);
      hide Next, Enabled, OwnStep;
      OneMore(run, steps, s, step);
      var run', steps' := SendsOn(t, g);
      Joined([s, t], [step], run', steps', s);
      run, steps := [s, t] + run'[1..], [step] + steps';
    }
  }

  /** A new handler on the key, where its lock is free. */
  lemma TakesOver(s: State, key: Key, h: Handler)
    requires key in s.ws && key in s.lockOf && s.lockOf[key] in s.locks && !s.locks[s.lockOf[key]].locked && h !in s.seen
    ensures Enabled(s, Acquire(h, key, 0.0))
    ensures var t := Next(s, Acquire(h, key, 0.0));
      && h in t.holders && t.holders[h].conn == s.ws[key] && t.ws == s.ws && t.lockOf == s.lockOf
      && t.seen == s.seen + {h} && t.locks.Keys == s.locks.Keys
      && forall g :: g in s.holders && g != h ==> g in t.holders && t.holders[g] == s.holders[g]
  {
  }

  /** The release of a handler whose key was registered again frees the new lock. */
  lemma FreesTheOther(s: State, g: Handler, key: Key)
    requires g in s.holders && s.holders[g].phase.Acknowledged? && s.holders[g].key == key
    requires key in s.lockOf && s.lockOf[key] in s.locks
    ensures Enabled(s, Release(g))
    ensures var t := Next(s, Release(g));
      && t.ws == s.ws && t.lockOf == s.lockOf && t.seen == s.seen && t.locks.Keys == s.locks.Keys
      && !t.locks[t.lockOf[key]].locked
      && forall h :: h in s.holders && h != g ==> h in t.holders && t.holders[h] == s.holders[h]
  {
  }

  /** With the new lock of a key free and a handler of the key's old connection alive, two new
      handlers come to share the new connection: the old handler's release lets the second in. */
  lemma OldHandlerLetsIn(s: State, g: Handler, key: Key) returns (run: seq<State>, steps: seq<Step>)
    requires g in s.holders && s.holders[g].key == key && s.holders.Keys <= s.seen
    requires key in s.ws && key in s.lockOf && s.lockOf[key] in s.locks && !s.locks[s.lockOf[key]].locked
    ensures Continues(run, steps, s) && !Exclusive(run[|steps|])
  {
    var h := Outside(s.seen);
    TakesOver(s, key, h);
    var s1 := Next(s, Acquire(h, key, 0.0));
    OneMore([s], [], s, Acquire(h, key, 0.0));
    var path, own := SendsOn(s1, g);
    hide Next, Enabled;
    Joined([s, s1], [Acquire(h, key, 0.0)], path, own, s);
    run, steps := [s, s1] + path[1..], [Acquire(h, key, 0.0)] + own;
    var s2 := run[|steps|];
    FreesTheOther(s2, g, key);
    OneMore(run, steps, s, Release(g));
    var s3 := Next(s2, Release(g));
    run, steps := run + [s3], steps + [Release(g)];
    var h' := Outside(s3.seen);
    TakesOver(s3, key, h');
    OneMore(run, steps, s, Acquire(h', key, 0.0));
    var s4 := Next(s3, Acquire(h', key, 0.0));
    run, steps := run + [s4], steps + [Acquire(h', key, 0.0)];
    assert s4.holders[h].conn == s4.holders[h'].conn;
  }

  /** A socket id registered again while a handler is sending on it, wherever that handler stands:
      without any worker message two live handlers come to be on one connection. */
  lemma ReRegistrationShares(s: State, key: Key, conn: Conn, lock: LockId) returns (run: seq<State>, steps: seq<Step>)
    requires Inv(s) && Enabled(s, Connect(key, conn, lock)) && !Orderly(s, Connect(key, conn, lock))
    ensures Continues(run, steps, Next(s, Connect(key, conn, lock))) && !Exclusive(run[|steps|])
  {
    var g :| g in s.holders && s.holders[g].key == key;
    run, steps := OldHandlerLetsIn(Next(s, Connect(key, conn, lock)), g, key);
  }

  lemma {:induction false} QuietKeeps(run: seq<State>, steps: seq<Step>, s: State, n: nat)
    requires Continues(run, steps, s) && Inv(s) && n <= |steps|
    ensures Inv(run[n])
  {
    hide Inv, Next, Enabled;
    if n > 0 {
      QuietKeeps(run, steps, s, n - 1);
      InvKept(run[n - 1], steps[n - 1]);
    }
  }

  /** A step keeps the lock exclusive for whatever the handlers do after it exactly when it does not
      free the lock of a live handler, and does not register a socket id again under one. */
  lemma OrderlyExactly(s: State, step: Step)
    requires Inv(s) && Enabled(s, step)
    ensures Orderly(s, step) <==> StaysExclusive(Next(s, step))
  {
    InvKept(s, step);
    if Orderly(s, step) {
      hide Inv, Exclusive, Next, Enabled;
      forall run, steps | Continues(run, steps, Next(s, step))
        ensures Exclusive(run[|steps|])
      {
        QuietKeeps(run, steps, Next(s, step), |steps|);
        InvExcludes(run[|steps|]);
      }
    } else if step.Connect? {
      var run, steps := ReRegistrationShares(s, step.key, step.conn, step.lock);
      assert !Exclusive(run[|steps|]);
    } else {
      var h := Outside(s.seen);
      SlowHolderShares(s, step.key, step.now, h);
      var t := Next(s, step);
      OneMore([t], [], t, Acquire(h, step.key, step.now));
      var run, steps := [t] + [Next(t, Acquire(h, step.key, step.now))], [] + [Acquire(h, step.key, step.now)];
      assert Continues(run, steps, t) && !Exclusive(run[|steps|]);
    }
  }

  /** Such a state is reached: a worker connects, a handler takes the lock, the worker connects
      again. */
  lemma ReRegistrationHappens(key: Key) returns (run: seq<State>, steps: seq<Step>)
    ensures IsRun(run, steps) && Inv(run[|steps|])
    ensures Enabled(run[|steps|], Connect(key, 1, 1)) && !Orderly(run[|steps|], Connect(key, 1, 1))
  {
    steps := [Connect(key, 0, 0), Acquire(0, key, 0.0)];
    var s1 := Next(EMPTY, steps[0]);
    var s2 := Next(s1, steps[1]);
    run := [EMPTY, s1, s2];
    EmptyInv();
    InvKept(EMPTY, steps[0]);
    InvKept(s1, steps[1]);
    assert s2.holders[0].key == key;
  }

  // ---------------------------------------------------------------- the failsafe

  /** The lock of a key is held, but by no live handler. */
  ghost predicate Abandoned(s: State, key: Key) {
    && key in s.lockOf && s.lockOf[key] in s.locks && s.locks[s.lockOf[key]].locked
    && forall h :: h in s.holders ==> s.holders[h].key != key
  }

  predicate IsFree(s: State, key: Key) {
    key in s.lockOf && s.lockOf[key] in s.locks && !s.locks[s.lockOf[key]].locked
  }

  /** Every lock that is in the tables may be held for a minute. */
  lemma {:induction false} MinuteLocks(run: seq<State>, steps: seq<Step>, n: nat)
    requires IsRun(run, steps) && n <= |steps|
    ensures forall id :: id in run[n].locks ==> run[n].locks[id].timeout == 60.0
  {
    if n > 0 {
      MinuteLocks(run, steps, n - 1);
      assert run[n] == Next(run[n - 1], steps[n - 1]);
      hide Enabled;
    }
  }

  /** A message of the key's worker that comes too late for a lock. */
  predicate IsLate(lock: Lock, key: Key, step: Step) {
    step.WorkerMessage? && step.key == key && lock.Late(step.now)
  }

  /** A step that leaves the connection of a key alone. */
  predicate Spares(step: Step, key: Key) {
    !(step.Connect? && step.key == key) && !(step.Disconnect? && step.key == key)
  }

  lemma NobodyTakes(s: State, step: Step, key: Key)
    requires Abandoned(s, key) && Enabled(s, step)
    ensures forall h :: h in Next(s, step).holders ==> Next(s, step).holders[h].key != key
  {
    if !step.Connect? && !step.Disconnect? && !step.Acquire? {
      StepsWithin(s, step);
      hide Next, Enabled;
    }
  }

  lemma LockSpared(s: State, step: Step, key: Key)
    requires Tables(s) && Abandoned(s, key) && Enabled(s, step) && Spares(step, key)
    ensures var t, lock := Next(s, step), s.locks[s.lockOf[key]];
      && key in t.lockOf && t.lockOf[key] in t.locks
      && t.locks[t.lockOf[key]] == if IsLate(lock, key, step) then lock.(locked := false) else lock
  {
    assert forall h :: h in s.holders && s.holders[h].key in s.lockOf ==> s.lockOf[s.holders[h].key] != s.lockOf[key];
  }

  /** In any state, also one with handlers out of order, a step leaves an abandoned lock as it was
      taken, unless its connection goes or is replaced, or it is a message from its worker that comes
      later than the timeout: that one frees it. */
  lemma AbandonedFreed(s: State, step: Step, key: Key)
    requires Tables(s) && Abandoned(s, key) && Enabled(s, step) && Spares(step, key)
    ensures var t := Next(s, step);
      var late := IsLate(s.locks[s.lockOf[key]], key, step);
      && (Abandoned(t, key) <==> !late) && (IsFree(t, key) <==> late)
      && (!late ==> t.locks[t.lockOf[key]] == s.locks[s.lockOf[key]])
  {
    NobodyTakes(s, step, key);
    LockSpared(s, step, key);
    hide Next, Enabled, Tables;
  }

  /** An abandoned lock stays abandoned, and as it was taken, as long as none of its worker's messages
      comes late. */
  lemma {:induction false} AbandonedStays(run: seq<State>, steps: seq<Step>, key: Key, n: nat)
    requires Leads(run, steps) && n <= |steps| && Tables(run[0]) && Abandoned(run[0], key)
    requires forall i :: 0 <= i < n ==> Spares(steps[i], key) && !IsLate(run[0].locks[run[0].lockOf[key]], key, steps[i])
    ensures Tables(run[n]) && Abandoned(run[n], key)
    ensures run[n].locks[run[n].lockOf[key]] == run[0].locks[run[0].lockOf[key]]
  {
    if n > 0 {
      hide Tables, IsLate, Spares, Next, Enabled;
      AbandonedStays(run, steps, key, n - 1);
      TablesKept(run[n - 1], steps[n - 1]);
      AbandonedFreed(run[n - 1], steps[n - 1], key);
    }
  }

  /** In every run, orderly or not, that leaves the connection alone, the first late message of the
      worker, and no other step, frees an abandoned lock: it is abandoned before step `n + 1` and freed
      by that step exactly when the messages before came in time and this one comes late. */
  lemma FirstLateFrees(run: seq<State>, steps: seq<Step>, key: Key, n: nat)
    requires Leads(run, steps) && n < |steps| && Tables(run[0]) && Abandoned(run[0], key)
    requires forall i :: 0 <= i <= n ==> Spares(steps[i], key)
    ensures var lock := run[0].locks[run[0].lockOf[key]];
      (forall i :: 0 <= i <= n ==> Abandoned(run[i], key)) && IsFree(run[n + 1], key) <==>
        (forall i :: 0 <= i < n ==> !IsLate(lock, key, steps[i])) && IsLate(lock, key, steps[n])
  {
    var lock := run[0].locks[run[0].lockOf[key]];
    hide Tables, IsLate, Spares, Next, Enabled;
    if m :| 0 <= m < n && IsLate(lock, key, steps[m]) {
      var k := FirstLate(lock, key, steps, m);
      FirstLateIs(run, steps, key, k);
      assert k + 1 <= n && !Abandoned(run[k + 1], key);
    } else {
      forall i | 0 <= i <= n
        ensures Abandoned(run[i], key)
      {
        AbandonedStays(run, steps, key, i);
      }
      FirstLateIs(run, steps, key, n);
    }
  }

  lemma {:induction false} FirstLate(lock: Lock, key: Key, steps: seq<Step>, m: nat) returns (k: nat)
    requires m < |steps| && IsLate(lock, key, steps[m])
    ensures k <= m && IsLate(lock, key, steps[k]) && forall i :: 0 <= i < k ==> !IsLate(lock, key, steps[i])
  {
    hide IsLate;
    k := m;
    if j :| 0 <= j < m && IsLate(lock, key, steps[j]) {
      k := FirstLate(lock, key, steps, j);
    }
  }

  lemma FirstLateIs(run: seq<State>, steps: seq<Step>, key: Key, n: nat)
    requires Leads(run, steps) && n < |steps| && Tables(run[0]) && Abandoned(run[0], key)
    requires forall i :: 0 <= i <= n ==> Spares(steps[i], key)
    requires forall i :: 0 <= i < n ==> !IsLate(run[0].locks[run[0].lockOf[key]], key, steps[i])
    ensures var late := IsLate(run[0].locks[run[0].lockOf[key]], key, steps[n]);
      (Abandoned(run[n + 1], key) <==> !late) && (IsFree(run[n + 1], key) <==> late)
  {
    hide Tables, IsLate, Spares, Next, Enabled;
    AbandonedStays(run, steps, key, n);
    AbandonedFreed(run[n], steps[n], key);
  }

  // ---------------------------------------------------------------- connections that are gone

  lemma {:induction false} GoneStays(run: seq<State>, steps: seq<Step>, key: Key, i: nat, n: nat)
    requires Leads(run, steps) && i < n <= |steps| && steps[i] == Disconnect(key)
    requires forall k :: i < k < n ==> !(steps[k].Connect? && steps[k].key == key)
    ensures key !in run[n].ws && key !in run[n].lockOf
  {
    hide Enabled;
    assert run[n] == Next(run[n - 1], steps[n - 1]);
    if i + 1 < n {
      GoneStays(run, steps, key, i, n - 1);
    }
  }

  /** Once a connection has gone, no handler can take its lock until the worker has connected again. */
  lemma GoneIsNotTaken(run: seq<State>, steps: seq<Step>, key: Key, i: nat, n: nat)
    requires Leads(run, steps) && i < n < |steps| && steps[i] == Disconnect(key)
    requires forall k :: i < k < n ==> !(steps[k].Connect? && steps[k].key == key)
    ensures !(steps[n].Acquire? && steps[n].key == key)
  {
    GoneStays(run, steps, key, i, n);
    assert Enabled(run[n], steps[n]);
  }

  lemma {:induction false} ConnectedStays(run: seq<State>, steps: seq<Step>, key: Key, i: nat, n: nat)
    requires Leads(run, steps) && i < n <= |steps| && steps[i].Connect? && steps[i].key == key
    requires forall k :: i < k < n ==> Spares(steps[k], key)
    ensures key in run[n].ws && run[n].ws[key] == steps[i].conn
  {
    hide Enabled;
    assert run[n] == Next(run[n - 1], steps[n - 1]);
    if i + 1 < n {
      ConnectedStays(run, steps, key, i, n - 1);
    }
  }

  /** A handler that takes the lock of a connection sends on the socket that was registered last, whatever
      happens after it has taken it. */
  lemma SendsWhereRegistered(run: seq<State>, steps: seq<Step>, i: nat, a: nat, n: nat)
    requires Leads(run, steps) && Tables(run[0]) && i < a < n < |steps| && steps[i].Connect? && steps[a].Acquire?
    requires steps[a].key == steps[i].key && forall k :: i < k < a ==> Spares(steps[k], steps[i].key)
    requires steps[n] == Forward(steps[a].h)
    ensures exists d :: run[n + 1].trace == run[n].trace + [Sent(steps[a].h, steps[i].conn, d)]
  {
    ConnectedStays(run, steps, steps[i].key, i, a);
    StaysOnConn(run, steps, steps[a].h, a, n);
    hide Tables;
    assert Enabled(run[n], steps[n]) && run[n + 1] == Next(run[n], steps[n]);
    var d := run[n].holders[steps[a].h].phase.data;
    assert run[n + 1].trace == run[n].trace + [Sent(steps[a].h, steps[i].conn, d)];
  }

  lemma {:induction false} TablesOverRun(run: seq<State>, steps: seq<Step>, n: nat)
    requires Leads(run, steps) && Tables(run[0]) && n <= |steps|
    ensures Tables(run[n])
  {
    hide Tables, Next, Enabled;
    if n > 0 {
      TablesOverRun(run, steps, n - 1);
      TablesKept(run[n - 1], steps[n - 1]);
    }
  }

  /** As long as a handler lives it stays on the connection it took, and only one handler ever has its
      name. */
  lemma {:induction false} StaysOnConn(run: seq<State>, steps: seq<Step>, h: Handler, a: nat, n: nat)
    requires Leads(run, steps) && Tables(run[0]) && a < n <= |steps| && steps[a].Acquire? && steps[a].h == h
    ensures steps[a].key in run[a].ws && h in run[n].seen
    ensures h in run[n].holders ==> run[n].holders[h].conn == run[a].ws[steps[a].key]
  {
    assert Enabled(run[a], steps[a]) && run[n] == Next(run[n - 1], steps[n - 1]) && Enabled(run[n - 1], steps[n - 1]);
    if a + 1 < n {
      StaysOnConn(run, steps, h, a, n - 1);
      TakenOnce(run[n - 1], steps[n - 1], h);
    }
  }

  lemma TakenOnce(s: State, step: Step, h: Handler)
    requires Enabled(s, step) && h in s.seen
    ensures h in Next(s, step).seen
    ensures h in Next(s, step).holders ==> h in s.holders && Next(s, step).holders[h].conn == s.holders[h].conn
  {
  }

  // ---------------------------------------------------------------- the order of messages

  ghost predicate Before(trace: seq<Event>, e: Event, n: nat) {
    n <= |trace| && exists i :: 0 <= i < n && trace[i] == e
  }

  /** Data is forwarded only after it was received, and acknowledged only after it was forwarded. */
  ghost predicate Proper(trace: seq<Event>) {
    && (forall j :: 0 <= j < |trace| && trace[j].Sent? ==> Before(trace, Got(trace[j].h, trace[j].data), j))
    && forall j :: 0 <= j < |trace| && trace[j].Ack? ==>
         exists c, d :: Before(trace, Sent(trace[j].h, c, d), j)
  }

  /** What a live handler has done so far is on record. */
  ghost predicate OnRecord(s: State) {
    forall h :: h in s.holders ==>
      var holder := s.holders[h];
      && (holder.phase.Received? ==> Before(s.trace, Got(h, holder.phase.data), |s.trace|))
      && (holder.phase.Forwarded? ==> Before(s.trace, Sent(h, holder.conn, holder.phase.data), |s.trace|))
  }

  lemma BeforeGrows(trace: seq<Event>, e: Event, n: nat, more: Event)
    requires Before(trace, e, n)
    ensures Before(trace + [more], e, n) && Before(trace + [more], e, |trace| + 1)
  {
    var i :| 0 <= i < n && trace[i] == e;
    assert (trace + [more])[i] == e;
  }

  lemma ProperSnoc(trace: seq<Event>, e: Event)
    requires Proper(trace)
    requires e.Sent? ==> Before(trace, Got(e.h, e.data), |trace|)
    requires e.Ack? ==> exists c, d :: Before(trace, Sent(e.h, c, d), |trace|)
    ensures Proper(trace + [e])
  {
    var more := trace + [e];
    forall j | 0 <= j < |more| && more[j].Sent?
      ensures Before(more, Got(more[j].h, more[j].data), j)
    {
      BeforeGrows(trace, Got(more[j].h, more[j].data), j, e);
    }
    forall j | 0 <= j < |more| && more[j].Ack?
      ensures exists c, d :: Before(more, Sent(more[j].h, c, d), j)
    {
      var c, d :| Before(trace, Sent(more[j].h, c, d), j);
      BeforeGrows(trace, Sent(more[j].h, c, d), j, e);
    }
  }

  lemma MovedRecorded(s: State, h: Handler, phase: Phase, e: Event)
    requires h in s.holders && Proper(s.trace) && OnRecord(s) && e.h == h
    requires match e
      case Got(_, d) => phase == Received(d)
      case Sent(_, c, d) => phase == Forwarded(d) && c == s.holders[h].conn && s.holders[h].phase == Received(d)
      case Ack(_) => phase == Acknowledged && s.holders[h].phase.Forwarded?
    ensures Proper(Moved(s, h, phase, e).trace) && OnRecord(Moved(s, h, phase, e))
  {
    ProperSnoc(s.trace, e);
    var t := Moved(s, h, phase, e);
    forall g | g in t.holders
      ensures t.holders[g].phase.Received? ==> Before(t.trace, Got(g, t.holders[g].phase.data), |t.trace|)
      ensures t.holders[g].phase.Forwarded? ==>
        Before(t.trace, Sent(g, t.holders[g].conn, t.holders[g].phase.data), |t.trace|)
    {
      if g == h {
        assert t.trace[|s.trace|] == e;
      } else if s.holders[g].phase.Received? {
        BeforeGrows(s.trace, Got(g, s.holders[g].phase.data), |s.trace|, e);
      } else if s.holders[g].phase.Forwarded? {
        BeforeGrows(s.trace, Sent(g, s.holders[g].conn, s.holders[g].phase.data), |s.trace|, e);
      }
    }
  }

  /** In every interleaving whatever, an acknowledgement follows the forward of what was received. */
  lemma {:induction false} AckFollowsForward(run: seq<State>, steps: seq<Step>, n: nat)
    requires IsRun(run, steps) && n <= |steps|
    ensures Proper(run[n].trace) && OnRecord(run[n])
  {
    if n > 0 {
      AckFollowsForward(run, steps, n - 1);
      var s, step := run[n - 1], steps[n - 1];
      assert run[n] == Next(s, step) && Enabled(s, step);
      hide Proper;
      match step
      case Receive(h, data) => MovedRecorded(s, h, Received(data), Got(h, data));
      case Forward(h) =>
        MovedRecorded(s, h, Forwarded(s.holders[h].phase.data), Sent(h, s.holders[h].conn, s.holders[h].phase.data));
      case SendAck(h) => MovedRecorded(s, h, Acknowledged, Ack(h));
      case _ =>
    }
  }
}
