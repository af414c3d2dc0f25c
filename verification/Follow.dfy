/** Following the files of a run until it finishes: `follow_targets`. */
module Follow {
  import opened Common

  const READ_LENGTH := 16384

  datatype State = Unfinished | Ready | Failed | Killed

  predicate Final(s: State) {
    s != Unfinished
  }

  /** What the server holds of a run, at every time: the state it ends in and when, and for each
      followed path whether it is there, whether it is a file, and its bytes. */
  datatype Run = Run(
    finalAt: nat,
    outcome: State,
    there: (nat, nat) -> bool,
    isFile: nat -> bool,
    content: (nat, nat) -> Bytes)
  {
    function StateAt(t: nat): State {
      if t < finalAt then Unfinished else outcome
    }

    /** Paths only appear, files only grow, and nothing changes once the state is final. */
    ghost predicate AppendOnly() {
      && Final(outcome)
      && (forall i, t, t' | t <= t' :: there(i, t) ==> there(i, t'))
      && (forall i, t, t' | t <= t' :: content(i, t) <= content(i, t'))
      && (forall i, t | finalAt <= t :: there(i, t) == there(i, finalAt) && content(i, t) == content(i, finalAt))
    }
  }

  /** The bytes a range request yields, both ends included. */
  function Range(c: Bytes, first: nat, last: nat): Bytes {
    if |c| <= first || last < first then [] else c[first..if last < |c| then last + 1 else |c|]
  }

  /** Where following starts in a file of this size. */
  function StartAt(fromStart: bool, size: nat): nat {
    if fromStart || size < 64 then 0 else size - 64
  }

  datatype NotFound = NotFound

  datatype Info = Info(isFile: bool, size: nat)

  /** The server as the command sees it; any time may pass during a call. */
  class Client {
    const run: Run
    var now: nat

    constructor (run: Run)
      ensures this.run == run
    {
      this.run := run;
    }

    method Pass()
      modifies this
      ensures now >= old(now)
    {
      var ticks: nat :| true;
      now := now + ticks;
    }

    method Sleep()
      modifies this
      ensures now > old(now)
    {
      Pass();
      now := now + 1;
    }

    method FetchState() returns (s: State)
      modifies this
      ensures now >= old(now) && s == run.StateAt(now)
    {
      Pass();
      s := run.StateAt(now);
    }

    method FetchInfo(i: nat) returns (r: Result<Info, NotFound>)
      modifies this
      ensures now >= old(now)
      ensures r == if run.there(i, now) then Ok(Info(run.isFile(i), |run.content(i, now)|)) else Err(NotFound)
    {
      Pass();
      r := if run.there(i, now) then Ok(Info(run.isFile(i), |run.content(i, now)|)) else Err(NotFound);
    }

    method FetchBlob(i: nat, first: nat, last: nat) returns (b: Bytes)
      modifies this
      ensures now >= old(now) && b == Range(run.content(i, now), first, last)
    {
      Pass();
      b := Range(run.content(i, now), first, last);
    }
  }

  // ---------------------------------------------------------------- what has been written

  /** Everything written of one file, in the order it was written. */
  function Written(out: seq<(nat, Bytes)>, i: nat): Bytes {
    if out == [] then []
    else Written(out[..|out| - 1], i) + if out[|out| - 1].0 == i then out[|out| - 1].1 else []
  }

  lemma WrittenSnoc(out: seq<(nat, Bytes)>, k: nat, b: Bytes, i: nat)
    ensures Written(out + [(k, b)], i) == Written(out, i) + if k == i then b else []
  {
    assert (out + [(k, b)])[..|out|] == out;
  }

  /** What the command holds on one path (nothing yet, that it is no file, or how far it was read)
      is right at time `now`: the output of the path is the stretch of the file from where
      following started, at time `seen`, to the offset. */
  ghost predicate Kept(run: Run, fromStart: bool, out: seq<(nat, Bytes)>,
                       isFile: Option<bool>, offset: nat, seen: nat, i: nat, now: nat)
  {
    match isFile
    case None => Written(out, i) == []
    case Some(false) => !run.isFile(i) && run.there(i, now) && Written(out, i) == []
    case Some(true) =>
      && run.isFile(i) && run.there(i, now) && seen <= now && run.there(i, seen)
      && StartAt(fromStart, |run.content(i, seen)|) <= offset <= |run.content(i, now)|
      && Written(out, i) == run.content(i, now)[StartAt(fromStart, |run.content(i, seen)|)..offset]
  }

  /** The whole of a path was written: for a file, everything from where following started to the
      end the file has when the run is over. */
  ghost predicate Followed(run: Run, fromStart: bool, out: seq<(nat, Bytes)>, seen: nat, i: nat) {
    && run.there(i, run.finalAt)
    && if run.isFile(i) then
         && run.there(i, seen)
         && StartAt(fromStart, |run.content(i, seen)|) <= |run.content(i, run.finalAt)|
         && Written(out, i) == run.content(i, run.finalAt)[StartAt(fromStart, |run.content(i, seen)|)..]
       else Written(out, i) == []
  }

  /** What was kept stays right as time passes. */
  lemma KeptLater(run: Run, fromStart: bool, out: seq<(nat, Bytes)>,
                  isFile: Option<bool>, offset: nat, seen: nat, i: nat, now: nat, later: nat)
    requires run.AppendOnly() && now <= later
    requires Kept(run, fromStart, out, isFile, offset, seen, i, now)
    ensures Kept(run, fromStart, out, isFile, offset, seen, i, later)
  {
    assert run.content(i, now) <= run.content(i, later);
  }

  /** A range request answered at `now` continues the output where it stopped; an answer shorter
      than asked for reaches the end of the file. */
  lemma ReadStep(run: Run, fromStart: bool, out: seq<(nat, Bytes)>, offset: nat, seen: nat, i: nat, now: nat, b: Bytes)
    requires Kept(run, fromStart, out, Some(true), offset, seen, i, now)
    requires b == Range(run.content(i, now), offset, offset + READ_LENGTH - 1)
    ensures Kept(run, fromStart, out + [(i, b)], Some(true), offset + |b|, seen, i, now)
    ensures |b| <= READ_LENGTH && (|b| < READ_LENGTH ==> offset + |b| == |run.content(i, now)|)
  {
    var c, start := run.content(i, now), StartAt(fromStart, |run.content(i, seen)|);
    WrittenSnoc(out, i, b, i);
    assert c[start..offset] + b == c[start..offset + |b|];
  }

  lemma DoneIsFollowed(run: Run, fromStart: bool, out: seq<(nat, Bytes)>,
                       isFile: bool, offset: nat, seen: nat, i: nat, now: nat)
    requires run.AppendOnly() && run.finalAt <= now
    requires Kept(run, fromStart, out, Some(isFile), offset, seen, i, now)
    requires isFile ==> offset == |run.content(i, run.finalAt)|
    ensures Followed(run, fromStart, out, seen, i)
  {
    assert run.content(i, now) == run.content(i, run.finalAt) && run.there(i, now) == run.there(i, run.finalAt);
  }

  /** The inner loop: reads one file until an answer is empty or shorter than asked for. */
  method ReadOn(client: Client, fromStart: bool, i: nat, offset0: nat, out0: seq<(nat, Bytes)>, ghost seen: nat)
    returns (offset: nat, out: seq<(nat, Bytes)>)
    requires client.run.AppendOnly()
    requires Kept(client.run, fromStart, out0, Some(true), offset0, seen, i, client.now)
    modifies client
    ensures client.now >= old(client.now)
    ensures Kept(client.run, fromStart, out, Some(true), offset, seen, i, client.now)
    ensures old(client.now) >= client.run.finalAt ==> offset == |client.run.content(i, client.run.finalAt)|
    ensures forall k | k != i :: Written(out, k) == Written(out0, k)
  {
    var run := client.run;
    hide Kept, Written;
    offset, out := offset0, out0;
    while true
      invariant client.now >= old(client.now)
      invariant Kept(run, fromStart, out, Some(true), offset, seen, i, client.now)
      invariant forall k | k != i :: Written(out, k) == Written(out0, k)
      decreases |run.content(i, run.finalAt)| - offset
    {
      ghost var before := client.now;
      var b := client.FetchBlob(i, offset, offset + READ_LENGTH - 1);
      KeptLater(run, fromStart, out, Some(true), offset, seen, i, before, client.now);
      ReadStep(run, fromStart, out, offset, seen, i, client.now, b);
      WithinFinal(run, i, client.now);
      KeptBound(run, fromStart, out, offset, seen, i, client.now);
      if b == [] {
        break;
      }
      forall k | k != i
        ensures Written(out + [(i, b)], k) == Written(out, k)
      {
        WrittenSnoc(out, i, b, k);
      }
      KeptBound(run, fromStart, out + [(i, b)], offset + |b|, seen, i, client.now);
      offset, out := offset + |b|, out + [(i, b)];
      if |b| < READ_LENGTH {
        break;
      }
    }
  }

  lemma KeptBound(run: Run, fromStart: bool, out: seq<(nat, Bytes)>, offset: nat, seen: nat, i: nat, now: nat)
    requires Kept(run, fromStart, out, Some(true), offset, seen, i, now)
    ensures offset <= |run.content(i, now)|
  {
  }

  /** No file is ever longer than in the end, and after the end it is just that long. */
  lemma WithinFinal(run: Run, i: nat, now: nat)
    requires run.AppendOnly()
    ensures |run.content(i, now)| <= |run.content(i, run.finalAt)|
    ensures run.finalAt <= now ==> |run.content(i, now)| == |run.content(i, run.finalAt)|
  {
    if now <= run.finalAt {
      assert run.content(i, now) <= run.content(i, run.finalAt);
    } else {
      assert run.content(i, now) == run.content(i, run.finalAt);
    }
  }

  // ---------------------------------------------------------------- the command

  /** What the command holds on all paths. */
  datatype Held = Held(isFile: seq<Option<bool>>, offset: seq<nat>, seen: seq<nat>)

  /** One round over the paths, of which the first `done` have been handled. The state was final
      before the round when `ended` holds; `waited` says that the wait before the first round ended
      with every path there, rather than with the run being over. */
  ghost predicate Round(run: Run, fromStart: bool, out: seq<(nat, Bytes)>, h: Held, done: nat,
                        ended: bool, waited: bool, now: nat)
  {
    var n := |h.isFile|;
    && done <= n == |h.offset| == |h.seen|
    && (ended ==> run.finalAt <= now)
    && (forall k | n <= k :: Written(out, k) == [])
    && (forall k | 0 <= k < n :: Kept(run, fromStart, out, h.isFile[k], h.offset[k], h.seen[k], k, now))
    && (forall k | 0 <= k < done :: h.isFile[k].Some?)
    && (ended ==> forall k | 0 <= k < done :: Followed(run, fromStart, out, h.seen[k], k))
    && (waited ==> forall k | 0 <= k < n :: run.there(k, now))
    && (!waited ==> ended && forall k | done <= k < n :: h.isFile[k] == None)
  }

  lemma ThereLater(run: Run, now: nat, later: nat)
    requires run.AppendOnly() && now <= later
    ensures forall k | run.there(k, now) :: run.there(k, later)
  {
  }

  lemma RoundLater(run: Run, fromStart: bool, out: seq<(nat, Bytes)>, h: Held, done: nat,
                   ended: bool, waited: bool, now: nat, later: nat)
    requires run.AppendOnly() && now <= later
    requires Round(run, fromStart, out, h, done, ended, waited, now)
    ensures Round(run, fromStart, out, h, done, ended, waited, later)
  {
    hide Kept, Followed, Written;
    forall k | 0 <= k < |h.isFile|
      ensures Kept(run, fromStart, out, h.isFile[k], h.offset[k], h.seen[k], k, later)
    {
      KeptLater(run, fromStart, out, h.isFile[k], h.offset[k], h.seen[k], k, now, later);
    }
    ThereLater(run, now, later);
  }

  /** A path that has just appeared, with nothing written of it yet. */
  lemma FirstKept(run: Run, fromStart: bool, out: seq<(nat, Bytes)>, offset: nat, i: nat, now: nat)
    requires Written(out, i) == [] && run.there(i, now)
    requires run.isFile(i) ==> offset == StartAt(fromStart, |run.content(i, now)|)
    ensures Kept(run, fromStart, out, Some(run.isFile(i)), offset, now, i, now)
  {
  }

  /** Handling one path ends the step of the round. */
  lemma RoundStep(run: Run, fromStart: bool, out: seq<(nat, Bytes)>, h: Held, i: nat, ended: bool, waited: bool,
                  now: nat, out': seq<(nat, Bytes)>, h': Held, later: nat)
    requires run.AppendOnly() && now <= later
    requires Round(run, fromStart, out, h, i, ended, waited, now) && i < |h.isFile|
    requires |h'.isFile| == |h'.offset| == |h'.seen| == |h.isFile|
    requires forall k | 0 <= k < |h.isFile| && k != i ::
      h'.isFile[k] == h.isFile[k] && h'.offset[k] == h.offset[k] && h'.seen[k] == h.seen[k]
    requires forall k | k != i :: Written(out', k) == Written(out, k)
    requires h'.isFile[i].Some? && Kept(run, fromStart, out', h'.isFile[i], h'.offset[i], h'.seen[i], i, later)
    requires ended && h'.isFile[i] == Some(true) ==> h'.offset[i] == |run.content(i, run.finalAt)|
    ensures Round(run, fromStart, out', h', i + 1, ended, waited, later)
  {
    hide Written;
    forall k | 0 <= k < i && ended
      ensures Followed(run, fromStart, out', h'.seen[k], k)
    {
      assert Followed(run, fromStart, out, h.seen[k], k);
    }
    forall k | 0 <= k < |h.isFile|
      ensures Kept(run, fromStart, out', h'.isFile[k], h'.offset[k], h'.seen[k], k, later)
    {
      if k != i {
        KeptLater(run, fromStart, out, h.isFile[k], h.offset[k], h.seen[k], k, now, later);
      }
    }
    ThereLater(run, now, later);
    if ended {
      DoneIsFollowed(run, fromStart, out', h'.isFile[i].value, h'.offset[i], h'.seen[i], i, later);
    }
  }

  /** What is left of the run, as far as the command knows. */
  function Left(run: Run, state: State, now: nat): nat {
    if Final(state) then 0 else if now < run.finalAt then 1 + run.finalAt - now else 1
  }

  /** The state the command last saw, and the time. */
  ghost predicate Known(run: Run, state: State, now: nat) {
    Final(state) ==> state == run.outcome && run.finalAt <= now
  }

  /** Waits until every path is there or the run is over. */
  method WaitForPaths(client: Client, n: nat) returns (state: State)
    requires client.run.AppendOnly()
    modifies client
    ensures client.now >= old(client.now)
    ensures Known(client.run, state, client.now)
    ensures Final(state) || forall k | 0 <= k < n :: client.run.there(k, client.now)
  {
    state := client.FetchState();
    for i := 0 to n
      invariant client.now >= old(client.now)
      invariant Known(client.run, state, client.now)
      invariant Final(state) || forall k | 0 <= k < i :: client.run.there(k, client.now)
    {
      while !Final(state)
        invariant client.now >= old(client.now)
        invariant Known(client.run, state, client.now)
        invariant Final(state) || forall k | 0 <= k < i :: client.run.there(k, client.now)
        decreases Left(client.run, state, client.now)
      {
        ghost var before := client.now;
        state := client.FetchState();
        var info := client.FetchInfo(i);
        ThereLater(client.run, before, client.now);
        if info.Ok? {
          break;
        }
        ghost var asked := client.now;
        client.Sleep();
        ThereLater(client.run, asked, client.now);
      }
    }
  }

  /** Following stopped at a path that never appears: the paths before it were followed to their
      end, and nothing was written of the others. */
  ghost predicate Lost(run: Run, fromStart: bool, out: seq<(nat, Bytes)>, seen: seq<nat>, missing: nat) {
    && missing < |seen|
    && !run.there(missing, run.finalAt)
    && (forall k | 0 <= k < missing :: Followed(run, fromStart, out, seen[k], k))
    && (forall k | missing <= k :: Written(out, k) == [])
  }

  lemma RoundMissing(run: Run, fromStart: bool, out: seq<(nat, Bytes)>, h: Held, i: nat,
                     ended: bool, waited: bool, now: nat)
    requires run.AppendOnly()
    requires Round(run, fromStart, out, h, i, ended, waited, now)
    requires i < |h.isFile| && !run.there(i, now)
    ensures Lost(run, fromStart, out, h.seen, i)
  {
    hide Followed, Written;
    assert !waited;
    forall k | i <= k
      ensures Written(out, k) == []
    {
      if k < |h.isFile| {
        assert Kept(run, fromStart, out, None, h.offset[k], h.seen[k], k, now);
      }
    }
  }

  /** The next round starts where this one ended, unless the run was known to be over. */
  lemma RoundAgain(run: Run, fromStart: bool, out: seq<(nat, Bytes)>, h: Held, done: nat,
                   ended: bool, ended': bool, waited: bool, now: nat)
    requires Round(run, fromStart, out, h, done, ended, waited, now)
    requires ended ==> ended' && done == 0
    requires ended' ==> run.finalAt <= now
    ensures Round(run, fromStart, out, h, 0, ended', waited, now)
  {
    hide Kept, Followed, Written;
  }

  /** The loop over the paths: reads from each what there is. */
  method ReadAll(client: Client, fromStart: bool, isFile: array<Option<bool>>, offset: array<nat>,
                 out0: seq<(nat, Bytes)>, ghost seen0: seq<nat>, ghost ended: bool, ghost waited: bool)
    returns (found: bool, out: seq<(nat, Bytes)>, ghost seen: seq<nat>, ghost missing: nat)
    requires client.run.AppendOnly()
    requires Round(client.run, fromStart, out0, Held(isFile[..], offset[..], seen0), 0, ended, waited, client.now)
    modifies client, isFile, offset
    ensures client.now >= old(client.now) && |seen| == |seen0|
    ensures found ==>
      Round(client.run, fromStart, out, Held(isFile[..], offset[..], seen), isFile.Length, ended, waited, client.now)
    ensures !found ==> Lost(client.run, fromStart, out, seen, missing)
  {
    hide Kept, Followed, Written, Lost;
    var run := client.run;
    out, seen, missing := out0, seen0, 0;
    for i := 0 to isFile.Length
      invariant client.now >= old(client.now) && |seen| == |seen0|
      invariant Round(run, fromStart, out, Held(isFile[..], offset[..], seen), i, ended, waited, client.now)
    {
      ghost var h, before, start := Held(isFile[..], offset[..], seen), out, client.now;
      if isFile[i] == None {
        var info := client.FetchInfo(i);
        RoundLater(run, fromStart, out, h, i, ended, waited, start, client.now);
        if info.Err? {
          RoundMissing(run, fromStart, out, h, i, ended, waited, client.now);
          missing := i;
          return false, out, seen, i;
        }
        NothingYet(run, fromStart, out, h.offset[i], h.seen[i], i, client.now);
        isFile[i] := Some(info.value.isFile);
        if info.value.isFile {
          offset[i] := StartAt(fromStart, info.value.size);
        }
        seen := seen[i := client.now];
        FirstKept(run, fromStart, out, offset[i], i, client.now);
      }
      if isFile[i] == Some(true) {
        offset[i], out := ReadOn(client, fromStart, i, offset[i], out, seen[i]);
      }
      RoundStep(run, fromStart, before, h, i, ended, waited, start,
                out, Held(isFile[..], offset[..], seen), client.now);
    }
    found := true;
  }

  lemma NothingYet(run: Run, fromStart: bool, out: seq<(nat, Bytes)>, offset: nat, seen: nat, i: nat, now: nat)
    requires Kept(run, fromStart, out, None, offset, seen, i, now)
    ensures Written(out, i) == []
  {
  }

  lemma FollowedIsThere(run: Run, fromStart: bool, out: seq<(nat, Bytes)>, seen: nat, i: nat)
    requires Followed(run, fromStart, out, seen, i)
    ensures run.there(i, run.finalAt)
  {
  }

  /** All of a file was written, or all but the first bytes: those of it that were there when following
      started, except for the last 64 of them. */
  ghost predicate FileFollowed(run: Run, fromStart: bool, written: Bytes, seen: nat, i: nat) {
    var whole, first := run.content(i, run.finalAt), |run.content(i, seen)|;
    && run.there(i, seen)
    && (fromStart || first <= 64 ==> written == whole)
    && (!fromStart && first > 64 ==>
          && first - 64 <= |whole| && written == whole[first - 64..])
  }

  lemma FollowedIsWritten(run: Run, fromStart: bool, out: seq<(nat, Bytes)>, seen: nat, i: nat)
    requires run.AppendOnly() && Followed(run, fromStart, out, seen, i)
    ensures run.isFile(i) ==> FileFollowed(run, fromStart, Written(out, i), seen, i)
    ensures !run.isFile(i) ==> Written(out, i) == []
  {
    hide Written;
    if run.isFile(i) {
      var whole := run.content(i, run.finalAt);
      assert whole[0..] == whole;
    }
  }

  /** Follows `n` paths of a run until it finishes. If every path is there in the end, each file is
      written from where following started to its end, with no gap and no repetition; otherwise
      following stops at the first path that never appears. */
  method FollowTargets(client: Client, n: nat, fromStart: bool)
    returns (r: Result<State, NotFound>, out: seq<(nat, Bytes)>, ghost seen: seq<nat>, ghost missing: nat)
    requires client.run.AppendOnly()
    modifies client
    ensures |seen| == n && forall k | n <= k :: Written(out, k) == []
    ensures r.Ok? <==> forall k | 0 <= k < n :: client.run.there(k, client.run.finalAt)
    ensures r.Ok? ==> r.value == client.run.outcome
    ensures r.Ok? ==> forall k | 0 <= k < n :: Followed(client.run, fromStart, out, seen[k], k)
    ensures r.Ok? ==> forall k | 0 <= k < n ::
      if client.run.isFile(k) then FileFollowed(client.run, fromStart, Written(out, k), seen[k], k)
      else Written(out, k) == []
    ensures r.Err? ==> Lost(client.run, fromStart, out, seen, missing)
  {
    var run := client.run;
    var isFile := new Option<bool>[n](_ => None);
    var offset := new nat[n](_ => 0);
    out, seen, missing := [], seq(n, _ => 0), 0;
    var state := WaitForPaths(client, n);
    ghost var waited := forall k | 0 <= k < n :: run.there(k, client.now);
    hide Followed, Written;
    while true
      invariant |seen| == n && Known(run, state, client.now)
      invariant Round(run, fromStart, out, Held(isFile[..], offset[..], seen), 0, Final(state), waited, client.now)
      invariant !waited ==> Final(state)
      decreases Left(run, state, client.now)
    {
      ghost var t0, ended0 := client.now, Final(state);
      if !Final(state) {
        state := client.FetchState();
      }
      RoundLater(run, fromStart, out, Held(isFile[..], offset[..], seen), 0, ended0, waited, t0, client.now);
      RoundAgain(run, fromStart, out, Held(isFile[..], offset[..], seen), 0, ended0, Final(state), waited, client.now);
      var found;
      found, out, seen, missing :=
        ReadAll(client, fromStart, isFile, offset, out, seen, Final(state), waited);
      if !found {
        return Err(NotFound), out, seen, missing;
      }
      if Final(state) {
        break;
      }
      RoundAgain(run, fromStart, out, Held(isFile[..], offset[..], seen), n, false, false, waited, client.now);
      ghost var t1 := client.now;
      client.Sleep();
      RoundLater(run, fromStart, out, Held(isFile[..], offset[..], seen), 0, false, waited, t1, client.now);
    }
    forall k | 0 <= k < n
      ensures run.there(k, run.finalAt)
    {
      FollowedIsThere(run, fromStart, out, seen[k], k);
    }
    hide FileFollowed;
    forall k | 0 <= k < n
      ensures if run.isFile(k) then FileFollowed(run, fromStart, Written(out, k), seen[k], k) else Written(out, k) == []
    {
      FollowedIsWritten(run, fromStart, out, seen[k], k);
    }
    r := Ok(state);
  }
}
