/** The competition daemon's passes: take each owner's newest submission, drop what was run
    before or is over quota, run the rest and record an evaluation for each. */
module Competition {
  import opened Common

  type Owner = string
  type Id = string

  datatype Submission = Submission(id: Id, owner: Owner, userName: string, name: string, created: int)

  datatype Key = Key(owner: Owner, name: Option<string>)

  /** What an evaluation says about the submission it was made for. */
  datatype Source = Source(submitId: Id, submitter: Owner)

  /** An evaluation of the daemon's that carries the evaluation tag. One whose description was
      cleared or changed by hand has no source. */
  datatype Eval = Eval(source: Option<Source>, name: string, created: int)

  datatype Config = Config(multipleModels: bool, maxTotal: nat, maxPerPeriod: nat, period: int, limit: nat)

  /** A span of time: all of it, after some moment, or after one moment and up to another. */
  datatype Window = Always | Since(lo: int) | Between(from: int, to: int) {
    predicate Has(t: int) {
      match this
      case Always => true
      case Since(a) => t > a
      case Between(a, b) => a < t <= b
    }
  }

  function Counts(e: Eval, o: Owner, w: Window): nat {
    if e.source.Some? && e.source.value.submitter == o && w.Has(e.created) then 1 else 0
  }

  /** How many evaluations count for an owner in a window. */
  function Count(evals: seq<Eval>, o: Owner, w: Window): nat {
    if evals == [] then 0 else Count(evals[..|evals| - 1], o, w) + Counts(evals[|evals| - 1], o, w)
  }

  function EvalName(s: Submission): string {
    s.userName + "-" + s.name + "-results"
  }

  /** The evaluations that keep the tag when those of a name lose it. */
  function Untagged(evals: seq<Eval>, name: string): seq<Eval> {
    if evals == [] then []
    else
      var n := |evals| - 1;
      Untagged(evals[..n], name) + if evals[n].name == name then [] else [evals[n]]
  }

  lemma CountSnoc(evals: seq<Eval>, e: Eval, o: Owner, w: Window)
    ensures Count(evals + [e], o, w) == Count(evals, o, w) + Counts(e, o, w)
  {
    assert (evals + [e])[..|evals|] == evals;
  }

  lemma {:induction false} CountUntagged(evals: seq<Eval>, name: string, o: Owner, w: Window)
    ensures Count(Untagged(evals, name), o, w) <= Count(evals, o, w)
  {
    if evals != [] {
      var n := |evals| - 1;
      CountUntagged(evals[..n], name, o, w);
      if evals[n].name != name {
        CountSnoc(Untagged(evals[..n], name), evals[n], o, w);
      } else {
        assert Untagged(evals, name) == Untagged(evals[..n], name);
      }
    }
  }

  /** A wider window counts at least as much. */
  lemma {:induction false} CountWider(evals: seq<Eval>, o: Owner, v: Window, w: Window)
    requires forall t :: v.Has(t) ==> w.Has(t)
    ensures Count(evals, o, v) <= Count(evals, o, w)
  {
    if evals != [] {
      CountWider(evals[..|evals| - 1], o, v, w);
    }
  }

  // ---------------------------------------------------------------- one pass

  /** The newest submission for each key; with several models allowed the name is part of the key. */
  function KeyOf(config: Config, s: Submission): Key {
    Key(s.owner, if config.multipleModels then Some(s.name) else None)
  }

  /** Of the submissions from index `from` on, the one at index `i` is the newest of its key, and of
      several as new the last in the list. */
  ghost predicate Newest(config: Config, all: seq<Submission>, from: nat, i: nat)
    requires from <= i < |all|
  {
    forall j | from <= j < |all| && KeyOf(config, all[j]) == KeyOf(config, all[i]) ::
      all[j].created <= all[i].created && (all[j].created == all[i].created ==> j <= i)
  }

  /** `latest` has the newest submission for every key there is. */
  ghost predicate Picks(config: Config, all: seq<Submission>, from: nat, latest: map<Key, Submission>)
    requires from <= |all|
  {
    && (forall j | from <= j < |all| :: KeyOf(config, all[j]) in latest)
    && (forall k | k in latest ::
          exists i | from <= i < |all| :: all[i] == latest[k] && KeyOf(config, all[i]) == k && Newest(config, all, from, i))
  }

  lemma PicksNext(config: Config, all: seq<Submission>, i: nat, latest: map<Key, Submission>)
    requires i < |all| && Picks(config, all, i + 1, latest)
    ensures var key := KeyOf(config, all[i]);
      Picks(config, all, i,
        if key !in latest || all[i].created > latest[key].created then latest[key := all[i]] else latest)
  {
    var key := KeyOf(config, all[i]);
    var more := if key !in latest || all[i].created > latest[key].created then latest[key := all[i]] else latest;
    forall k | k in more
      ensures exists m | i <= m < |all| :: all[m] == more[k] && KeyOf(config, all[m]) == k && Newest(config, all, i, m)
    {
      if k in latest {
        var m :| i + 1 <= m < |all| && all[m] == latest[k] && KeyOf(config, all[m]) == k && Newest(config, all, i + 1, m);
        assert k != key || more != latest || Newest(config, all, i, m);
        assert k != key ==> Newest(config, all, i, m);
      }
      assert k == key && more != latest ==> Newest(config, all, i, i);
    }
  }

  method FetchLatestSubmissions(config: Config, all: seq<Submission>) returns (latest: map<Key, Submission>)
    ensures Picks(config, all, 0, latest)
  {
    latest := map[];
    var i := |all|;
    while i > 0
      invariant 0 <= i <= |all| && Picks(config, all, i, latest)
    {
      hide Picks;
      i := i - 1;
      PicksNext(config, all, i, latest);
      var key := KeyOf(config, all[i]);
      if key !in latest || all[i].created > latest[key].created {
        latest := latest[key := all[i]];
      }
    }
  }

  /** `previous` holds the submissions already evaluated. */
  ghost predicate IdsRight(evals: seq<Eval>, previous: set<Id>) {
    forall id :: id in previous <==> exists e :: e in evals && e.source.Some? && e.source.value.submitId == id
  }

  /** `counts` has every owner's count in a window. */
  ghost predicate CountsRight(evals: seq<Eval>, counts: map<Owner, nat>, w: Window) {
    forall o :: Used(counts, o) == Count(evals, o, w)
  }

  ghost predicate IsHistory(evals: seq<Eval>, config: Config, now: int, previous: set<Id>, total: map<Owner, nat>,
                            recent: map<Owner, nat>) {
    && IdsRight(evals, previous) && CountsRight(evals, total, Always)
    && CountsRight(evals, recent, Since(now - config.period))
  }

  /** A count with zero for owners that have none. */
  function Used(counts: map<Owner, nat>, o: Owner): nat {
    if o in counts then counts[o] else 0
  }

  method FetchSubmissionHistory(config: Config, evals: seq<Eval>, now: int)
    returns (previous: set<Id>, total: map<Owner, nat>, recent: map<Owner, nat>)
    ensures IsHistory(evals, config, now, previous, total, recent)
  {
    previous, total, recent := {}, map[], map[];
    for i := 0 to |evals|
      invariant IsHistory(evals[..i], config, now, previous, total, recent)
    {
      hide IsHistory;
      var e := evals[i];
      assert evals[..i + 1] == evals[..i] + [e];
      HistorySnoc(evals[..i], e, config, now, previous, total, recent);
      if e.source.Some? {
        var o := e.source.value.submitter;
        previous := previous + {e.source.value.submitId};
        total := total[o := Used(total, o) + 1];
        if e.created > now - config.period {
          recent := recent[o := Used(recent, o) + 1];
        }
      }
    }
    assert evals[..|evals|] == evals;
  }

  lemma HistorySnoc(evals: seq<Eval>, e: Eval, config: Config, now: int, previous: set<Id>, total: map<Owner, nat>,
                    recent: map<Owner, nat>)
    requires IsHistory(evals, config, now, previous, total, recent)
    ensures e.source.None? ==> IsHistory(evals + [e], config, now, previous, total, recent)
    ensures e.source.Some? ==> var o := e.source.value.submitter;
      IsHistory(evals + [e], config, now, previous + {e.source.value.submitId}, total[o := Used(total, o) + 1],
                if e.created > now - config.period then recent[o := Used(recent, o) + 1] else recent)
  {
    hide IdsRight, CountsRight;
    IdsSnoc(evals, e, previous);
    CountsSnoc(evals, e, total, Always);
    CountsSnoc(evals, e, recent, Since(now - config.period));
  }

  lemma IdsSnoc(evals: seq<Eval>, e: Eval, previous: set<Id>)
    requires IdsRight(evals, previous)
    ensures IdsRight(evals + [e], if e.source.Some? then previous + {e.source.value.submitId} else previous)
  {
    var more := evals + [e];
    assert e in more && forall f :: f in evals ==> f in more;
    assert forall f :: f in more ==> f in evals || f == e;
  }

  lemma CountsSnoc(evals: seq<Eval>, e: Eval, counts: map<Owner, nat>, w: Window)
    requires CountsRight(evals, counts, w)
    ensures CountsRight(evals + [e],
      if e.source.Some? && w.Has(e.created) then counts[e.source.value.submitter := Used(counts, e.source.value.submitter) + 1]
      else counts, w)
  {
    forall o
      ensures Count(evals + [e], o, w) == Used(counts, o) + Counts(e, o, w)
    {
      CountSnoc(evals, e, o, w);
      assert Used(counts, o) == Count(evals, o, w);
    }
  }

  predicate Allowed(config: Config, s: Submission, owner: Owner, previous: set<Id>, total: map<Owner, nat>,
                    recent: map<Owner, nat>) {
    s.id !in previous && Used(total, owner) < config.maxTotal && Used(recent, owner) < config.maxPerPeriod
  }

  /** A submission is due when it was not evaluated before and its owner is under both quotas. */
  ghost predicate Due(config: Config, evals: seq<Eval>, now: int, s: Submission) {
    && (forall e | e in evals && e.source.Some? :: e.source.value.submitId != s.id)
    && Count(evals, s.owner, Always) < config.maxTotal
    && Count(evals, s.owner, Since(now - config.period)) < config.maxPerPeriod
  }

  lemma AllowedIsDue(config: Config, evals: seq<Eval>, now: int, previous: set<Id>, total: map<Owner, nat>,
                     recent: map<Owner, nat>, s: Submission)
    requires IsHistory(evals, config, now, previous, total, recent)
    ensures Allowed(config, s, s.owner, previous, total, recent) <==> Due(config, evals, now, s)
  {
    assert Used(total, s.owner) == Count(evals, s.owner, Always);
    assert Used(recent, s.owner) == Count(evals, s.owner, Since(now - config.period));
  }

  /** Drop what was run before or is over quota. */
  method FilterSubmissions(config: Config, latest: map<Key, Submission>, previous: set<Id>, total: map<Owner, nat>,
                           recent: map<Owner, nat>) returns (kept: map<Key, Submission>)
    ensures forall k :: k in kept <==> k in latest && Allowed(config, latest[k], k.owner, previous, total, recent)
    ensures forall k :: k in kept ==> kept[k] == latest[k]
  {
    kept := latest;
    var todo := latest.Keys;
    while todo != {}
      invariant todo <= latest.Keys
      invariant forall k :: k in kept <==>
        k in latest && (k in todo || Allowed(config, latest[k], k.owner, previous, total, recent))
      invariant forall k :: k in kept ==> kept[k] == latest[k]
      decreases |todo|
    {
      var key :| key in todo;
      todo := todo - {key};
      var bundle := latest[key];
      if bundle.id in previous {
        kept := kept - {key};
      } else if Used(total, key.owner) >= config.maxTotal {
        kept := kept - {key};
      } else if Used(recent, key.owner) >= config.maxPerPeriod {
        kept := kept - {key};
      }
    }
  }

  /** How far recording an evaluation got: an exception can come before anything happened, after
      earlier evaluations lost their tag, or after the new one was made. */
  datatype Progress = Untouched | OnlyUntagged | Recorded(raised: bool)

  class Server {
    var evals: seq<Eval>

    /** Take the tag off the evaluations of this name, then record a new one. */
    method RunEvaluation(s: Submission, created: int, progress: Progress) returns (ok: bool)
      modifies this
      ensures ok == (progress == Recorded(false))
      ensures evals == match progress
        case Untouched => old(evals)
        case OnlyUntagged => Untagged(old(evals), EvalName(s))
        case Recorded(_) => Evaluated(old(evals), s, created)
    {
      if progress.Untouched? {
        return false;
      }
      evals := Untagged(evals, EvalName(s));
      if progress.OnlyUntagged? {
        return false;
      }
      evals := evals + [Eval(Some(Source(s.id, s.owner)), EvalName(s), created)];
      ok := !progress.raised;
    }
  }

  function Evaluated(evals: seq<Eval>, s: Submission, created: int): seq<Eval> {
    Untagged(evals, EvalName(s)) + [Eval(Some(Source(s.id, s.owner)), EvalName(s), created)]
  }

  lemma CountEvaluated(evals: seq<Eval>, s: Submission, created: int, o: Owner, w: Window)
    ensures Count(Evaluated(evals, s, created), o, w)
         <= Count(evals, o, w) + if o == s.owner && w.Has(created) then 1 else 0
  {
    CountUntagged(evals, EvalName(s), o, w);
    CountSnoc(Untagged(evals, EvalName(s)), Eval(Some(Source(s.id, s.owner)), EvalName(s), created), o, w);
  }

  // ---------------------------------------------------------------- quotas

  /** No owner's counted evaluations pass the total quota, nor the period quota in any window no
      longer than the period. */
  ghost predicate WithinQuota(config: Config, evals: seq<Eval>) {
    && (forall o :: Count(evals, o, Always) <= config.maxTotal)
    && forall o, a, b :: b - a <= config.period ==> Count(evals, o, Between(a, b)) <= config.maxPerPeriod
  }

  /** `ran` tells when each owner's submission was evaluated in a pass that began with `evals`;
      every owner in it was under both quotas. */
  ghost predicate Granted(config: Config, evals: seq<Eval>, now: int, ran: map<Owner, int>) {
    forall o :: o in ran ==>
      && ran[o] >= now && Count(evals, o, Always) < config.maxTotal
      && Count(evals, o, Since(now - config.period)) < config.maxPerPeriod
  }

  /** An owner's counts grow by no more than the one evaluation of this pass. */
  ghost predicate GrownBy(before: seq<Eval>, after: seq<Eval>, ran: map<Owner, int>) {
    forall o, w :: Count(after, o, w) <= Count(before, o, w) + if o in ran && w.Has(ran[o]) then 1 else 0
  }

  lemma QuotaKept(config: Config, before: seq<Eval>, after: seq<Eval>, now: int, ran: map<Owner, int>)
    requires WithinQuota(config, before) && Granted(config, before, now, ran) && GrownBy(before, after, ran)
    ensures WithinQuota(config, after)
  {
    forall o, a, b | b - a <= config.period
      ensures Count(after, o, Between(a, b)) <= config.maxPerPeriod
    {
      assert Count(before, o, Between(a, b)) <= config.maxPerPeriod;
      if o in ran && Between(a, b).Has(ran[o]) {
        CountWider(before, o, Between(a, b), Since(now - config.period));
      }
    }
    assert forall o :: Count(before, o, Always) <= config.maxTotal;
  }

  // ---------------------------------------------------------------- one pass over the submissions

  /** The evaluations after some submissions have been run one after another. */
  function SeriesFrom(evals: seq<Eval>, ss: seq<Submission>, created: seq<int>): seq<Eval>
    requires |created| == |ss|
  {
    if ss == [] then evals
    else var n := |ss| - 1; Evaluated(SeriesFrom(evals, ss[..n], created[..n]), ss[n], created[n])
  }

  lemma SeriesSnoc(evals: seq<Eval>, ss: seq<Submission>, created: seq<int>, s: Submission, t: int)
    requires |created| == |ss|
    ensures SeriesFrom(evals, ss + [s], created + [t]) == Evaluated(SeriesFrom(evals, ss, created), s, t)
  {
    assert (ss + [s])[..|ss|] == ss && (created + [t])[..|ss|] == created;
  }

  /** The submissions that were kept, each for its key. */
  ghost predicate Keyed(config: Config, kept: map<Key, Submission>) {
    forall k :: k in kept ==> KeyOf(config, kept[k]) == k
  }

  ghost predicate DistinctKeys(config: Config, runs: seq<Submission>) {
    forall i, j :: 0 <= i < j < |runs| ==> KeyOf(config, runs[i]) != KeyOf(config, runs[j])
  }

  predicate Kept(config: Config, kept: map<Key, Submission>, s: Submission) {
    KeyOf(config, s) in kept && kept[KeyOf(config, s)] == s
  }

  /** Those of the kept submissions that were evaluated, no earlier than `now`. */
  ghost predicate RanFrom(config: Config, kept: map<Key, Submission>, runs: seq<Submission>, created: seq<int>, now: int) {
    && |created| == |runs| && (forall i :: 0 <= i < |created| ==> created[i] >= now)
    && DistinctKeys(config, runs) && forall s :: s in runs ==> Kept(config, kept, s)
  }

  lemma RanSnoc(config: Config, kept: map<Key, Submission>, runs: seq<Submission>, created: seq<int>, now: int,
                s: Submission, t: int)
    requires RanFrom(config, kept, runs, created, now) && t >= now && Kept(config, kept, s) && s !in runs
    ensures RanFrom(config, kept, runs + [s], created + [t], now)
  {
    var more := runs + [s];
    assert forall r :: r in more <==> r in runs || r == s;
    forall i | 0 <= i < |runs|
      ensures KeyOf(config, runs[i]) != KeyOf(config, s)
    {
      assert runs[i] in runs;
    }
  }

  /** Predict and evaluate each kept submission, in whatever order. A prediction may fail; an
      evaluation is made no earlier than the moment at which the history was counted, and when one
      raises the rest is not run. */
  method RunSubmissions(server: Server, config: Config, kept: map<Key, Submission>, now: int,
                        predicts: Id -> bool, evaluates: Id -> Progress)
    returns (done: bool, runs: seq<Submission>, ghost created: seq<int>, ghost broken: Option<Submission>)
    requires Keyed(config, kept)
    modifies server
    ensures RanFrom(config, kept, runs, created, now)
    ensures forall s :: s in runs ==> predicts(s.id) && evaluates(s.id).Recorded?
    ensures done <==> forall s :: Kept(config, kept, s) && predicts(s.id) ==> evaluates(s.id) == Recorded(false)
    ensures done ==> forall s :: Kept(config, kept, s) && predicts(s.id) ==> s in runs
    ensures server.evals == AfterRuns(old(server.evals), runs, created, broken)
    ensures broken.Some? ==> Kept(config, kept, broken.value) && evaluates(broken.value.id).OnlyUntagged?
  {
    runs, created, broken := [], [], None;
    var todo := kept.Keys;
    while todo != {}
      invariant todo <= kept.Keys && RanFrom(config, kept, runs, created, now)
      invariant forall s :: s in runs <==> Kept(config, kept, s) && KeyOf(config, s) !in todo && predicts(s.id)
      invariant forall s :: s in runs ==> evaluates(s.id) == Recorded(false)
      invariant broken == None && server.evals == SeriesFrom(old(server.evals), runs, created)
      decreases |todo|
    {
      hide RanFrom, Evaluated, SeriesFrom, Untagged;
      var key :| key in todo;
      var s := kept[key];
      assert Kept(config, kept, s);
      if predicts(s.id) {
        var t: int :| t >= now;
        var ok := server.RunEvaluation(s, t, evaluates(s.id));
        if evaluates(s.id).Recorded? {
          RanSnoc(config, kept, runs, created, now, s, t);
          SeriesSnoc(old(server.evals), runs, created, s, t);
          runs, created := runs + [s], created + [t];
        } else if evaluates(s.id).OnlyUntagged? {
          broken := Some(s);
        }
        if !ok {
          return false, runs, created, broken;
        }
      }
      todo := todo - {key};
    }
    done := true;
  }

  /** The evaluations when some submissions have been run, and perhaps one more has only taken tags
      away. */
  function AfterRuns(evals: seq<Eval>, runs: seq<Submission>, created: seq<int>, broken: Option<Submission>): seq<Eval>
    requires |created| == |runs|
  {
    var after := SeriesFrom(evals, runs, created);
    if broken.Some? then Untagged(after, EvalName(broken.value)) else after
  }

  /** The evaluations one fetch returns. */
  function Fetched(config: Config, evals: seq<Eval>): seq<Eval> {
    if |evals| <= config.limit then evals else evals[..config.limit]
  }

  /** The newest submission of its key, and due. */
  ghost predicate Eligible(config: Config, evals: seq<Eval>, all: seq<Submission>, now: int, s: Submission) {
    && (exists i | 0 <= i < |all| :: all[i] == s && Newest(config, all, 0, i))
    && Due(config, Fetched(config, evals), now, s)
  }

  /** What a pass may run: eligible submissions, one for each key, each at some time from `now` on. */
  ghost predicate PassRuns(config: Config, evals: seq<Eval>, all: seq<Submission>, now: int,
                           runs: seq<Submission>, created: seq<int>)
  {
    && |created| == |runs| && (forall i :: 0 <= i < |created| ==> created[i] >= now)
    && DistinctKeys(config, runs) && forall s :: s in runs ==> Eligible(config, evals, all, now, s)
  }

  lemma PickedIff(config: Config, all: seq<Submission>, latest: map<Key, Submission>, s: Submission)
    requires Picks(config, all, 0, latest)
    ensures KeyOf(config, s) in latest && latest[KeyOf(config, s)] == s <==>
      exists i | 0 <= i < |all| :: all[i] == s && Newest(config, all, 0, i)
  {
    var k := KeyOf(config, s);
    if i :| 0 <= i < |all| && all[i] == s && Newest(config, all, 0, i) {
      assert KeyOf(config, all[i]) in latest;
      var j :| 0 <= j < |all| && all[j] == latest[k] && KeyOf(config, all[j]) == k && Newest(config, all, 0, j);
      assert i == j;
    }
  }

  /** One pass: only eligible submissions are run, one for each key, and all of them whose prediction
      succeeds unless an evaluation raises. */
  method RunOnce(server: Server, config: Config, all: seq<Submission>, now: int,
                 predicts: Id -> bool, evaluates: Id -> Progress)
    returns (done: bool, runs: seq<Submission>, ghost created: seq<int>, ghost broken: Option<Submission>)
    modifies server
    ensures PassRuns(config, old(server.evals), all, now, runs, created)
    ensures forall s :: s in runs ==> predicts(s.id) && evaluates(s.id).Recorded?
    ensures done <==> forall s :: Eligible(config, old(server.evals), all, now, s) && predicts(s.id) ==>
      evaluates(s.id) == Recorded(false)
    ensures done ==> forall s :: Eligible(config, old(server.evals), all, now, s) && predicts(s.id) ==> s in runs
    ensures server.evals == AfterRuns(old(server.evals), runs, created, broken)
    ensures broken.Some? ==> evaluates(broken.value.id).OnlyUntagged?
  {
    var latest := FetchLatestSubmissions(config, all);
    ghost var before := server.evals;
    var fetched := Fetched(config, server.evals);
    var previous, total, recent := FetchSubmissionHistory(config, fetched, now);
    var kept := FilterSubmissions(config, latest, previous, total, recent);
    forall s
      ensures Kept(config, kept, s) <==> Eligible(config, before, all, now, s)
    {
      AllowedIsDue(config, fetched, now, previous, total, recent, s);
      PickedIff(config, all, latest, s);
    }
    hide Picks, Newest, Due, Allowed, IsHistory, Eligible, AfterRuns, Kept;
    done, runs, created, broken := RunSubmissions(server, config, kept, now, predicts, evaluates);
  }

  // ---------------------------------------------------------------- when the quotas hold

  lemma GrownStep(before: seq<Eval>, mid: seq<Eval>, ran: map<Owner, int>, s: Submission, created: int)
    requires GrownBy(before, mid, ran) && s.owner !in ran
    ensures GrownBy(before, Evaluated(mid, s, created), ran[s.owner := created])
  {
    forall o, w
      ensures Count(Evaluated(mid, s, created), o, w)
           <= Count(before, o, w) + if o in ran[s.owner := created] && w.Has(ran[s.owner := created][o]) then 1 else 0
    {
      CountEvaluated(mid, s, created, o, w);
      assert Count(mid, o, w) <= Count(before, o, w) + if o in ran && w.Has(ran[o]) then 1 else 0;
    }
  }

  /** When every owner's submission was evaluated. */
  ghost function RanAt(runs: seq<Submission>, created: seq<int>): map<Owner, int>
    requires |created| == |runs|
  {
    if runs == [] then map[]
    else var n := |runs| - 1; RanAt(runs[..n], created[..n])[runs[n].owner := created[n]]
  }

  ghost predicate OnePerOwner(runs: seq<Submission>) {
    forall i, j :: 0 <= i < j < |runs| ==> runs[i].owner != runs[j].owner
  }

  /** With one submission an owner, no owner's counts grow by more than one. */
  lemma {:induction false} OneEach(before: seq<Eval>, runs: seq<Submission>, created: seq<int>)
    requires |created| == |runs| && OnePerOwner(runs)
    ensures GrownBy(before, SeriesFrom(before, runs, created), RanAt(runs, created))
    ensures forall o :: o in RanAt(runs, created) ==> exists i :: 0 <= i < |runs| && runs[i].owner == o && created[i] == RanAt(runs, created)[o]
  {
    hide GrownBy, Evaluated;
    if runs == [] {
      NothingGrown(before);
    } else {
      var n := |runs| - 1;
      OneEach(before, runs[..n], created[..n]);
      var ran := RanAt(runs[..n], created[..n]);
      forall o | o in ran
        ensures o != runs[n].owner && exists i :: 0 <= i < n && runs[i].owner == o && created[i] == ran[o]
      {
        var i :| 0 <= i < n && runs[..n][i].owner == o && created[..n][i] == ran[o];
        assert runs[i].owner == o && created[i] == ran[o];
      }
      GrownStep(before, SeriesFrom(before, runs[..n], created[..n]), ran, runs[n], created[n]);
    }
  }

  lemma NothingGrown(evals: seq<Eval>)
    ensures GrownBy(evals, evals, map[])
  {
  }

  lemma RunIsDue(config: Config, evals: seq<Eval>, all: seq<Submission>, now: int,
                 runs: seq<Submission>, created: seq<int>, i: nat)
    requires |evals| <= config.limit && PassRuns(config, evals, all, now, runs, created) && i < |runs|
    ensures created[i] >= now && Count(evals, runs[i].owner, Always) < config.maxTotal
    ensures Count(evals, runs[i].owner, Since(now - config.period)) < config.maxPerPeriod
  {
    hide DistinctKeys, Newest, Count;
    assert runs[i] in runs;
    assert Eligible(config, evals, all, now, runs[i]);
  }

  lemma OwnerGranted(config: Config, evals: seq<Eval>, all: seq<Submission>, now: int,
                     runs: seq<Submission>, created: seq<int>, o: Owner)
    requires |evals| <= config.limit && PassRuns(config, evals, all, now, runs, created) && OnePerOwner(runs)
    requires o in RanAt(runs, created)
    ensures RanAt(runs, created)[o] >= now && Count(evals, o, Always) < config.maxTotal
    ensures Count(evals, o, Since(now - config.period)) < config.maxPerPeriod
  {
    OneEach(evals, runs, created);
    var i :| 0 <= i < |runs| && runs[i].owner == o && created[i] == RanAt(runs, created)[o];
    hide *;
    RunIsDue(config, evals, all, now, runs, created, i);
  }

  lemma PassGranted(config: Config, evals: seq<Eval>, all: seq<Submission>, now: int,
                    runs: seq<Submission>, created: seq<int>)
    requires |evals| <= config.limit && PassRuns(config, evals, all, now, runs, created) && OnePerOwner(runs)
    ensures Granted(config, evals, now, RanAt(runs, created))
  {
    assert |created| == |runs|;
    hide PassRuns, OnePerOwner, Count, RanAt;
    forall o | o in RanAt(runs, created)
      ensures RanAt(runs, created)[o] >= now && Count(evals, o, Always) < config.maxTotal
      ensures Count(evals, o, Since(now - config.period)) < config.maxPerPeriod
    {
      OwnerGranted(config, evals, all, now, runs, created, o);
    }
  }

  /** A pass with one submission an owner keeps the quotas. */
  lemma OneEachKeeps(config: Config, evals: seq<Eval>, all: seq<Submission>, now: int,
                     runs: seq<Submission>, created: seq<int>)
    requires WithinQuota(config, evals) && |evals| <= config.limit
    requires PassRuns(config, evals, all, now, runs, created) && OnePerOwner(runs)
    ensures WithinQuota(config, SeriesFrom(evals, runs, created))
  {
    hide WithinQuota, GrownBy, SeriesFrom, RanAt, Granted;
    OneEach(evals, runs, created);
    PassGranted(config, evals, all, now, runs, created);
    QuotaKept(config, evals, SeriesFrom(evals, runs, created), now, RanAt(runs, created));
  }

  /** The smaller of the quotas that can be passed: without a period of any length no window has
      anything in it. */
  function Tightest(config: Config): nat {
    if config.period > 0 && config.maxPerPeriod < config.maxTotal then config.maxPerPeriod else config.maxTotal
  }

  /** Every pass from a history within the quotas keeps them, with everything that is fetched within
      the limit of a fetch. */
  ghost predicate KeepsQuota(config: Config) {
    forall evals, all, now, runs, created ::
      WithinQuota(config, evals) && |evals| <= config.limit && |all| <= config.limit
      && PassRuns(config, evals, all, now, runs, created) ==>
        WithinQuota(config, SeriesFrom(evals, runs, created))
  }

  /** What a configuration must be like for that. */
  predicate QuotaSafe(config: Config) {
    || !config.multipleModels || config.maxTotal == 0 || config.maxPerPeriod == 0
    || config.limit < 2 || 2 * config.limit <= Tightest(config)
  }

  /** The quotas are kept by every pass exactly when only one model an owner is allowed, or a quota is
      zero, or so little is fetched that no owner can get past the smaller quota. */
  lemma QuotaExactly(config: Config)
    ensures KeepsQuota(config) <==> QuotaSafe(config)
  {
    if QuotaSafe(config) {
      forall evals, all, now, runs, created |
        WithinQuota(config, evals) && |evals| <= config.limit && |all| <= config.limit
        && PassRuns(config, evals, all, now, runs, created)
        ensures WithinQuota(config, SeriesFrom(evals, runs, created))
      {
        SafePass(config, evals, all, now, runs, created);
      }
    } else {
      var evals, all := ModelsShareNoQuota(config);
      var created := Zeros(|all|);
      assert PassRuns(config, evals, all, 0, all, created) && !WithinQuota(config, SeriesFrom(evals, all, created));
    }
  }

  lemma RunsDistinct(config: Config, runs: seq<Submission>)
    requires DistinctKeys(config, runs)
    ensures NoDup(runs)
  {
    forall i, j | 0 <= i < j < |runs|
      ensures runs[i] != runs[j]
    {
      assert KeyOf(config, runs[i]) != KeyOf(config, runs[j]);
    }
  }

  lemma RunsFit(config: Config, evals: seq<Eval>, all: seq<Submission>, now: int,
                runs: seq<Submission>, created: seq<int>)
    requires PassRuns(config, evals, all, now, runs, created)
    ensures |runs| <= |all|
  {
    RunsDistinct(config, runs);
    assert forall s :: s in runs ==> Eligible(config, evals, all, now, s) && s in all;
    NoDupSize(runs);
    assert Elems(runs) <= Elems(all);
    SubsetSize(Elems(runs), Elems(all));
    ElemsSize(all);
  }

  lemma SinglePass(config: Config, evals: seq<Eval>, all: seq<Submission>, now: int,
                   runs: seq<Submission>, created: seq<int>)
    requires !config.multipleModels || config.maxTotal == 0 || config.maxPerPeriod == 0
    requires WithinQuota(config, evals) && |evals| <= config.limit
    requires PassRuns(config, evals, all, now, runs, created)
    ensures WithinQuota(config, SeriesFrom(evals, runs, created))
  {
    hide WithinQuota, Newest, Fetched;
    if !config.multipleModels {
      assert forall i :: 0 <= i < |runs| ==> KeyOf(config, runs[i]).owner == runs[i].owner;
      OneEachKeeps(config, evals, all, now, runs, created);
    } else {
      assert forall s :: !Due(config, Fetched(config, evals), now, s);
      assert forall s :: s in runs ==> Eligible(config, evals, all, now, s);
      RunsDistinct(config, runs);
      NoDupSize(runs);
      assert Elems(runs) == {};
    }
  }

  lemma SafePass(config: Config, evals: seq<Eval>, all: seq<Submission>, now: int,
                 runs: seq<Submission>, created: seq<int>)
    requires QuotaSafe(config) && WithinQuota(config, evals) && |evals| <= config.limit && |all| <= config.limit
    requires PassRuns(config, evals, all, now, runs, created)
    ensures WithinQuota(config, SeriesFrom(evals, runs, created))
  {
    RunsFit(config, evals, all, now, runs, created);
    hide WithinQuota, Newest, Fetched;
    if !config.multipleModels || config.maxTotal == 0 || config.maxPerPeriod == 0 {
      SinglePass(config, evals, all, now, runs, created);
    } else if config.limit < 2 {
      OneEachKeeps(config, evals, all, now, runs, created);
    } else {
      FewEnough(config, evals, runs, created);
    }
  }

  lemma {:induction false} CountBound(evals: seq<Eval>, o: Owner, w: Window)
    ensures Count(evals, o, w) <= |evals|
  {
    if evals != [] {
      CountBound(evals[..|evals| - 1], o, w);
    }
  }

  lemma {:induction false} SeriesBound(evals: seq<Eval>, runs: seq<Submission>, created: seq<int>, o: Owner, w: Window)
    requires |created| == |runs|
    ensures Count(SeriesFrom(evals, runs, created), o, w) <= Count(evals, o, w) + |runs|
  {
    if runs != [] {
      var n := |runs| - 1;
      SeriesBound(evals, runs[..n], created[..n], o, w);
      CountEvaluated(SeriesFrom(evals, runs[..n], created[..n]), runs[n], created[n], o, w);
    }
  }

  lemma {:induction false} EmptyWindow(evals: seq<Eval>, o: Owner, a: int, b: int)
    requires b <= a
    ensures Count(evals, o, Between(a, b)) == 0
  {
    if evals != [] {
      EmptyWindow(evals[..|evals| - 1], o, a, b);
    }
  }

  lemma FewEnough(config: Config, evals: seq<Eval>, runs: seq<Submission>, created: seq<int>)
    requires |created| == |runs| <= config.limit && |evals| <= config.limit && 2 * config.limit <= Tightest(config)
    ensures WithinQuota(config, SeriesFrom(evals, runs, created))
  {
    var after := SeriesFrom(evals, runs, created);
    hide SeriesFrom, Count;
    forall o, w
      ensures Count(after, o, w) <= Tightest(config)
    {
      SeriesBound(evals, runs, created, o, w);
      CountBound(evals, o, w);
    }
    forall o, a, b | b - a <= config.period
      ensures Count(after, o, Between(a, b)) <= config.maxPerPeriod
    {
      if config.period <= 0 {
        EmptyWindow(after, o, a, b);
      }
    }
  }

  function Names(ss: seq<Submission>): set<string> {
    set s | s in ss :: EvalName(s)
  }

  lemma {:induction false} UntaggedNames(evals: seq<Eval>, name: string)
    ensures forall e :: e in Untagged(evals, name) <==> e in evals && e.name != name
    ensures DistinctNames(evals) ==> DistinctNames(Untagged(evals, name))
  {
    if evals != [] {
      var n := |evals| - 1;
      UntaggedNames(evals[..n], name);
      assert evals == evals[..n] + [evals[n]];
    }
  }

  ghost predicate DistinctNames(evals: seq<Eval>) {
    forall i, j :: 0 <= i < j < |evals| ==> evals[i].name != evals[j].name
  }

  /** The names of an owner's evaluations. */
  function NamesOf(evals: seq<Eval>, o: Owner): set<string> {
    set e | e in evals && Counts(e, o, Always) == 1 :: e.name
  }

  lemma NamesSnoc(evals: seq<Eval>, e: Eval, o: Owner)
    ensures NamesOf(evals + [e], o) == NamesOf(evals, o) + if Counts(e, o, Always) == 1 then {e.name} else {}
  {
    var more := evals + [e];
    hide Counts;
    assert forall f :: f in more <==> f in evals || f == e;
  }

  lemma LastIsNew(evals: seq<Eval>, e: Eval, o: Owner)
    requires DistinctNames(evals + [e])
    ensures DistinctNames(evals) && e.name !in NamesOf(evals, o)
  {
    var more := evals + [e];
    assert forall i :: 0 <= i < |evals| ==> more[i] == evals[i];
    forall f | f in evals
      ensures f.name != e.name
    {
      var i :| 0 <= i < |evals| && evals[i] == f;
      assert more[i].name != more[|evals|].name;
    }
  }

  lemma {:induction false} NamesSize(evals: seq<Eval>, o: Owner)
    requires DistinctNames(evals)
    ensures Count(evals, o, Always) == |NamesOf(evals, o)|
  {
    if evals == [] {
      assert NamesOf(evals, o) == {};
    } else {
      var n := |evals| - 1;
      assert evals == evals[..n] + [evals[n]];
      LastIsNew(evals[..n], evals[n], o);
      NamesSnoc(evals[..n], evals[n], o);
      hide DistinctNames, NamesOf;
      NamesSize(evals[..n], o);
    }
  }

  /** The names of an owner after one more run, whoever's it is. */
  function NamesAfter(names: set<string>, s: Submission, o: Owner): set<string> {
    names - {EvalName(s)} + if s.owner == o then {EvalName(s)} else {}
  }

  /** An evaluation takes the place of those of its name, whoever they count for. */
  lemma EvaluatedNames(evals: seq<Eval>, s: Submission, created: int, o: Owner)
    requires DistinctNames(evals)
    ensures DistinctNames(Evaluated(evals, s, created))
    ensures NamesOf(Evaluated(evals, s, created), o) == NamesAfter(NamesOf(evals, o), s, o)
  {
    var kept, after := Untagged(evals, EvalName(s)), Evaluated(evals, s, created);
    UntaggedNames(evals, EvalName(s));
    hide Untagged, EvalName;
    var last := after[|kept|];
    assert last in after && forall e :: e in after <==> e in kept || e == last;
    forall name | name in NamesAfter(NamesOf(evals, o), s, o)
      ensures name in NamesOf(after, o)
    {
      if name != EvalName(s) {
        var e :| e in evals && Counts(e, o, Always) == 1 && e.name == name;
        assert e in after;
      }
    }
  }

  /** No later submission has the evaluation name of this one. */
  ghost predicate LastOfName(ss: seq<Submission>, i: nat)
    requires i < |ss|
  {
    forall j :: i < j < |ss| ==> EvalName(ss[j]) != EvalName(ss[i])
  }

  /** The evaluation names whose last submission is this owner's. */
  ghost function LastNames(ss: seq<Submission>, o: Owner): set<string> {
    set i | 0 <= i < |ss| && ss[i].owner == o && LastOfName(ss, i) :: EvalName(ss[i])
  }

  lemma LastNamesSnoc(ss: seq<Submission>, s: Submission, o: Owner)
    ensures LastNames(ss + [s], o) == NamesAfter(LastNames(ss, o), s, o)
  {
    hide EvalName;
    var more := ss + [s];
    forall name | name in LastNames(more, o)
      ensures name in NamesAfter(LastNames(ss, o), s, o)
    {
      var i :| 0 <= i < |more| && more[i].owner == o && LastOfName(more, i) && EvalName(more[i]) == name;
      if i < |ss| {
        assert EvalName(more[|ss|]) != EvalName(more[i]);
        forall j | i < j < |ss|
          ensures EvalName(ss[j]) != EvalName(ss[i])
        {
          assert EvalName(more[j]) != EvalName(more[i]);
        }
        assert LastOfName(ss, i);
      }
    }
    forall name | name in NamesAfter(LastNames(ss, o), s, o)
      ensures name in LastNames(more, o)
    {
      if name == EvalName(s) {
        assert LastOfName(more, |ss|) && more[|ss|].owner == o;
      } else {
        var i :| 0 <= i < |ss| && ss[i].owner == o && LastOfName(ss, i) && EvalName(ss[i]) == name;
        assert LastOfName(more, i) && more[i].owner == o;
      }
    }
  }

  lemma {:induction false} SeriesNames(ss: seq<Submission>, created: seq<int>, o: Owner)
    requires |created| == |ss|
    ensures DistinctNames(SeriesFrom([], ss, created)) && NamesOf(SeriesFrom([], ss, created), o) == LastNames(ss, o)
  {
    if ss == [] {
      assert LastNames(ss, o) == {};
    } else {
      hide *;
      var n := |ss| - 1;
      SeriesNames(ss[..n], created[..n], o);
      EvaluatedNames(SeriesFrom([], ss[..n], created[..n]), ss[n], created[n], o);
      LastNamesSnoc(ss[..n], ss[n], o);
      SeriesSnoc([], ss[..n], created[..n], ss[n], created[n]);
      assert ss == ss[..n] + [ss[n]] && created == created[..n] + [created[n]];
    }
  }

  /** What counts for an owner is neither the submissions run nor the names they were run under, but
      the names whose last run, among those of all owners, was this owner's: each run takes the tag
      off the earlier evaluations of its name, and two owners can share a name. */
  lemma CountIsLastNames(ss: seq<Submission>, created: seq<int>, o: Owner)
    requires |created| == |ss|
    ensures Count(SeriesFrom([], ss, created), o, Always) == |LastNames(ss, o)|
  {
    SeriesNames(ss, created, o);
    NamesSize(SeriesFrom([], ss, created), o);
  }

  lemma {:induction false} LastNamesOfOne(ss: seq<Submission>, o: Owner)
    requires forall s :: s in ss ==> s.owner == o
    ensures LastNames(ss, o) == Names(ss)
  {
    if ss == [] {
      assert LastNames(ss, o) == {} == Names(ss);
    } else {
      var n := |ss| - 1;
      assert ss == ss[..n] + [ss[n]];
      LastNamesOfOne(ss[..n], o);
      LastNamesSnoc(ss[..n], ss[n], o);
    }
  }

  /** For one owner alone that is the number of distinct names. */
  lemma CountIsDistinctNames(ss: seq<Submission>, created: seq<int>, o: Owner)
    requires |created| == |ss| && forall s :: s in ss ==> s.owner == o
    ensures Count(SeriesFrom([], ss, created), o, Always) == |Names(ss)|
  {
    CountIsLastNames(ss, created, o);
    LastNamesOfOne(ss, o);
  }

  /** How many of the submissions are an owner's. */
  function RunsOf(ss: seq<Submission>, o: Owner): nat {
    if ss == [] then 0 else RunsOf(ss[..|ss| - 1], o) + if ss[|ss| - 1].owner == o then 1 else 0
  }

  /** None of an owner's submissions is followed by one of its evaluation name. */
  ghost predicate NeverReplaced(ss: seq<Submission>, o: Owner) {
    forall i, j :: 0 <= i < j < |ss| && ss[i].owner == o ==> EvalName(ss[i]) != EvalName(ss[j])
  }

  lemma ReplacedSnoc(ss: seq<Submission>, s: Submission, o: Owner)
    ensures NeverReplaced(ss + [s], o) <==> NeverReplaced(ss, o) && EvalName(s) !in LastNames(ss, o)
  {
    hide EvalName;
    var more := ss + [s];
    assert forall i :: 0 <= i < |ss| ==> more[i] == ss[i];
    if NeverReplaced(more, o) {
      assert forall i, j :: 0 <= i < j < |ss| ==> more[i] == ss[i] && more[j] == ss[j];
      assert forall i :: 0 <= i < |ss| && ss[i].owner == o ==> EvalName(more[i]) != EvalName(more[|ss|]);
    }
    if NeverReplaced(ss, o) && EvalName(s) !in LastNames(ss, o) {
      forall i | 0 <= i < |ss| && ss[i].owner == o
        ensures EvalName(ss[i]) != EvalName(s)
      {
        assert LastOfName(ss, i);
        assert EvalName(ss[i]) in LastNames(ss, o);
      }
    }
  }

  lemma NamesAfterSize(names: set<string>, s: Submission, o: Owner)
    ensures |NamesAfter(names, s, o)|
         == |names| - (if EvalName(s) in names then 1 else 0) + if s.owner == o then 1 else 0
  {
    var name := EvalName(s);
    hide EvalName;
    assert |names - {name}| == |names| - if name in names then 1 else 0;
  }

  lemma {:induction false} LastNamesAtMost(ss: seq<Submission>, o: Owner)
    ensures |LastNames(ss, o)| <= RunsOf(ss, o)
    ensures |LastNames(ss, o)| == RunsOf(ss, o) <==> NeverReplaced(ss, o)
  {
    if ss == [] {
      assert LastNames(ss, o) == {};
    } else {
      var n := |ss| - 1;
      var s, before := ss[n], LastNames(ss[..n], o);
      assert ss == ss[..n] + [s];
      LastNamesAtMost(ss[..n], o);
      LastNamesSnoc(ss[..n], s, o);
      ReplacedSnoc(ss[..n], s, o);
      NamesAfterSize(before, s, o);
      hide LastNames, NeverReplaced, EvalName, NamesAfter;
    }
  }

  /** The count is the number of an owner's runs exactly when none of them is followed by a run, by
      whatever owner, of the same evaluation name. */
  lemma CountsRunsExactly(ss: seq<Submission>, created: seq<int>, o: Owner)
    requires |created| == |ss|
    ensures Count(SeriesFrom([], ss, created), o, Always) <= RunsOf(ss, o)
    ensures Count(SeriesFrom([], ss, created), o, Always) == RunsOf(ss, o) <==>
      forall i, j :: 0 <= i < j < |ss| && ss[i].owner == o ==> EvalName(ss[i]) != EvalName(ss[j])
  {
    CountIsLastNames(ss, created, o);
    LastNamesAtMost(ss, o);
  }

  // ---------------------------------------------------------------- several models an owner

  /** One owner's submission of its `i`-th model. */
  function Model(i: nat): Submission {
    Submission(seq(i, _ => 'a'), "", "", seq(i, _ => 'a'), 0)
  }

  function Models(from: nat, n: nat): (ss: seq<Submission>)
    ensures |ss| == n && forall i :: 0 <= i < n ==> ss[i] == Model(from + i)
  {
    seq(n, i requires 0 <= i < n => Model(from + i))
  }

  function Zeros(n: nat): (t: seq<int>)
    ensures |t| == n && forall i :: 0 <= i < n ==> t[i] == 0
  {
    seq(n, _ => 0)
  }

  /** The evaluations of the first `n` models. */
  ghost function Made(n: nat): seq<Eval> {
    SeriesFrom([], Models(0, n), Zeros(n))
  }

  function ModelEval(i: nat): Eval {
    Eval(Some(Source(Model(i).id, "")), EvalName(Model(i)), 0)
  }

  lemma NamesDiffer(i: nat, j: nat)
    requires i != j
    ensures EvalName(Model(i)) != EvalName(Model(j)) && Model(i).id != Model(j).id && Model(i).name != Model(j).name
  {
    assert |Model(i).id| == i && |Model(j).id| == j;
    assert |EvalName(Model(i))| == i + 9 && |EvalName(Model(j))| == j + 9;
  }

  lemma {:induction false} UntaggedAbsent(evals: seq<Eval>, name: string)
    requires forall e :: e in evals ==> e.name != name
    ensures Untagged(evals, name) == evals
  {
    if evals != [] {
      UntaggedAbsent(evals[..|evals| - 1], name);
    }
  }

  lemma MadeNext(n: nat)
    ensures Made(n + 1) == Evaluated(Made(n), Model(n), 0)
  {
    assert Models(0, n + 1) == Models(0, n) + [Model(n)] && Zeros(n + 1) == Zeros(n) + [0];
    SeriesSnoc([], Models(0, n), Zeros(n), Model(n), 0);
  }

  ghost predicate AllModels(evals: seq<Eval>, n: nat) {
    |evals| == n && forall i :: 0 <= i < n ==> evals[i] == ModelEval(i)
  }

  lemma ModelNamed(i: nat, j: nat)
    requires i != j
    ensures ModelEval(i).name != EvalName(Model(j))
  {
    NamesDiffer(i, j);
  }

  lemma NextModel(evals: seq<Eval>, n: nat)
    requires AllModels(evals, n)
    ensures AllModels(Evaluated(evals, Model(n), 0), n + 1)
  {
    assert ModelEval(n) == Eval(Some(Source(Model(n).id, "")), EvalName(Model(n)), 0) && Model(n).owner == "";
    hide ModelEval, Model, EvalName;
    forall e | e in evals
      ensures e.name != EvalName(Model(n))
    {
      var i :| 0 <= i < n && evals[i] == e;
      ModelNamed(i, n);
    }
    UntaggedAbsent(evals, EvalName(Model(n)));
    hide Untagged;
  }

  /** Models with different names all keep their evaluations. */
  lemma {:induction false} MadeIs(n: nat)
    ensures |Made(n)| == n && forall i :: 0 <= i < n ==> Made(n)[i] == ModelEval(i)
  {
    if n > 0 {
      MadeIs(n - 1);
      MadeNext(n - 1);
      hide Made, Evaluated, ModelEval, Model;
      NextModel(Made(n - 1), n - 1);
    }
  }

  lemma MadeGrows(n: nat)
    ensures Made(n + 1) == Made(n) + [ModelEval(n)]
  {
    MadeIs(n);
    MadeIs(n + 1);
    hide Made, ModelEval;
  }

  lemma ModelCounts(i: nat, o: Owner, w: Window)
    ensures Counts(ModelEval(i), o, w) == if o == "" && w.Has(0) then 1 else 0
  {
  }

  lemma {:induction false} MadeCount(n: nat, o: Owner, w: Window)
    ensures Count(Made(n), o, w) == if o == "" && w.Has(0) then n else 0
  {
    if n > 0 {
      MadeCount(n - 1, o, w);
      MadeGrows(n - 1);
      ModelCounts(n - 1, o, w);
      hide *;
      CountSnoc(Made(n - 1), ModelEval(n - 1), o, w);
    }
  }

  lemma {:induction false} MadeOn(c: nat, k: nat)
    ensures SeriesFrom(Made(c), Models(c, k), Zeros(k)) == Made(c + k)
  {
    hide Made, Evaluated;
    if k > 0 {
      MadeOn(c, k - 1);
      MadeNext(c + k - 1);
      assert Models(c, k) == Models(c, k - 1) + [Model(c + k - 1)] && Zeros(k) == Zeros(k - 1) + [0];
      SeriesSnoc(Made(c), Models(c, k - 1), Zeros(k - 1), Model(c + k - 1), 0);
    }
  }

  lemma MadeWithin(config: Config, c: nat)
    requires c <= Tightest(config)
    ensures WithinQuota(config, Made(c))
  {
    forall o
      ensures Count(Made(c), o, Always) <= config.maxTotal
    {
      MadeCount(c, o, Always);
    }
    forall o, a, b | b - a <= config.period
      ensures Count(Made(c), o, Between(a, b)) <= config.maxPerPeriod
    {
      MadeCount(c, o, Between(a, b));
    }
  }

  lemma MadeBeyond(config: Config, n: nat)
    requires n > Tightest(config)
    ensures !WithinQuota(config, Made(n))
  {
    MadeCount(n, "", Always);
    MadeCount(n, "", Between(-1, 0));
    if config.period > 0 && config.maxPerPeriod < config.maxTotal {
      assert Count(Made(n), "", Between(-1, 0)) > config.maxPerPeriod && 0 - (-1) <= config.period;
    }
  }

  lemma ModelDue(config: Config, c: nat, i: nat)
    requires c < Tightest(config) && config.maxPerPeriod > 0 && c <= config.limit && c <= i
    ensures Due(config, Fetched(config, Made(c)), 0, Model(i))
  {
    MadeIs(c);
    MadeCount(c, "", Always);
    MadeCount(c, "", Since(0 - config.period));
    hide Made, EvalName;
    forall e | e in Made(c) && e.source.Some?
      ensures e.source.value.submitId != Model(i).id
    {
      var j :| 0 <= j < c && Made(c)[j] == e;
      NamesDiffer(j, i);
    }
  }

  /** With several models an owner each model is checked against the same history before any of them
      runs: some pass of one owner's models, all eligible, takes the owner past a quota. */
  lemma ModelsShareNoQuota(config: Config) returns (evals: seq<Eval>, all: seq<Submission>)
    requires !QuotaSafe(config)
    ensures WithinQuota(config, evals) && |evals| <= config.limit && |all| <= config.limit
    ensures PassRuns(config, evals, all, 0, all, Zeros(|all|))
    ensures !WithinQuota(config, SeriesFrom(evals, all, Zeros(|all|)))
  {
    hide Made, WithinQuota, PassRuns, SeriesFrom, Models, Zeros;
    var m := Tightest(config);
    var c := if config.limit < m - 1 then config.limit else m - 1;
    var k := m + 1 - c;
    evals, all := Made(c), Models(c, k);
    MadeIs(c);
    MadeWithin(config, c);
    MadeOn(c, k);
    MadeBeyond(config, c + k);
    ModelsRun(config, c, k);
  }

  lemma ModelsApart(config: Config, c: nat, i: nat, j: nat)
    requires config.multipleModels && i != j
    ensures KeyOf(config, Model(c + i)) != KeyOf(config, Model(c + j))
  {
    NamesDiffer(c + i, c + j);
  }

  lemma ModelNewest(config: Config, c: nat, k: nat, i: nat)
    requires config.multipleModels && i < k
    ensures Newest(config, Models(c, k), 0, i)
  {
    forall j | 0 <= j < k && j != i
      ensures KeyOf(config, Models(c, k)[j]) != KeyOf(config, Models(c, k)[i])
    {
      ModelsApart(config, c, i, j);
    }
  }

  lemma ModelsRun(config: Config, c: nat, k: nat)
    requires config.multipleModels && c < Tightest(config) && config.maxPerPeriod > 0 && c <= config.limit
    ensures PassRuns(config, Made(c), Models(c, k), 0, Models(c, k), Zeros(k))
  {
    var all := Models(c, k);
    hide Made, EvalName, Due, Newest, KeyOf, Model;
    forall i, j | 0 <= i < j < |all|
      ensures KeyOf(config, all[i]) != KeyOf(config, all[j])
    {
      ModelsApart(config, c, i, j);
    }
    forall s | s in all
      ensures Eligible(config, Made(c), all, 0, s)
    {
      var i :| 0 <= i < |all| && all[i] == s;
      ModelDue(config, c, c + i);
      ModelNewest(config, c, k, i);
    }
  }

  /** However many submissions a fetch may return, every pass from a history within the quotas keeps
      them exactly when only one model an owner is allowed or a quota is zero. */
  lemma QuotaUnlimited(config: Config)
    ensures KeepsQuotaUnlimited(config) <==> !config.multipleModels || config.maxTotal == 0 || config.maxPerPeriod == 0
  {
    if !config.multipleModels || config.maxTotal == 0 || config.maxPerPeriod == 0 {
      forall evals, all, now, runs, created |
        WithinQuota(config, evals) && |evals| <= config.limit && PassRuns(config, evals, all, now, runs, created)
        ensures WithinQuota(config, SeriesFrom(evals, runs, created))
      {
        SinglePass(config, evals, all, now, runs, created);
      }
    } else {
      var n := Tightest(config) + 1;
      ModelsRun(config, 0, n);
      MadeWithin(config, 0);
      MadeOn(0, n);
      MadeBeyond(config, n);
      MadeIs(0);
      hide WithinQuota, PassRuns, Made, SeriesFrom, Models, Zeros;
      assert PassRuns(config, Made(0), Models(0, n), 0, Models(0, n), Zeros(n))
        && !WithinQuota(config, SeriesFrom(Made(0), Models(0, n), Zeros(n)));
    }
  }

  ghost predicate KeepsQuotaUnlimited(config: Config) {
    forall evals, all, now, runs, created ::
      WithinQuota(config, evals) && |evals| <= config.limit && PassRuns(config, evals, all, now, runs, created) ==>
        WithinQuota(config, SeriesFrom(evals, runs, created))
  }

  // ---------------------------------------------------------------- all passes

  /** A pass with everything that is fetched within the limit of a fetch; it may have been cut short. */
  ghost predicate Pass(config: Config, before: seq<Eval>, after: seq<Eval>) {
    exists all, now, runs, created, broken ::
      |before| <= config.limit && |all| <= config.limit && PassRuns(config, before, all, now, runs, created)
      && after == AfterRuns(before, runs, created, broken)
  }

  /** Between passes evaluations may lose their tag or their source, and others may appear that
      count for nobody. */
  ghost predicate Tampered(before: seq<Eval>, after: seq<Eval>) {
    GrownBy(before, after, map[])
  }

  lemma TamperedKeeps(config: Config, before: seq<Eval>, after: seq<Eval>)
    requires WithinQuota(config, before) && Tampered(before, after)
    ensures WithinQuota(config, after)
  {
    QuotaKept(config, before, after, 0, map[]);
  }

  lemma PassKeeps(config: Config, before: seq<Eval>, after: seq<Eval>)
    requires QuotaSafe(config) && WithinQuota(config, before) && Pass(config, before, after)
    ensures WithinQuota(config, after)
  {
    hide WithinQuota, GrownBy, SeriesFrom, Eligible;
    var all, now, runs, created, broken :|
      |before| <= config.limit && |all| <= config.limit && PassRuns(config, before, all, now, runs, created)
      && after == AfterRuns(before, runs, created, broken);
    SafePass(config, before, all, now, runs, created);
    if broken.Some? {
      UntaggingTampers(SeriesFrom(before, runs, created), EvalName(broken.value));
      TamperedKeeps(config, SeriesFrom(before, runs, created), after);
    }
  }

  lemma UntaggingTampers(evals: seq<Eval>, name: string)
    ensures Tampered(evals, Untagged(evals, name))
  {
    forall o, w
      ensures Count(Untagged(evals, name), o, w) <= Count(evals, o, w)
    {
      CountUntagged(evals, name, o, w);
    }
  }

  /** With such a configuration, through any number of passes and whatever is done to evaluations in
      between, no owner's counted evaluations pass the total quota, nor the period quota in any
      window. */
  lemma {:induction false} QuotaOverPasses(config: Config, states: seq<seq<Eval>>, n: nat)
    requires QuotaSafe(config) && n < |states| && states[0] == []
    requires forall i :: 0 < i < |states| ==> Pass(config, states[i - 1], states[i]) || Tampered(states[i - 1], states[i])
    ensures WithinQuota(config, states[n])
  {
    hide Pass, Tampered;
    if n > 0 {
      QuotaOverPasses(config, states, n - 1);
      assert Pass(config, states[n - 1], states[n]) || Tampered(states[n - 1], states[n]);
      hide WithinQuota;
      if Pass(config, states[n - 1], states[n]) {
        PassKeeps(config, states[n - 1], states[n]);
      } else {
        TamperedKeeps(config, states[n - 1], states[n]);
      }
    }
  }

  // ---------------------------------------------------------------- how many runs a quota allows

  /** What one pass saw and did: the submissions fetched, the moment the history was counted, the
      submissions run with their evaluations' times, and one that only took tags away. */
  datatype Round = Round(all: seq<Submission>, now: int, runs: seq<Submission>, created: seq<int>,
                         broken: Option<Submission>)

  type Record = r: Round | |r.created| == |r.runs| witness Round([], 0, [], [], None)

  /** The evaluations after some passes, beginning with none. */
  ghost function AfterRounds(rounds: seq<Record>): seq<Eval> {
    if rounds == [] then []
    else
      var n := |rounds| - 1;
      AfterRuns(AfterRounds(rounds[..n]), rounds[n].runs, rounds[n].created, rounds[n].broken)
  }

  /** One pass from a history that fits a fetch. */
  ghost predicate RoundRuns(config: Config, before: seq<Eval>, r: Record) {
    && |before| <= config.limit && |r.all| <= config.limit
    && PassRuns(config, before, r.all, r.now, r.runs, r.created)
  }

  /** Passes one after another, no history counted before an earlier one. */
  ghost predicate Rounds(config: Config, rounds: seq<Record>) {
    rounds != [] ==>
      var n := |rounds| - 1;
      && Rounds(config, rounds[..n]) && RoundRuns(config, AfterRounds(rounds[..n]), rounds[n])
      && (n > 0 ==> rounds[n - 1].now <= rounds[n].now)
  }

  /** Everything that was run. */
  ghost function AllRuns(rounds: seq<Record>): seq<Submission> {
    if rounds == [] then [] else AllRuns(rounds[..|rounds| - 1]) + rounds[|rounds| - 1].runs
  }

  /** The limit as documented: whatever passes there are, no owner gets more runs than that. */
  ghost predicate LimitsRuns(config: Config) {
    forall rounds: seq<Record>, o :: Rounds(config, rounds) ==> RunsOf(AllRuns(rounds), o) <= config.maxTotal
  }

  lemma NothingEligible(config: Config, before: seq<Eval>, r: Record)
    requires config.maxTotal == 0 || config.maxPerPeriod == 0 || config.limit == 0
    requires RoundRuns(config, before, r)
    ensures r.runs == []
  {
    RunsFit(config, before, r.all, r.now, r.runs, r.created);
    hide Newest, Fetched;
    assert config.limit > 0 ==> forall s :: !Due(config, Fetched(config, before), r.now, s);
    assert forall s :: s in r.runs ==> Eligible(config, before, r.all, r.now, s);
    RunsDistinct(config, r.runs);
    NoDupSize(r.runs);
    assert Elems(r.runs) == {};
  }

  lemma {:induction false} NothingRun(config: Config, rounds: seq<Record>)
    requires config.maxTotal == 0 || config.maxPerPeriod == 0 || config.limit == 0
    requires Rounds(config, rounds)
    ensures AllRuns(rounds) == []
  {
    if rounds != [] {
      var n := |rounds| - 1;
      NothingRun(config, rounds[..n]);
      NothingEligible(config, AfterRounds(rounds[..n]), rounds[n]);
    }
  }

  /** The `i`-th of a series of new submissions by two owners in turn, a user `a-b` with models `c` and
      a user `a` with models `b-c`. */
  function Turn(i: nat): Submission {
    if i % 2 == 0 then Submission(seq(i, _ => 'a'), "first", "a-b", "c", i)
    else Submission(seq(i, _ => 'a'), "second", "a", "b-c", i)
  }

  function TurnEval(i: nat): Eval {
    Eval(Some(Source(Turn(i).id, Turn(i).owner)), "a-b-c-results", i)
  }

  lemma TurnsShareName(i: nat)
    ensures EvalName(Turn(i)) == "a-b-c-results"
  {
    assert "a-b" + "-" + "c" + "-results" == "a-b-c-results" == "a" + "-" + "b-c" + "-results";
  }

  /** All of them so far, newest first, as far as the fetch goes. */
  function TurnList(limit: nat, i: nat): (all: seq<Submission>)
    ensures |all| <= limit && forall j :: 0 <= j < |all| ==> j <= i && all[j] == Turn(i - j)
    ensures limit > 0 ==> |all| > 0
  {
    seq(if limit <= i then limit else i + 1, j requires 0 <= j <= i => Turn(i - j))
  }

  function TurnRound(limit: nat, i: nat): Record {
    Round(TurnList(limit, i), i, [Turn(i)], [i], None)
  }

  ghost function Turns(limit: nat, n: nat): (rounds: seq<Record>)
    ensures |rounds| == n && forall i :: 0 <= i < n ==> rounds[i] == TurnRound(limit, i)
  {
    seq(n, i requires 0 <= i < n => TurnRound(limit, i))
  }

  lemma TurnsSnoc(limit: nat, n: nat)
    ensures Turns(limit, n + 1) == Turns(limit, n) + [TurnRound(limit, n)]
  {
    hide TurnRound;
  }

  /** Each takes the place of the one before. */
  lemma TurnReplaces(i: nat, before: seq<Eval>)
    requires before == if i == 0 then [] else [TurnEval(i - 1)]
    ensures SeriesFrom(before, [Turn(i)], [i]) == [TurnEval(i)]
  {
    TurnsShareName(i);
    SeriesSnoc(before, [], [], Turn(i), i);
    assert Untagged(before, "a-b-c-results") == [];
  }

  lemma TurnDue(config: Config, i: nat, before: seq<Eval>)
    requires config.maxTotal > 0 && config.maxPerPeriod > 0
    requires before == if i == 0 then [] else [TurnEval(i - 1)]
    ensures Due(config, before, i, Turn(i))
  {
    if i > 0 {
      var o := Turn(i).owner;
      assert Turn(i - 1).owner != o;
      assert |Turn(i - 1).id| == i - 1 && |Turn(i).id| == i;
      assert Turn(i - 1).id != Turn(i).id;
      hide Turn;
      CountSnoc([], TurnEval(i - 1), o, Always);
      CountSnoc([], TurnEval(i - 1), o, Since(i - config.period));
      assert [] + [TurnEval(i - 1)] == before;
    }
  }

  /** And is due, since nothing counts for its owner. */
  lemma TurnRuns(config: Config, i: nat, before: seq<Eval>)
    requires config.maxTotal > 0 && config.maxPerPeriod > 0 && config.limit > 0
    requires before == if i == 0 then [] else [TurnEval(i - 1)]
    ensures RoundRuns(config, before, TurnRound(config.limit, i))
  {
    var all := TurnList(config.limit, i);
    TurnDue(config, i, before);
    hide Due;
    assert all[0] == Turn(i) && Newest(config, all, 0, 0) by {
      hide KeyOf;
      assert forall j :: 0 < j < |all| ==> all[j].created == i - j;
    }
  }

  lemma {:induction false} TurnsRun(config: Config, n: nat)
    requires config.maxTotal > 0 && config.maxPerPeriod > 0 && config.limit > 0
    ensures Rounds(config, Turns(config.limit, n))
    ensures AfterRounds(Turns(config.limit, n)) == if n == 0 then [] else [TurnEval(n - 1)]
  {
    if n > 0 {
      TurnsRun(config, n - 1);
      var before := Turns(config.limit, n - 1);
      TurnsSnoc(config.limit, n - 1);
      assert Turns(config.limit, n)[..n - 1] == before;
      TurnRuns(config, n - 1, AfterRounds(before));
      TurnReplaces(n - 1, AfterRounds(before));
      hide RoundRuns, SeriesFrom, TurnEval;
    }
  }

  lemma RunsSnoc(ss: seq<Submission>, s: Submission, o: Owner)
    ensures RunsOf(ss + [s], o) == RunsOf(ss, o) + if s.owner == o then 1 else 0
  {
    assert (ss + [s])[..|ss|] == ss;
  }

  lemma TurnsAll(limit: nat, n: nat)
    ensures AllRuns(Turns(limit, n + 1)) == AllRuns(Turns(limit, n)) + [Turn(n)]
  {
    TurnsSnoc(limit, n);
    assert Turns(limit, n + 1)[..n] == Turns(limit, n);
    hide Turn, TurnList;
  }

  lemma {:induction false} TurnsCount(limit: nat, n: nat)
    ensures RunsOf(AllRuns(Turns(limit, n)), "first") == (n + 1) / 2
  {
    if n > 0 {
      TurnsCount(limit, n - 1);
      TurnsAll(limit, n - 1);
      RunsSnoc(AllRuns(Turns(limit, n - 1)), Turn(n - 1), "first");
      hide RunsOf, AllRuns, Turns;
    }
  }

  /** The total quota limits what an owner runs only if it lets nobody run anything: as soon as it,
      the other quota and the fetch let one submission through, two owners whose evaluations have one
      name run without end, since neither's ever count. */
  lemma TotalLimitsExactly(config: Config)
    ensures LimitsRuns(config) <==> config.maxTotal == 0 || config.maxPerPeriod == 0 || config.limit == 0
  {
    if config.maxTotal == 0 || config.maxPerPeriod == 0 || config.limit == 0 {
      forall rounds: seq<Record>, o | Rounds(config, rounds)
        ensures RunsOf(AllRuns(rounds), o) <= config.maxTotal
      {
        NothingRun(config, rounds);
      }
    } else {
      var n := 2 * config.maxTotal + 1;
      TurnsRun(config, n);
      TurnsCount(config.limit, n);
      var rounds := Turns(config.limit, n);
      assert Rounds(config, rounds) && RunsOf(AllRuns(rounds), "first") > config.maxTotal;
    }
  }

  lemma {:induction false} SeriesOnward(evals: seq<Eval>, ss: seq<Submission>, s: seq<int>, more: seq<Submission>, t: seq<int>)
    requires |s| == |ss| && |t| == |more|
    ensures SeriesFrom(SeriesFrom(evals, ss, s), more, t) == SeriesFrom(evals, ss + more, s + t)
  {
    hide Evaluated;
    if more == [] {
      assert ss + more == ss && s + t == s;
    } else {
      var n := |more| - 1;
      SeriesOnward(evals, ss, s, more[..n], t[..n]);
      SeriesSnoc(evals, ss + more[..n], s + t[..n], more[n], t[n]);
      assert ss + more == ss + more[..n] + [more[n]] && s + t == s + t[..n] + [t[n]];
    }
  }

  /** Passes none of which was cut short leave the evaluations of everything run, in turn. */
  lemma {:induction false} RoundsAreSeries(rounds: seq<Record>) returns (created: seq<int>)
    requires forall r :: r in rounds ==> r.broken.None?
    ensures |created| == |AllRuns(rounds)| && AfterRounds(rounds) == SeriesFrom([], AllRuns(rounds), created)
  {
    if rounds == [] {
      created := [];
    } else {
      var n := |rounds| - 1;
      var before := RoundsAreSeries(rounds[..n]);
      created := before + rounds[n].created;
      hide SeriesFrom;
      SeriesOnward([], AllRuns(rounds[..n]), before, rounds[n].runs, rounds[n].created);
    }
  }

  lemma {:induction false} RoundsKeep(config: Config, rounds: seq<Record>)
    requires QuotaSafe(config) && Rounds(config, rounds)
    ensures WithinQuota(config, AfterRounds(rounds))
  {
    if rounds != [] {
      var n := |rounds| - 1;
      var r := rounds[n];
      RoundsKeep(config, rounds[..n]);
      hide WithinQuota, AfterRuns, PassRuns, QuotaSafe;
      assert PassRuns(config, AfterRounds(rounds[..n]), r.all, r.now, r.runs, r.created);
      PassKeeps(config, AfterRounds(rounds[..n]), AfterRounds(rounds));
    }
  }

  /** What does hold: with a safe configuration and passes that are not cut short, an owner whose runs
      are never followed by one of the same evaluation name gets no more runs than the quota says. */
  lemma NamesKeepTheLimit(config: Config, rounds: seq<Record>, o: Owner)
    requires QuotaSafe(config) && Rounds(config, rounds) && forall r :: r in rounds ==> r.broken.None?
    requires NeverReplaced(AllRuns(rounds), o)
    ensures RunsOf(AllRuns(rounds), o) <= config.maxTotal
  {
    var created := RoundsAreSeries(rounds);
    RoundsKeep(config, rounds);
    CountsRunsExactly(AllRuns(rounds), created, o);
    hide Rounds, AllRuns, AfterRounds, SeriesFrom;
    assert Count(AfterRounds(rounds), o, Always) <= config.maxTotal;
  }

  lemma {:induction false} LastIsRecorded(ss: seq<Submission>, created: seq<int>, p: nat)
    requires |created| == |ss| && p < |ss| && LastOfName(ss, p)
    ensures exists e | e in SeriesFrom([], ss, created) ::
      e.source == Some(Source(ss[p].id, ss[p].owner)) && e.name == EvalName(ss[p])
  {
    hide EvalName;
    var n := |ss| - 1;
    var before := SeriesFrom([], ss[..n], created[..n]);
    var last := Eval(Some(Source(ss[n].id, ss[n].owner)), EvalName(ss[n]), created[n]);
    assert SeriesFrom([], ss, created) == Untagged(before, EvalName(ss[n])) + [last];
    if p < n {
      assert EvalName(ss[n]) != EvalName(ss[p]);
      forall j | p < j < n
        ensures EvalName(ss[..n][j]) != EvalName(ss[..n][p])
      {
        assert EvalName(ss[j]) != EvalName(ss[p]);
      }
      LastIsRecorded(ss[..n], created[..n], p);
      var e :| e in before && e.source == Some(Source(ss[p].id, ss[p].owner)) && e.name == EvalName(ss[p]);
      UntaggedNames(before, EvalName(ss[n]));
      assert e in SeriesFrom([], ss, created);
    } else {
      assert last in SeriesFrom([], ss, created);
    }
  }

  /** A submission that was run is not run again, as long as no run of its evaluation name has followed. */
  lemma NotRunAgain(config: Config, rounds: seq<Record>, p: nat)
    requires Rounds(config, rounds) && rounds != [] && forall r :: r in rounds ==> r.broken.None?
    requires var ss := AllRuns(rounds[..|rounds| - 1]); p < |ss| && LastOfName(ss, p)
    ensures forall s :: s in rounds[|rounds| - 1].runs ==> s.id != AllRuns(rounds[..|rounds| - 1])[p].id
  {
    var n := |rounds| - 1;
    var before, r := rounds[..n], rounds[n];
    var created := RoundsAreSeries(before);
    LastIsRecorded(AllRuns(before), created, p);
    hide LastOfName, SeriesFrom, AllRuns, EvalName, Newest;
    forall s | s in r.runs
      ensures s.id != AllRuns(before)[p].id
    {
      assert Eligible(config, AfterRounds(before), r.all, r.now, s);
      assert Due(config, AfterRounds(before), r.now, s);
    }
  }
}
