/** What becomes of the quotas when more evaluations are tagged than one fetch returns. */
module CompetitionHistory {
  import opened Common
  import opened Competition

  /** Every pass from a history within the quotas keeps them, however long the history is. */
  ghost predicate KeepsQuotaAlways(config: Config) {
    forall evals, all, now, runs, created ::
      WithinQuota(config, evals) && |all| <= config.limit && PassRuns(config, evals, all, now, runs, created) ==>
        WithinQuota(config, SeriesFrom(evals, runs, created))
  }

  /** Evaluations that count for nobody. */
  function Blanks(n: nat): seq<Eval> {
    seq(n, i => Eval(None, "", 0))
  }

  lemma {:induction false} BlanksCount(n: nat, o: Owner, w: Window)
    ensures Count(Blanks(n), o, w) == 0
  {
    if n > 0 {
      BlanksCount(n - 1, o, w);
      assert Blanks(n)[..n - 1] == Blanks(n - 1);
    }
  }

  lemma {:induction false} CountAfterBlanks(n: nat, evals: seq<Eval>, o: Owner, w: Window)
    ensures Count(Blanks(n) + evals, o, w) == Count(evals, o, w)
  {
    var all := Blanks(n) + evals;
    if evals == [] {
      BlanksCount(n, o, w);
      assert all == Blanks(n);
    } else {
      var m := |evals| - 1;
      CountAfterBlanks(n, evals[..m], o, w);
      assert all[..|all| - 1] == Blanks(n) + evals[..m];
    }
  }

  /** As many blanks as a fetch returns, and evaluations of one owner's models behind them. */
  ghost function Behind(config: Config, m: nat): seq<Eval> {
    Blanks(config.limit) + Made(m)
  }

  lemma BehindWithin(config: Config, m: nat)
    ensures WithinQuota(config, Behind(config, m)) <==> WithinQuota(config, Made(m))
  {
    hide Made, Blanks;
    forall o, w
      ensures Count(Behind(config, m), o, w) == Count(Made(m), o, w)
    {
      CountAfterBlanks(config.limit, Made(m), o, w);
    }
  }

  lemma NextBehind(config: Config, m: nat)
    ensures SeriesFrom(Behind(config, m), [Model(m)], [0]) == Behind(config, m + 1)
  {
    var evals := Behind(config, m);
    MadeIs(m);
    MadeGrows(m);
    assert |EvalName(Model(m))| == m + 9;
    assert ModelEval(m) == Eval(Some(Source(Model(m).id, "")), EvalName(Model(m)), 0) && Model(m).owner == "";
    hide Made, ModelEval, Model, EvalName;
    forall e | e in evals
      ensures e.name != EvalName(Model(m))
    {
      var i :| 0 <= i < |evals| && evals[i] == e;
      if i >= config.limit {
        ModelNamed(i - config.limit, m);
      }
    }
    UntaggedAbsent(evals, EvalName(Model(m)));
    assert evals + [ModelEval(m)] == Behind(config, m + 1);
    assert [Model(m)][..0] == [] && [0][..0] == [];
    hide Untagged, Behind;
  }

  lemma DueBehind(config: Config, m: nat)
    requires config.maxTotal > 0 && config.maxPerPeriod > 0
    ensures Due(config, Fetched(config, Behind(config, m)), 0, Model(m))
  {
    MadeIs(m);
    assert Fetched(config, Behind(config, m)) == Blanks(config.limit);
    BlanksCount(config.limit, Model(m).owner, Always);
    BlanksCount(config.limit, Model(m).owner, Since(0 - config.period));
    hide Made, Count;
  }

  /** A submission passes the filter although its owner is at a quota. */
  lemma Forgotten(config: Config)
    requires config.maxTotal > 0 && config.maxPerPeriod > 0 && config.limit > 0
    ensures var m := Tightest(config);
      && WithinQuota(config, Behind(config, m)) && PassRuns(config, Behind(config, m), [Model(m)], 0, [Model(m)], [0])
      && !WithinQuota(config, SeriesFrom(Behind(config, m), [Model(m)], [0]))
  {
    var m := Tightest(config);
    DueBehind(config, m);
    BehindWithin(config, m);
    BehindWithin(config, m + 1);
    MadeWithin(config, m);
    MadeBeyond(config, m + 1);
    NextBehind(config, m);
    assert [Model(m)][0] == Model(m);
    assert Newest(config, [Model(m)], 0, 0);
    hide WithinQuota, Behind, SeriesFrom, Due, Newest, Made, Model;
  }

  /** A pass keeps the quotas from every history within them, however long, exactly when nobody can run
      anything at all. */
  lemma LongHistoryExactly(config: Config)
    ensures KeepsQuotaAlways(config) <==> config.maxTotal == 0 || config.maxPerPeriod == 0 || config.limit == 0
  {
    hide WithinQuota;
    if config.maxTotal == 0 || config.maxPerPeriod == 0 || config.limit == 0 {
      forall evals, all, now, runs, created |
        WithinQuota(config, evals) && |all| <= config.limit && PassRuns(config, evals, all, now, runs, created)
        ensures WithinQuota(config, SeriesFrom(evals, runs, created))
      {
        assert |runs| > 0 ==> Eligible(config, evals, all, now, runs[0]);
      }
    } else {
      Forgotten(config);
      hide PassRuns, SeriesFrom, Behind, Model, Tightest;
    }
  }
}
