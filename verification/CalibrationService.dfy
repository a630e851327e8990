/** The gate as the loops that compute it: dictionaries and a reason set filled in
    place, then the comparisons, each shown to be the verdict it stands for. */
module CalibrationService {
  import opened Base
  import opened Calibration

  type Key = (Cluster, Variant)

  predicate HoldsReturns(extracted: map<Key, Returns>, t: Tables) {
    && (forall k :: k in extracted ==> k in t.keyed && NetReturns(t.keyed[k].first) == Some(extracted[k]))
    && (forall k :: k in t.keyed && NetReturns(t.keyed[k].first).Some? ==> k in extracted)
  }

  method CollectTables(evidence: seq<Evidence>) returns (t: Tables, extracted: map<Key, Returns>)
    ensures t == Fill(evidence) && HoldsReturns(extracted, t)
    ensures t.partitions.Keys == t.visibility.Keys
  {
    var reasons: set<Reason> := {};
    var keyed: map<Key, Evidence> := map[];
    var partitions: map<Cluster, Partition> := map[];
    var visibility: map<Cluster, Time> := map[];
    extracted := map[];
    for i := 0 to |evidence|
      invariant Tables(keyed, partitions, visibility, reasons) == Fill(evidence[..i])
      invariant HoldsReturns(extracted, Tables(keyed, partitions, visibility, reasons))
      invariant partitions.Keys == visibility.Keys
    {
      var e := evidence[i];
      ghost var before := Tables(keyed, partitions, visibility, reasons);
      FillNext(evidence, i);
      if e.Key() in keyed {
        reasons := reasons + {DuplicateVariant(e.cluster, e.variant)};
      } else {
        keyed := keyed[e.Key() := e];
        if e.cluster !in partitions { partitions := partitions[e.cluster := e.partition]; }
        if partitions[e.cluster] != e.partition { reasons := reasons + {CrossesPartitions(e.cluster)}; }
        if e.cluster !in visibility { visibility := visibility[e.cluster := e.visibleAt]; }
        if visibility[e.cluster] != e.visibleAt { reasons := reasons + {VisibilityMismatch(e.cluster)}; }
        var own := OwnReasons(e);
        reasons := reasons + own;
        var net := NetReturns(e.first);
        if net.Some? { extracted := extracted[e.Key() := net.value]; }
        assert Tables(keyed, partitions, visibility, reasons) == Add(before, e);
      }
    }
    TakeAll(evidence);
    t := Tables(keyed, partitions, visibility, reasons);
  }

  lemma {:induction false} FillNext(evidence: seq<Evidence>, i: nat)
    requires i < |evidence|
    ensures Fill(evidence[..i + 1]) == Add(Fill(evidence[..i]), evidence[i])
  {
    var next := evidence[..i + 1];
    assert next[..|next| - 1] == evidence[..i] && next[|next| - 1] == evidence[i];
  }

  method ValidateRepeatPair(e: Evidence) returns (reasons: set<Reason>)
    ensures reasons == RepeatReasons(e)
  {
    var c, v := e.cluster, e.variant;
    reasons := {};
    if !e.first.completed || !e.repeated.completed { reasons := reasons + {NonCompletedRepeat(c, v)}; }
    if e.first.requestHash != e.repeated.requestHash { reasons := reasons + {RepeatRequestMismatch(c, v)}; }
    if e.first.resultHash != e.repeated.resultHash || e.first.metrics != e.repeated.metrics {
      reasons := reasons + {NondeterministicRepeat(c, v)};
    }
    if e.first.run == e.repeated.run { reasons := reasons + {RepeatRunReused(c, v)}; }
    if e.first.executedAt == e.repeated.executedAt { reasons := reasons + {RepeatTimeReused(c, v)}; }
  }

  method OwnReasons(e: Evidence) returns (reasons: set<Reason>)
    ensures reasons == ItemReasons(e)
  {
    var c, v := e.cluster, e.variant;
    reasons := ValidateRepeatPair(e);
    ghost var pair := reasons;
    var a, b := e.first.request, e.repeated.request;
    if a.event != c || b.event != c { reasons := reasons + {EventIdentityMismatch(c, v)}; }
    assert reasons == pair + When(a.event != c || b.event != c, EventIdentityMismatch(c, v));
    if a.asOf != e.visibleAt || b.asOf != e.visibleAt { reasons := reasons + {AsOfMismatch(c, v)}; }
    ghost var timed := reasons;
    if a.horizons != HORIZONS { reasons := reasons + {HorizonsMissing(c, v)}; }
    assert reasons == timed + When(a.horizons != HORIZONS, HorizonsMissing(c, v));
    if v == EventReasoning && a.manualFixture { reasons := reasons + {ManualFixture(c)}; }
    if NetReturns(e.first).None? { reasons := reasons + {MetricsMissing(c, v)}; }
  }

  method LatestVisibility(t: Tables, cs: seq<Cluster>) returns (latest: Time, ghost at: Cluster)
    requires cs != [] && forall c :: c in cs ==> c in t.visibility
    ensures at in cs && t.visibility[at] == latest
    ensures forall c :: c in cs ==> t.visibility[c] <= latest
  {
    latest, at := t.visibility[cs[0]], cs[0];
    for i := 1 to |cs|
      invariant at in cs && t.visibility[at] == latest
      invariant forall k :: 0 <= k < i ==> t.visibility[cs[k]] <= latest
    {
      if latest < t.visibility[cs[i]] { latest, at := t.visibility[cs[i]], cs[i]; }
    }
  }

  method EarliestVisibility(t: Tables, cs: seq<Cluster>) returns (earliest: Time, ghost at: Cluster)
    requires cs != [] && forall c :: c in cs ==> c in t.visibility
    ensures at in cs && t.visibility[at] == earliest
    ensures forall c :: c in cs ==> earliest <= t.visibility[c]
  {
    earliest, at := t.visibility[cs[0]], cs[0];
    for i := 1 to |cs|
      invariant at in cs && t.visibility[at] == earliest
      invariant forall k :: 0 <= k < i ==> earliest <= t.visibility[cs[k]]
    {
      if t.visibility[cs[i]] < earliest { earliest, at := t.visibility[cs[i]], cs[i]; }
    }
  }

  /** The latest training event against the earliest test event. */
  method WalkForwardFails(t: Tables, train: seq<Cluster>, test: seq<Cluster>) returns (fails: bool)
    requires t.partitions.Keys == t.visibility.Keys
    requires forall c :: c in train <==> c in ClustersIn(t, Train)
    requires forall c :: c in test <==> c in ClustersIn(t, Test)
    ensures fails <==> WalkForwardBroken(t)
  {
    if train == [] || test == [] {
      NoneOnOneSide(t, train, test);
      return false;
    }
    var latest, a := LatestVisibility(t, train);
    var earliest, b := EarliestVisibility(t, test);
    fails := latest >= earliest;
    if fails { assert a in ClustersIn(t, Train) && b in ClustersIn(t, Test); }
  }

  lemma {:induction false} NoneOnOneSide(t: Tables, train: seq<Cluster>, test: seq<Cluster>)
    requires forall c :: c in train <==> c in ClustersIn(t, Train)
    requires forall c :: c in test <==> c in ClustersIn(t, Test)
    requires train == [] || test == []
    ensures !WalkForwardBroken(t)
  {
  }

  method CollectClusterReasons(t: Tables, cs: seq<Cluster>) returns (reasons: set<Reason>)
    ensures reasons == ClusterReasons(t, cs)
  {
    reasons := {};
    for i := 0 to |cs|
      invariant reasons == ClusterReasons(t, cs[..i])
    {
      assert cs[..i + 1][..i] == cs[..i];
      var missing := Missing(t, cs[i]);
      if missing != {} {
        reasons := reasons + {MissingVariants(cs[i], missing)};
      } else if !Comparable(t, cs[i]) {
        reasons := reasons + {IncomparableWindows(cs[i])};
      }
    }
    TakeAll(cs);
  }

  /** The returns of one variant over the clusters, unless one is missing. */
  method CollectValues(cs: seq<Cluster>, v: Variant, extracted: map<Key, Returns>, ghost t: Tables)
    returns (values: Option<seq<real>>)
    requires HoldsReturns(extracted, t)
    ensures values == VariantValues(t, cs, v)
    ensures values.Some? ==> values.value != []
  {
    var found: seq<real> := [];
    for i := 0 to |cs|
      invariant AllPresent(t, cs[..i], v) && found == Values(t, cs[..i], v) && |found| == 3 * i
    {
      if (cs[i], v) !in extracted {
        assert ReturnsFor(t, cs[i], v).None? && cs[i] in cs;
        return None;
      }
      var r := extracted[(cs[i], v)];
      TakeNext(cs, i);
      assert cs[..i + 1][..i] == cs[..i];
      found := found + [r.one, r.three, r.ten];
    }
    TakeAll(cs);
    values := if found != [] then Some(found) else None;
  }

  method CollectContributions(cs: seq<Cluster>, extracted: map<Key, Returns>, ghost t: Tables)
    returns (contributions: seq<real>)
    requires HoldsReturns(extracted, t)
    ensures contributions == Contributions(t, cs)
  {
    contributions := [];
    for i := 0 to |cs|
      invariant contributions == Contributions(t, cs[..i])
    {
      assert cs[..i + 1][..i] == cs[..i];
      if (cs[i], EventReasoning) in extracted {
        contributions := contributions + [Contribution(extracted[(cs[i], EventReasoning)])];
      }
    }
    TakeAll(cs);
  }

  method CollectStrategyReasons(t: Tables) returns (reasons: set<Reason>)
    ensures reasons == set v | v in VARIANTS && 1 < |Strategies(t, v)| :: StrategyChanged(v)
  {
    reasons := {};
    for i := 0 to |VARIANTS|
      invariant reasons == set v | v in VARIANTS[..i] && 1 < |Strategies(t, v)| :: StrategyChanged(v)
    {
      TakeNext(VARIANTS, i);
      if 1 < |Strategies(t, VARIANTS[i])| { reasons := reasons + {StrategyChanged(VARIANTS[i])}; }
    }
    TakeAll(VARIANTS);
  }

  method BeatenBaselines(test: seq<Cluster>, candidate: Option<seq<real>>, extracted: map<Key, Returns>, ghost t: Tables)
    returns (beaten: set<Variant>)
    requires HoldsReturns(extracted, t) && candidate == VariantValues(t, test, EventReasoning)
    requires candidate.Some? ==> candidate.value != []
    ensures beaten == set v | v in BASELINES && Beats(t, test, v)
  {
    beaten := {};
    if candidate.None? { return; }
    for i := 0 to |BASELINES|
      invariant beaten == set v | v in BASELINES[..i] && Beats(t, test, v)
    {
      TakeNext(BASELINES, i);
      var values := CollectValues(test, BASELINES[i], extracted, t);
      if values.Some? && Mean(candidate.value) > Mean(values.value) { beaten := beaten + {BASELINES[i]}; }
    }
    TakeAll(BASELINES);
  }

  method AssessPhase2Calibration(evidence: seq<Evidence>) returns (report: Report)
    ensures report == Assess(evidence)
  {
    var t, extracted := CollectTables(evidence);
    var train, test := Sorted(ClustersIn(t, Train)), Sorted(ClustersIn(t, Test));
    var broken := WalkForwardFails(t, train, test);
    var candidate := CollectValues(test, EventReasoning, extracted, t);
    var mean := if candidate.Some? then Some(Mean(candidate.value)) else None;
    var beaten := BeatenBaselines(test, candidate, extracted, t);
    var contributions := CollectContributions(test, extracted, t);
    var share := Share(contributions);
    var gate := CollectGateReasons(t, train, test, broken, mean, beaten, share);
    var reasons := t.reasons + gate;
    var core := Core(reasons == {}, HashRows(evidence), train, test, beaten, mean, share, reasons);
    report := Report(core, core);
  }

  /** The reasons about how much evidence there is and when. */
  method CollectCoverageReasons(train: seq<Cluster>, test: seq<Cluster>, broken: bool) returns (reasons: set<Reason>)
    ensures reasons == When(|train| < 2, InsufficientTrain) + When(|test| < 3, InsufficientTest)
      + When(broken, WalkForwardInvalid)
  {
    reasons := {};
    if |train| < 2 { reasons := reasons + {InsufficientTrain}; }
    if |test| < 3 { reasons := reasons + {InsufficientTest}; }
    if broken { reasons := reasons + {WalkForwardInvalid}; }
  }

  /** The reasons about what the candidate earned. */
  method CollectReturnReasons(mean: Option<real>, beaten: set<Variant>, share: Option<real>)
    returns (reasons: set<Reason>)
    ensures reasons == When(mean.None? || mean.value <= 0.0, CandidateNotPositive)
      + When(beaten == {}, NoBaselineBeaten) + When(share.None? || HALF < share.value, DominanceNotCleared)
  {
    reasons := {};
    if mean.None? || mean.value <= 0.0 { reasons := reasons + {CandidateNotPositive}; }
    if beaten == {} { reasons := reasons + {NoBaselineBeaten}; }
    if share.None? || HALF < share.value { reasons := reasons + {DominanceNotCleared}; }
  }

  method CollectGateReasons(
      t: Tables, train: seq<Cluster>, test: seq<Cluster>, broken: bool, mean: Option<real>,
      beaten: set<Variant>, share: Option<real>)
    returns (reasons: set<Reason>)
    requires broken <==> WalkForwardBroken(t)
    requires mean == MeanFor(t, test, EventReasoning) && share == Share(Contributions(t, test))
    requires beaten == set v | v in BASELINES && Beats(t, test, v)
    ensures reasons == GateReasons(t, train, test)
  {
    var byCoverage := CollectCoverageReasons(train, test, broken);
    var changed := CollectStrategyReasons(t);
    var byCluster := CollectClusterReasons(t, train + test);
    NoneBeaten(t, test, beaten);
    var byReturn := CollectReturnReasons(mean, beaten, share);
    reasons := byCoverage + changed + byCluster + byReturn;
  }

  lemma {:induction false} NoneBeaten(t: Tables, test: seq<Cluster>, beaten: set<Variant>)
    requires beaten == set v | v in BASELINES && Beats(t, test, v)
    ensures beaten == {} <==> forall v :: v in BASELINES ==> !Beats(t, test, v)
  {
    if beaten == {} {
      forall v | v in BASELINES ensures !Beats(t, test, v) { assert v !in beaten; }
    }
  }
}
