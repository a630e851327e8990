/** Evidence that the calibration gate accepts: two training and three test clusters,
    one a day, in which event reasoning alone earns anything. */
module CalibrationSample {
  import opened Base
  import opened Calibration
  import opened CalibrationGate
  import opened CalibrationMeaning
  import opened CalibrationVerdict

  function Earned(v: Variant): real {
    if v == EventReasoning then 1.0 else 0.0
  }

  function Outcome(c: Cluster, v: Variant, run: Id, at: Time): Result {
    Result(true, Request(c, c, HORIZONS, Rank(v), false, 0), 5 * c + Rank(v), 5 * c + Rank(v), run, at,
      [Metric(NetReturn(1), true, Earned(v)), Metric(NetReturn(3), true, Earned(v)), Metric(NetReturn(10), true, Earned(v))], 0)
  }

  function Sample(c: Cluster, v: Variant): Evidence {
    Evidence(c, c, if c < 2 then Train else Test, v, Outcome(c, v, 1, 1), Outcome(c, v, 2, 2))
  }

  function SampleAt(i: nat): Evidence {
    Sample(i / 5, VARIANTS[i % 5])
  }

  const SAMPLES: seq<Evidence> := seq(25, i requires 0 <= i < 25 => SampleAt(i))

  lemma {:induction false} VariantsDiffer(i: nat, j: nat)
    requires i < 5 && j < 5 && VARIANTS[i] == VARIANTS[j]
    ensures i == j
  {
    assert VARIANTS[0].EventReasoning? && VARIANTS[1].Sentiment? && VARIANTS[2].Momentum?;
    assert VARIANTS[3].FixedMapping? && VARIANTS[4].SimpleHold?;
  }

  lemma {:induction false} SamplesAreConsistent()
    ensures Consistent(SAMPLES)
  {
    forall i, j | 0 <= i < j < 25 ensures Compatible(SampleAt(i), SampleAt(j)) {
      if i / 5 == j / 5 && VARIANTS[i % 5] == VARIANTS[j % 5] { VariantsDiffer(i % 5, j % 5); }
    }
  }

  lemma {:induction false} EverySampleIsThere(c: Cluster, v: Variant)
    requires c < 5
    ensures Sample(c, v) in SAMPLES
  {
    EveryVariantListed(v);
    var k :| 0 <= k < 5 && VARIANTS[k] == v;
    assert (5 * c + k) / 5 == c && (5 * c + k) % 5 == k;
    assert SampleAt(5 * c + k) == Sample(c, v) && SAMPLES[5 * c + k] == SampleAt(5 * c + k);
  }

  lemma {:induction false} SampleIsClear(c: Cluster, v: Variant)
    ensures ItemReasons(Sample(c, v)) == {} && NetReturns(Sample(c, v).first) == Some(Returns(Earned(v), Earned(v), Earned(v)))
  {
    var ms := Outcome(c, v, 1, 1).metrics;
    assert LastMetric(ms, NetReturn(10)) == Some(ms[2]);
    assert LastMetric(ms[..2], NetReturn(3)) == Some(ms[1]);
    assert ms[..2][..1] == ms[..1] && LastMetric(ms[..1], NetReturn(1)) == Some(ms[0]);
  }

  ghost predicate KeyedAsSamples(m: map<(Cluster, Variant), Evidence>) {
    forall c: Cluster, v :: ((c, v) in m <==> c < 5) && ((c, v) in m ==> m[(c, v)] == Sample(c, v))
  }

  ghost predicate FiledAsSamples(partitions: map<Cluster, Partition>, visibility: map<Cluster, Time>) {
    && (forall c: Cluster :: (c in partitions <==> c < 5) && (c in visibility <==> c < 5))
    && (forall c: Cluster :: c in partitions ==> partitions[c] == if c < 2 then Train else Test)
    && (forall c: Cluster :: c in visibility ==> visibility[c] == c)
  }

  lemma {:induction false} OnlySamples(e: Evidence)
    requires e in SAMPLES
    ensures e.cluster < 5 && e == Sample(e.cluster, e.variant)
  {
    var i :| 0 <= i < |SAMPLES| && SAMPLES[i] == e;
    assert SAMPLES[i] == SampleAt(i) && i / 5 < 5;
    assert SampleAt(i).cluster == i / 5 && SampleAt(i).variant == VARIANTS[i % 5];
  }

  lemma {:induction false} NoSampleReasons()
    ensures Fill(SAMPLES).reasons == {}
  {
    SamplesAreConsistent();
    ConsistentIsCoherent(SAMPLES);
    CoherentIsDescribed(SAMPLES);
    var t := Fill(SAMPLES);
    forall r | r in t.reasons ensures false {
      assert !Repeats(SAMPLES, r);
      var e :| e in SAMPLES && r in ItemReasons(e);
      OnlySamples(e);
      SampleIsClear(e.cluster, e.variant);
    }
  }

  lemma {:induction false} SamplesAreKeyed(m: map<(Cluster, Variant), Evidence>)
    requires KeysEvidence(m, SAMPLES)
    ensures KeyedAsSamples(m)
  {
    forall c: Cluster, v ensures ((c, v) in m <==> c < 5) && ((c, v) in m ==> m[(c, v)] == Sample(c, v)) {
      if (c, v) in m { OnlySamples(m[(c, v)]); }
      if c < 5 {
        EverySampleIsThere(c, v);
        assert Sample(c, v).Key() == (c, v);
      }
    }
  }

  lemma {:induction false} SamplesAreFiled(t: Tables)
    requires Describes(t, SAMPLES)
    ensures FiledAsSamples(t.partitions, t.visibility)
  {
    forall c: Cluster
      ensures (c in t.partitions <==> c < 5) && (c in t.visibility <==> c < 5)
      ensures c in t.partitions ==> t.partitions[c] == if c < 2 then Train else Test
      ensures c in t.visibility ==> t.visibility[c] == c
    {
      if c in t.partitions || c in t.visibility {
        var e :| e in SAMPLES && e.cluster == c;
        OnlySamples(e);
      }
      if c < 5 {
        EverySampleIsThere(c, EventReasoning);
        ItsClusterIsFiled(t, SAMPLES, Sample(c, EventReasoning));
      }
    }
  }

  // ---- its verdicts --------------------------------------------------------------------------

  /** Clusters of the sample. */
  predicate Filed(cs: seq<Cluster>) {
    forall i :: 0 <= i < |cs| ==> cs[i] < 5
  }

  lemma {:induction false} SampleClusters(t: Tables)
    requires FiledAsSamples(t.partitions, t.visibility)
    ensures ClustersIn(t, Train) == {0, 1} && ClustersIn(t, Test) == {2, 3, 4} && !WalkForwardBroken(t)
  {
  }

  lemma {:induction false} OneStrategyEach(t: Tables, v: Variant)
    requires KeyedAsSamples(t.keyed)
    ensures |Strategies(t, v)| <= 1
  {
    forall k | k in t.keyed && k.1 == v ensures t.keyed[k].first.request.strategy == Rank(v) {
      assert k == (k.0, v);
    }
    assert Strategies(t, v) <= {Rank(v)};
    FewMembers(Strategies(t, v), Rank(v));
  }

  lemma {:induction false} FewMembers(s: set<Id>, x: Id)
    requires s <= {x}
    ensures |s| <= 1
  {
    if x in s { assert s == {x}; } else { assert s == {}; }
  }

  lemma {:induction false} SampleClusterCompares(t: Tables, c: Cluster)
    requires KeyedAsSamples(t.keyed) && c < 5
    ensures ClusterReason(t, c) == {}
  {
    assert Missing(t, c) == {};
    forall v | v in VARIANTS ensures SameWindow(t, c, v) {
      assert (c, v) in t.keyed && (c, EventReasoning) in t.keyed;
    }
  }

  lemma {:induction false} SampleClustersCompare(t: Tables, cs: seq<Cluster>)
    requires KeyedAsSamples(t.keyed) && Filed(cs)
    ensures ClusterReasons(t, cs) == {}
  {
    if cs != [] {
      SampleClustersCompare(t, cs[..|cs| - 1]);
      SampleClusterCompares(t, cs[|cs| - 1]);
    }
  }

  lemma {:induction false} SampleReturns(t: Tables, c: Cluster, v: Variant)
    requires KeyedAsSamples(t.keyed) && c < 5
    ensures ReturnsFor(t, c, v) == Some(Returns(Earned(v), Earned(v), Earned(v)))
  {
    SampleIsClear(c, v);
    assert (c, v) in t.keyed;
  }

  lemma {:induction false} SampleValues(t: Tables, cs: seq<Cluster>, v: Variant)
    requires KeyedAsSamples(t.keyed) && Filed(cs)
    ensures AllPresent(t, cs, v)
    ensures |Values(t, cs, v)| == 3 * |cs| && SumOf(Values(t, cs, v)) == ((3 * |cs|) as real) * Earned(v)
  {
    forall c | c in cs ensures ReturnsFor(t, c, v).Some? { SampleReturns(t, c, v); }
    if cs != [] {
      SplitLast(cs);
      var last := cs[|cs| - 1];
      assert last in cs;
      SampleReturns(t, last, v);
      SampleValues(t, cs[..|cs| - 1], v);
      AddThree(Values(t, cs[..|cs| - 1], v), Earned(v), Earned(v), Earned(v));
    }
  }

  lemma {:induction false} SameRatio(n: real, x: real)
    requires n != 0.0
    ensures (n * x) / n == x
  {
  }

  lemma {:induction false} MeanOfEquals(values: seq<real>, x: real)
    requires values != [] && SumOf(values) == (|values| as real) * x
    ensures Mean(values) == x
  {
    SameRatio(|values| as real, x);
  }

  lemma {:induction false} SampleMean(t: Tables, cs: seq<Cluster>, v: Variant)
    requires KeyedAsSamples(t.keyed) && cs != [] && Filed(cs)
    ensures MeanFor(t, cs, v) == Some(Earned(v))
  {
    SampleValues(t, cs, v);
    MeanOfEquals(Values(t, cs, v), Earned(v));
  }

  lemma {:induction false} SampleContributions(t: Tables, cs: seq<Cluster>)
    requires KeyedAsSamples(t.keyed) && Filed(cs)
    ensures |Contributions(t, cs)| == |cs| && forall x :: x in Contributions(t, cs) ==> x == 3.0
    ensures SumOf(Contributions(t, cs)) == 3.0 * (|cs| as real)
  {
    if cs != [] {
      SplitLast(cs);
      var front, last := cs[..|cs| - 1], cs[|cs| - 1];
      assert last in cs;
      SampleReturns(t, last, EventReasoning);
      SampleContributions(t, front);
      AddOne(Contributions(t, front), 3.0);
    }
  }

  lemma {:induction false} SampleShare(t: Tables, cs: seq<Cluster>)
    requires KeyedAsSamples(t.keyed) && |cs| == 3 && Filed(cs)
    ensures var share := Share(Contributions(t, cs)); share.Some? && share.value <= HALF
  {
    SampleContributions(t, cs);
    MostIsAMember(Contributions(t, cs));
  }

  lemma {:induction false} SortedAreFiled(r: seq<nat>, s: set<nat>)
    requires (forall x :: x in r <==> x in s) && forall x :: x in s ==> x < 5
    ensures Filed(r)
  {
    forall i | 0 <= i < |r| ensures r[i] < 5 { assert r[i] in r; }
  }

  lemma {:induction false} NoStrategyChanged(t: Tables)
    requires KeyedAsSamples(t.keyed)
    ensures (set v | v in VARIANTS && 1 < |Strategies(t, v)| :: StrategyChanged(v)) == {}
  {
    forall v | v in VARIANTS ensures |Strategies(t, v)| <= 1 { OneStrategyEach(t, v); }
  }

  lemma {:induction false} AllBaselinesBeaten(t: Tables, test: seq<Cluster>)
    requires KeyedAsSamples(t.keyed) && test != [] && Filed(test)
    ensures forall v :: v in BASELINES ==> Beats(t, test, v)
    ensures (set v | v in BASELINES && Beats(t, test, v)) == {Sentiment, Momentum, FixedMapping, SimpleHold}
  {
    SampleMean(t, test, EventReasoning);
    forall v | v in BASELINES ensures Beats(t, test, v) { SampleMean(t, test, v); }
    assert BASELINES[0] == Sentiment && BASELINES[1] == Momentum && BASELINES[2] == FixedMapping && BASELINES[3] == SimpleHold;
  }

  lemma {:induction false} SampleGate(t: Tables, train: seq<Cluster>, test: seq<Cluster>)
    requires KeyedAsSamples(t.keyed) && |train| == 2 && |test| == 3 && Filed(train) && Filed(test) && !WalkForwardBroken(t)
    ensures GateReasons(t, train, test) == {}
  {
    NoStrategyChanged(t);
    SampleClustersCompare(t, train + test);
    SampleShare(t, test);
    SampleMean(t, test, EventReasoning);
    AllBaselinesBeaten(t, test);
    assert Sentiment == BASELINES[0];
  }

  lemma {:induction false} SampleTables()
    ensures var t := Fill(SAMPLES);
      && KeyedAsSamples(t.keyed) && FiledAsSamples(t.partitions, t.visibility) && t.reasons == {}
  {
    SamplesAreConsistent();
    ConsistentIsCoherent(SAMPLES);
    CoherentIsDescribed(SAMPLES);
    NoSampleReasons();
    SamplesAreKeyed(Fill(SAMPLES).keyed);
    SamplesAreFiled(Fill(SAMPLES));
  }

  lemma {:induction false} NoReasonsMeansAccepted(t: Tables, rows: seq<HashRow>, train: seq<Cluster>, test: seq<Cluster>)
    requires train == Sorted(ClustersIn(t, Train)) && test == Sorted(ClustersIn(t, Test))
    requires t.reasons == {} && GateReasons(t, train, test) == {}
    ensures var core := Judge(t, rows).core;
      core.accepted && core.train == train && core.test == test && core.beaten == set v | v in BASELINES && Beats(t, test, v)
  {
  }

  lemma {:induction false} ThusJudged(t: Tables, rows: seq<HashRow>, train: seq<Cluster>, test: seq<Cluster>)
    requires KeyedAsSamples(t.keyed) && t.reasons == {} && !WalkForwardBroken(t)
    requires |train| == 2 && |test| == 3 && Filed(train) && Filed(test)
    requires train == Sorted(ClustersIn(t, Train)) && test == Sorted(ClustersIn(t, Test))
    ensures var core := Judge(t, rows).core;
      core.accepted && |core.train| == 2 && |core.test| == 3 && core.beaten == {Sentiment, Momentum, FixedMapping, SimpleHold}
  {
    SampleGate(t, train, test);
    NoReasonsMeansAccepted(t, rows, train, test);
    AllBaselinesBeaten(t, test);
  }

  /** The gate can accept: these samples leave no reason. */
  lemma {:induction false} SamplesAreAccepted()
    ensures Assess(SAMPLES).core.accepted && |Assess(SAMPLES).core.train| == 2 && |Assess(SAMPLES).core.test| == 3
    ensures Assess(SAMPLES).core.beaten == {Sentiment, Momentum, FixedMapping, SimpleHold}
  {
    SampleTables();
    SampleClusters(Fill(SAMPLES));
    var t := Fill(SAMPLES);
    var train, test := Sorted(ClustersIn(t, Train)), Sorted(ClustersIn(t, Test));
    SortedAreFiled(train, {0, 1});
    SortedAreFiled(test, {2, 3, 4});
    ThusJudged(t, HashRows(SAMPLES), train, test);
  }
}
