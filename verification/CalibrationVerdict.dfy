/** The gate accepts exactly the evidence that clears every demand, each stated on the
    evidence; and the figures it reports are those of the test rows. */
module CalibrationVerdict {
  import opened Base
  import opened Calibration
  import opened CalibrationGate
  import opened CalibrationMeaning

  // ---- demand by demand ---------------------------------------------------------------------

  lemma {:induction false} WalksForwardIff(t: Tables, evidence: seq<Evidence>)
    requires Describes(t, evidence)
    ensures !WalkForwardBroken(t) <==> WalksForward(evidence)
  {
    if WalksForward(evidence) {
      forall a, b | a in ClustersIn(t, Train) && b in ClustersIn(t, Test) && a in t.visibility && b in t.visibility
        ensures t.visibility[a] < t.visibility[b]
      {
        var x :| x in evidence && x.cluster == a;
        var y :| y in evidence && y.cluster == b;
        ItsClusterIsFiled(t, evidence, x);
        ItsClusterIsFiled(t, evidence, y);
      }
    }
    if !WalkForwardBroken(t) {
      forall a, b | a in evidence && b in evidence && a.partition == Train && b.partition == Test
        ensures a.visibleAt < b.visibleAt
      {
        ItsClusterIsFiled(t, evidence, a);
        ItsClusterIsFiled(t, evidence, b);
      }
    }
  }

  lemma {:induction false} AtMostOne<T>(s: set<T>)
    ensures |s| <= 1 <==> forall x, y :: x in s && y in s ==> x == y
  {
    if |s| <= 1 {
      forall x, y | x in s && y in s ensures x == y { OnlyMember(s, x, y); }
    } else if forall x, y :: x in s && y in s ==> x == y {
      var x :| x in s;
      assert s == {x};
    }
  }

  lemma {:induction false} StrategiesAreOfRows(t: Tables, evidence: seq<Evidence>, v: Variant, x: Id)
    requires KeysEvidence(t.keyed, evidence)
    ensures x in Strategies(t, v) <==> exists e :: e in evidence && e.variant == v && e.first.request.strategy == x
  {
    if x in Strategies(t, v) {
      var k :| k in t.keyed && k.1 == v && t.keyed[k].first.request.strategy == x;
      assert t.keyed[k] in evidence && t.keyed[k].Key() == k;
    }
    if e :| e in evidence && e.variant == v && e.first.request.strategy == x {
      assert e.Key() in t.keyed && e.Key().1 == v && t.keyed[e.Key()] == e;
    }
  }

  lemma {:induction false} KeepsStrategyIff(t: Tables, evidence: seq<Evidence>, v: Variant)
    requires KeysEvidence(t.keyed, evidence)
    ensures |Strategies(t, v)| <= 1 <==> KeepsStrategy(evidence, v)
  {
    var all := Strategies(t, v);
    AtMostOne(all);
    if KeepsStrategy(evidence, v) {
      forall x, y | x in all && y in all ensures x == y {
        StrategiesAreOfRows(t, evidence, v, x);
        StrategiesAreOfRows(t, evidence, v, y);
      }
    }
    if |all| <= 1 {
      forall a, b | a in evidence && b in evidence && a.variant == v && b.variant == v
        ensures a.first.request.strategy == b.first.request.strategy
      {
        StrategiesAreOfRows(t, evidence, v, a.first.request.strategy);
        StrategiesAreOfRows(t, evidence, v, b.first.request.strategy);
      }
    }
  }

  lemma {:induction false} OneStrategyIff(t: Tables, evidence: seq<Evidence>)
    requires KeysEvidence(t.keyed, evidence)
    ensures (forall v :: v in VARIANTS ==> |Strategies(t, v)| <= 1) <==> OneStrategyPerVariant(evidence)
  {
    forall v ensures v in VARIANTS && (|Strategies(t, v)| <= 1 <==> KeepsStrategy(evidence, v)) {
      EveryVariantListed(v);
      KeepsStrategyIff(t, evidence, v);
    }
    KeptByEach(evidence);
  }

  lemma {:induction false} KeptByEach(evidence: seq<Evidence>)
    ensures (forall v :: KeepsStrategy(evidence, v)) <==> OneStrategyPerVariant(evidence)
  {
    if forall v :: KeepsStrategy(evidence, v) {
      forall a, b | a in evidence && b in evidence && a.variant == b.variant
        ensures a.first.request.strategy == b.first.request.strategy
      {
        assert KeepsStrategy(evidence, a.variant);
      }
    }
  }

  lemma {:induction false} ReasonlessIff(t: Tables, cs: seq<Cluster>)
    ensures ClusterReasons(t, cs) == {} <==> forall c :: c in cs ==> Comparable(t, c)
  {
    if cs != [] {
      var front, last := cs[..|cs| - 1], cs[|cs| - 1];
      ReasonlessIff(t, front);
      assert forall c :: c in cs <==> c in front || c == last;
    }
  }

  lemma {:induction false} ComparableIsCompared(t: Tables, evidence: seq<Evidence>, e: Evidence)
    requires Describes(t, evidence) && e in evidence && Comparable(t, e.cluster)
    ensures ComparedAt(evidence, e)
  {
    forall v | v in VARIANTS ensures exists f :: f in evidence && ComparesAs(f, e, v) {
      var f := ComparableHasAll(t, evidence, e, v);
      assert ComparesAs(f, e, v);
    }
  }

  lemma {:induction false} RowIsKeyed(t: Tables, evidence: seq<Evidence>, e: Evidence)
    requires Describes(t, evidence) && e in evidence
    ensures (e.cluster, e.variant) in t.keyed && t.keyed[(e.cluster, e.variant)] == e
  {
    assert e.Key() in t.keyed;
  }

  lemma {:induction false} ComparedIsComparable(t: Tables, evidence: seq<Evidence>, e: Evidence)
    requires Describes(t, evidence) && e in evidence && FullyCompared(evidence)
    ensures Comparable(t, e.cluster)
  {
    var c := e.cluster;
    EveryVariantListed(EventReasoning);
    assert ComparedAt(evidence, e);
    var candidate :| candidate in evidence && ComparesAs(candidate, e, EventReasoning);
    RowIsKeyed(t, evidence, candidate);
    forall v | v in VARIANTS ensures SameWindow(t, c, v) {
      var f :| f in evidence && ComparesAs(f, e, v);
      RowIsKeyed(t, evidence, f);
    }
  }

  lemma {:induction false} FullyComparedIff(t: Tables, evidence: seq<Evidence>, cs: seq<Cluster>)
    requires Describes(t, evidence) && forall c :: c in cs <==> c in t.partitions
    ensures ClusterReasons(t, cs) == {} <==> FullyCompared(evidence)
  {
    ReasonlessIff(t, cs);
    if ClusterReasons(t, cs) == {} {
      forall e | e in evidence ensures ComparedAt(evidence, e) {
        ItsClusterIsFiled(t, evidence, e);
        ComparableIsCompared(t, evidence, e);
      }
    }
    if FullyCompared(evidence) {
      forall c | c in cs ensures Comparable(t, c) {
        var e :| e in evidence && e.cluster == c;
        ComparedIsComparable(t, evidence, e);
      }
    }
  }

  lemma {:induction false} ComparedIsKeyed(t: Tables, cs: seq<Cluster>, of: seq<Cluster>)
    requires ClusterReasons(t, of) == {} && forall c :: c in cs ==> c in of
    ensures AllKeyed(t, cs)
  {
    ReasonlessIff(t, of);
    forall c, v | c in cs && v in VARIANTS ensures (c, v) in t.keyed {
      assert Comparable(t, c) && SameWindow(t, c, v);
    }
  }

  // ---- the share of one event -------------------------------------------------------------------

  lemma {:induction false} ContributionIsWeight(t: Tables, cs: seq<Cluster>, x: real)
    requires x in Contributions(t, cs)
    ensures exists c :: c in cs && ReturnsFor(t, c, EventReasoning).Some? && x == WeightAt(t, c)
  {
    var front, last := cs[..|cs| - 1], cs[|cs| - 1];
    SplitLast(cs);
    assert last in cs;
    if x in Contributions(t, front) {
      ContributionIsWeight(t, front, x);
      var c :| c in front && ReturnsFor(t, c, EventReasoning).Some? && x == WeightAt(t, c);
      assert c in cs;
    }
  }

  lemma {:induction false} MostIsAMember(values: seq<real>)
    requires values != []
    ensures MaxOf(values) in values
  {
    if |values| > 1 {
      SplitLast(values);
      MostIsAMember(values[..|values| - 1]);
    }
  }

  lemma {:induction false} HalfIff(most: real, sum: real)
    requires 0.0 < sum
    ensures most / sum <= HALF <==> most + most <= sum
  {
  }

  lemma {:induction false} ShareIff(values: seq<real>)
    requires forall x :: x in values ==> 0.0 <= x
    ensures (Share(values).Some? && Share(values).value <= HALF) <==>
      0.0 < SumOf(values) && forall x :: x in values ==> x + x <= SumOf(values)
  {
    if values != [] {
      MaxWithinSum(values);
      MostIsAMember(values);
      if 0.0 < SumOf(values) { HalfIff(MaxOf(values), SumOf(values)); }
    }
  }

  lemma {:induction false} RowContributes(t: Tables, test: seq<Cluster>, e: Evidence)
    requires e.cluster in test && (e.cluster, EventReasoning) in t.keyed && t.keyed[(e.cluster, EventReasoning)] == e
    requires NetReturns(e.first).Some?
    ensures Weight(e) in Contributions(t, test)
  {
    ContributionIncluded(t, test, e.cluster);
  }

  lemma {:induction false} ContributionIsARow(t: Tables, evidence: seq<Evidence>, test: seq<Cluster>, x: real) returns (e: Evidence)
    requires KeysEvidence(t.keyed, evidence) && x in Contributions(t, test)
    ensures e in evidence && e.cluster in test && e.variant == EventReasoning && Weight(e) == x
  {
    ContributionIsWeight(t, test, x);
    var c :| c in test && ReturnsFor(t, c, EventReasoning).Some? && x == WeightAt(t, c);
    e := t.keyed[(c, EventReasoning)];
    assert e in evidence && e.Key() == (c, EventReasoning);
  }

  lemma {:induction false} UndominatedIff(t: Tables, evidence: seq<Evidence>, test: seq<Cluster>)
    requires Describes(t, evidence) && Consistent(evidence) && Listed(t, test, Test) && AllKeyed(t, test)
    requires forall e :: e in evidence ==> NetReturns(e.first).Some?
    ensures var share := Share(Contributions(t, test)); (share.Some? && share.value <= HALF) <==> Undominated(evidence)
  {
    var values, sum := Contributions(t, test), TotalWeight(evidence);
    ContributionsAreWeights(t, test);
    ShareIff(values);
    WeightsAreOfTheRows(t, evidence, test);
    if forall x :: x in values ==> x + x <= sum {
      forall e | e in evidence && e.partition == Test && e.variant == EventReasoning ensures Weight(e) + Weight(e) <= sum {
        ItsClusterIsFiled(t, evidence, e);
        RowIsKeyed(t, evidence, e);
        RowContributes(t, test, e);
      }
    }
    if Undominated(evidence) {
      forall x | x in values ensures x + x <= sum {
        var e := ContributionIsARow(t, evidence, test, x);
        ItsClusterIsFiled(t, evidence, e);
      }
    }
  }

  // ---- the means -----------------------------------------------------------------------------------

  lemma {:induction false} QuotientsCompare(a: real, b: real, n: real)
    requires 0.0 < n
    ensures a / n < b / n <==> a < b
  {
    assert a == (a / n) * n && b == (b / n) * n;
  }

  lemma {:induction false} PositiveQuotient(a: real, n: real)
    requires 0.0 < n
    ensures 0.0 < a / n <==> 0.0 < a
  {
    assert a == (a / n) * n;
  }

  /** The verdict on the means, from the totals of the test rows. */
  lemma {:induction false} MeansCompare(t: Tables, evidence: seq<Evidence>, test: seq<Cluster>)
    requires Describes(t, evidence) && Consistent(evidence) && Listed(t, test, Test) && AllKeyed(t, test) && test != []
    requires forall e :: e in evidence ==> NetReturns(e.first).Some?
    ensures var mean := MeanFor(t, test, EventReasoning);
      && mean == Some(TotalReturn(evidence, EventReasoning) / ((3 * |test|) as real))
      && (0.0 < mean.value <==> 0.0 < TotalReturn(evidence, EventReasoning))
    ensures forall v :: Beats(t, test, v) <==> TotalReturn(evidence, v) < TotalReturn(evidence, EventReasoning)
  {
    var n := (3 * |test|) as real;
    MeansAreOfTheRows(t, evidence, test, EventReasoning);
    PositiveQuotient(TotalReturn(evidence, EventReasoning), n);
    forall v ensures Beats(t, test, v) <==> TotalReturn(evidence, v) < TotalReturn(evidence, EventReasoning) {
      MeansAreOfTheRows(t, evidence, test, v);
      BeatsByTotal(t, test, v, TotalReturn(evidence, v), TotalReturn(evidence, EventReasoning), n);
    }
  }

  lemma {:induction false} BeatsByTotal(t: Tables, test: seq<Cluster>, v: Variant, total: real, candidate: real, n: real)
    requires 0.0 < n && MeanFor(t, test, v) == Some(total / n) && MeanFor(t, test, EventReasoning) == Some(candidate / n)
    ensures Beats(t, test, v) <==> total < candidate
  {
    QuotientsCompare(total, candidate, n);
  }

  lemma {:induction false} BaselinesAreTheOthers(v: Variant)
    ensures v in BASELINES <==> v != EventReasoning
  {
    assert BASELINES[0] == Sentiment && BASELINES[1] == Momentum && BASELINES[2] == FixedMapping && BASELINES[3] == SimpleHold;
  }

  // ---- the verdict ----------------------------------------------------------------------------------

  lemma {:induction false} NoGateReasonsIff(t: Tables, train: seq<Cluster>, test: seq<Cluster>)
    ensures GateReasons(t, train, test) == {} <==>
      && 2 <= |train| && 3 <= |test| && !WalkForwardBroken(t)
      && (forall v :: v in VARIANTS ==> |Strategies(t, v)| <= 1)
      && ClusterReasons(t, train + test) == {}
      && (var mean := MeanFor(t, test, EventReasoning); mean.Some? && 0.0 < mean.value)
      && (exists v :: v in BASELINES && Beats(t, test, v))
      && (var share := Share(Contributions(t, test)); share.Some? && share.value <= HALF)
  {
    var all := GateReasons(t, train, test);
    if all == {} {
      assert InsufficientTrain !in all && InsufficientTest !in all && WalkForwardInvalid !in all;
      forall v | v in VARIANTS ensures |Strategies(t, v)| <= 1 { assert StrategyChanged(v) !in all; }
      assert ClusterReasons(t, train + test) <= all;
      assert CandidateNotPositive !in all && NoBaselineBeaten !in all && DominanceNotCleared !in all;
    }
  }

  lemma {:induction false} SortedIsListed(s: set<nat>)
    ensures Distinct(Sorted(s)) && |Sorted(s)| == |s|
  {
    var r := Sorted(s);
    forall i, j | 0 <= i < j < |r| ensures r[i] != r[j] { assert r[i] < r[j]; }
  }

  lemma {:induction false} EveryClusterIsListed(t: Tables, train: seq<Cluster>, test: seq<Cluster>)
    requires Listed(t, train, Train) && Listed(t, test, Test)
    ensures forall c :: c in train + test <==> c in t.partitions
  {
    forall c ensures c in train + test <==> c in t.partitions {
      assert c in t.partitions ==> t.partitions[c] == Train || t.partitions[c] == Test;
      assert c in train + test <==> c in train || c in test;
    }
  }

  /** The demands on returns, once every event is fully compared. */
  lemma {:induction false} ReturnsClearIff(t: Tables, evidence: seq<Evidence>, test: seq<Cluster>)
    requires Describes(t, evidence) && Consistent(evidence) && Listed(t, test, Test) && AllKeyed(t, test) && test != []
    requires forall e :: e in evidence ==> NetReturns(e.first).Some?
    ensures
      && (var mean := MeanFor(t, test, EventReasoning); mean.Some? && 0.0 < mean.value)
      && (exists v :: v in BASELINES && Beats(t, test, v))
      && (var share := Share(Contributions(t, test)); share.Some? && share.value <= HALF)
      <==> 0.0 < TotalReturn(evidence, EventReasoning) && BeatsOne(evidence) && Undominated(evidence)
  {
    MeansCompare(t, evidence, test);
    UndominatedIff(t, evidence, test);
    forall v ensures v in BASELINES <==> v != EventReasoning { BaselinesAreTheOthers(v); }
    if v :| v in BASELINES && Beats(t, test, v) {
      assert v != EventReasoning && TotalReturn(evidence, v) < TotalReturn(evidence, EventReasoning);
    }
    if v :| v != EventReasoning && TotalReturn(evidence, v) < TotalReturn(evidence, EventReasoning) {
      assert v in BASELINES && Beats(t, test, v);
    }
  }

  lemma {:induction false} EventsClearIff(t: Tables, evidence: seq<Evidence>, train: seq<Cluster>, test: seq<Cluster>)
    requires Describes(t, evidence) && Listed(t, train, Train) && Listed(t, test, Test)
    ensures !WalkForwardBroken(t) && (forall v :: v in VARIANTS ==> |Strategies(t, v)| <= 1) && ClusterReasons(t, train + test) == {}
      <==> WalksForward(evidence) && OneStrategyPerVariant(evidence) && FullyCompared(evidence)
    ensures ClusterReasons(t, train + test) == {} ==> AllKeyed(t, test)
  {
    WalksForwardIff(t, evidence);
    OneStrategyIff(t, evidence);
    EveryClusterIsListed(t, train, test);
    FullyComparedIff(t, evidence, train + test);
    if ClusterReasons(t, train + test) == {} { ComparedIsKeyed(t, test, train + test); }
  }

  lemma {:induction false} GateClearsIff(t: Tables, evidence: seq<Evidence>, train: seq<Cluster>, test: seq<Cluster>)
    requires Describes(t, evidence) && Consistent(evidence)
    requires Listed(t, train, Train) && Listed(t, test, Test)
    requires |train| == |ClustersOf(evidence, Train)| && |test| == |ClustersOf(evidence, Test)|
    requires forall e :: e in evidence ==> NetReturns(e.first).Some?
    ensures GateReasons(t, train, test) == {} <==>
      && EnoughEvents(evidence) && WalksForward(evidence) && OneStrategyPerVariant(evidence) && FullyCompared(evidence)
      && 0.0 < TotalReturn(evidence, EventReasoning) && BeatsOne(evidence) && Undominated(evidence)
  {
    NoGateReasonsIff(t, train, test);
    EventsClearIff(t, evidence, train, test);
    if ClusterReasons(t, train + test) == {} && test != [] { ReturnsClearIff(t, evidence, test); }
  }

  lemma {:induction false} TablesOf(evidence: seq<Evidence>) returns (train: seq<Cluster>, test: seq<Cluster>)
    requires Consistent(evidence)
    ensures var t := Fill(evidence);
      && Describes(t, evidence) && Listed(t, train, Train) && Listed(t, test, Test)
      && train == Sorted(ClustersIn(t, Train)) && test == Sorted(ClustersIn(t, Test))
      && |train| == |ClustersOf(evidence, Train)| && |test| == |ClustersOf(evidence, Test)|
  {
    var t := Fill(evidence);
    ConsistentIsCoherent(evidence);
    CoherentIsDescribed(evidence);
    train, test := Sorted(ClustersIn(t, Train)), Sorted(ClustersIn(t, Test));
    SortedIsListed(ClustersIn(t, Train));
    SortedIsListed(ClustersIn(t, Test));
    ClustersAgree(t, evidence, Train);
    ClustersAgree(t, evidence, Test);
  }

  lemma {:induction false} ReasonsComeFromRows(reasons: set<Reason>, evidence: seq<Evidence>)
    requires CollectsReasons(reasons, evidence) && forall r :: !Repeats(evidence, r)
    ensures reasons == {} <==> forall e :: e in evidence ==> ItemReasons(e) == {}
  {
    forall r | r in reasons ensures exists e :: e in evidence && ItemReasons(e) != {} {
      var e :| e in evidence && r in ItemReasons(e);
    }
  }

  lemma {:induction false} NoRowReasonsIff(evidence: seq<Evidence>)
    requires Consistent(evidence)
    ensures Fill(evidence).reasons == {} <==> forall e :: e in evidence ==> RowClears(e)
  {
    ConsistentIsCoherent(evidence);
    CoherentIsDescribed(evidence);
    ReasonsComeFromRows(Fill(evidence).reasons, evidence);
    forall e | e in evidence ensures ItemReasons(e) == {} <==> RowClears(e) { RowClearsIff(e); }
  }

  /** The gate accepts evidence exactly when it is consistent, each of its rows clears, it
      has events enough, walks forward, keeps one strategy per variant, compares every
      event fully, earns on the test events, beats a baseline there, and no single test
      event carries more than half of the result. */
  lemma {:induction false} AcceptedIff(evidence: seq<Evidence>)
    ensures Assess(evidence).core.accepted <==> Clears(evidence)
  {
    if Assess(evidence).core.accepted { AcceptedMeansConsistent(evidence); }
    if Consistent(evidence) {
      var train, test := TablesOf(evidence);
      NoRowReasonsIff(evidence);
      if forall e :: e in evidence ==> RowClears(e) {
        forall e | e in evidence ensures NetReturns(e.first).Some? { ReturnsAreReported(e); }
        GateClearsIff(Fill(evidence), evidence, train, test);
      }
      AcceptedMeansBoth(evidence, train, test);
    }
  }

  lemma {:induction false} AcceptedMeansBoth(evidence: seq<Evidence>, train: seq<Cluster>, test: seq<Cluster>)
    requires train == Sorted(ClustersIn(Fill(evidence), Train)) && test == Sorted(ClustersIn(Fill(evidence), Test))
    ensures Assess(evidence).core.accepted <==>
      Fill(evidence).reasons == {} && GateReasons(Fill(evidence), train, test) == {}
  {
  }

  lemma {:induction false} AllReturnsKnown(evidence: seq<Evidence>)
    requires forall e :: e in evidence ==> HasReturns(e)
    ensures forall e :: e in evidence ==> NetReturns(e.first).Some?
  {
    forall e | e in evidence ensures NetReturns(e.first).Some? { ReturnsAreReported(e); }
  }

  lemma {:induction false} FiguresFor(evidence: seq<Evidence>) returns (train: seq<Cluster>, test: seq<Cluster>)
    requires Consistent(evidence) && FullyCompared(evidence) && (forall e :: e in evidence ==> NetReturns(e.first).Some?)
    requires ClustersOf(evidence, Test) != {}
    ensures var t := Fill(evidence);
      && train == Sorted(ClustersIn(t, Train)) && test == Sorted(ClustersIn(t, Test))
      && |test| == |ClustersOf(evidence, Test)|
      && MeanFor(t, test, EventReasoning) == Some(TotalReturn(evidence, EventReasoning) / ((3 * |test|) as real))
      && forall v :: v in BASELINES && Beats(t, test, v) <==>
           v != EventReasoning && TotalReturn(evidence, v) < TotalReturn(evidence, EventReasoning)
  {
    train, test := TablesOf(evidence);
    ClustersAgree(Fill(evidence), evidence, Test);
    FiguresInTables(Fill(evidence), evidence, train, test);
  }

  lemma {:induction false} FiguresWithReturns(evidence: seq<Evidence>)
    requires Consistent(evidence) && FullyCompared(evidence) && (forall e :: e in evidence ==> NetReturns(e.first).Some?)
    requires ClustersOf(evidence, Test) != {}
    ensures var core := Assess(evidence).core;
      && core.candidateMean ==
           Some(TotalReturn(evidence, EventReasoning) / ((3 * |ClustersOf(evidence, Test)|) as real))
      && (forall v :: v in core.beaten <==>
            v != EventReasoning && TotalReturn(evidence, v) < TotalReturn(evidence, EventReasoning))
  {
    var train, test := FiguresFor(evidence);
    ReportSays(evidence, train, test);
  }

  /** The figures of a report on consistent, fully compared evidence are those of its test
      rows: the candidate's mean return, and the baselines whose rows earned less. */
  lemma {:induction false} FiguresAreOfTheRows(evidence: seq<Evidence>)
    requires Consistent(evidence) && FullyCompared(evidence) && (forall e :: e in evidence ==> HasReturns(e))
    requires ClustersOf(evidence, Test) != {}
    ensures var core := Assess(evidence).core;
      && core.candidateMean ==
           Some(TotalReturn(evidence, EventReasoning) / ((3 * |ClustersOf(evidence, Test)|) as real))
      && (forall v :: v in core.beaten <==>
            v != EventReasoning && TotalReturn(evidence, v) < TotalReturn(evidence, EventReasoning))
  {
    AllReturnsKnown(evidence);
    FiguresWithReturns(evidence);
  }

  /** The events of a report are those of the rows, by partition, each once and in order. */
  lemma {:induction false} EventsAreOfTheRows(evidence: seq<Evidence>)
    requires Consistent(evidence)
    ensures var core := Assess(evidence).core;
      && Increasing(core.train) && (forall c :: c in core.train <==> c in ClustersOf(evidence, Train))
      && Increasing(core.test) && (forall c :: c in core.test <==> c in ClustersOf(evidence, Test))
  {
    var train, test := TablesOf(evidence);
    ClustersAgree(Fill(evidence), evidence, Train);
    ClustersAgree(Fill(evidence), evidence, Test);
    ReportSays(evidence, train, test);
  }

  lemma {:induction false} FiguresInTables(t: Tables, evidence: seq<Evidence>, train: seq<Cluster>, test: seq<Cluster>)
    requires Describes(t, evidence) && Consistent(evidence) && FullyCompared(evidence)
    requires Listed(t, train, Train) && Listed(t, test, Test) && test != []
    requires forall e :: e in evidence ==> NetReturns(e.first).Some?
    ensures MeanFor(t, test, EventReasoning) == Some(TotalReturn(evidence, EventReasoning) / ((3 * |test|) as real))
    ensures forall v :: v in BASELINES && Beats(t, test, v) <==>
      v != EventReasoning && TotalReturn(evidence, v) < TotalReturn(evidence, EventReasoning)
  {
    EveryClusterIsListed(t, train, test);
    FullyComparedIff(t, evidence, train + test);
    ComparedIsKeyed(t, test, train + test);
    MeansCompare(t, evidence, test);
    forall v ensures v in BASELINES <==> v != EventReasoning { BaselinesAreTheOthers(v); }
  }

  lemma {:induction false} ReportSays(evidence: seq<Evidence>, train: seq<Cluster>, test: seq<Cluster>)
    requires train == Sorted(ClustersIn(Fill(evidence), Train)) && test == Sorted(ClustersIn(Fill(evidence), Test))
    ensures var core := Assess(evidence).core; var t := Fill(evidence);
      && core.train == train && core.test == test && core.candidateMean == MeanFor(t, test, EventReasoning)
      && core.maxShare == Share(Contributions(t, test)) && core.beaten == set v | v in BASELINES && Beats(t, test, v)
  {
  }
}
