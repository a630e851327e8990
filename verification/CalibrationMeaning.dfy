/** What the gate accepts, stated on the evidence alone: which rows, of which events, with
    which returns. The report's figures are those of the test rows. */
module CalibrationMeaning {
  import opened Base
  import opened Calibration
  import opened CalibrationGate

  // ---- what is asked of one row --------------------------------------------------------------

  /** The last metric of that name is a ratio of that value. */
  predicate Reports(ms: seq<Metric>, horizon: nat, value: real) {
    exists k :: 0 <= k < |ms| && ms[k].name == NetReturn(horizon) && ms[k].ratio && ms[k].value == value
      && forall m :: k < m < |ms| ==> ms[m].name != NetReturn(horizon)
  }

  predicate Completed(e: Evidence) {
    && e.first.completed && e.repeated.completed
    && e.first.requestHash == e.repeated.requestHash && e.first.resultHash == e.repeated.resultHash
    && e.first.metrics == e.repeated.metrics
    && e.first.run != e.repeated.run && e.first.executedAt != e.repeated.executedAt
  }

  predicate AsRegistered(e: Evidence) {
    && e.first.request.event == e.cluster && e.repeated.request.event == e.cluster
    && e.first.request.asOf == e.visibleAt && e.repeated.request.asOf == e.visibleAt
    && e.first.request.horizons == [1, 3, 10]
    && (e.variant == EventReasoning ==> !e.first.request.manualFixture)
  }

  ghost predicate HasReturns(e: Evidence) {
    exists one, three, ten ::
      Reports(e.first.metrics, 1, one) && Reports(e.first.metrics, 3, three) && Reports(e.first.metrics, 10, ten)
  }

  ghost predicate RowClears(e: Evidence) {
    Completed(e) && AsRegistered(e) && HasReturns(e)
  }

  // ---- what is asked of the whole -----------------------------------------------------------------

  function ClustersOf(evidence: seq<Evidence>, p: Partition): set<Cluster> {
    set e | e in evidence && e.partition == p :: e.cluster
  }

  function Earned(e: Evidence): real {
    var r := NetReturns(e.first);
    if r.Some? then r.value.one + r.value.three + r.value.ten else 0.0
  }

  /** All that one variant earned on the test events. */
  function TotalReturn(evidence: seq<Evidence>, v: Variant): real {
    if evidence == [] then 0.0
    else
      var last := evidence[|evidence| - 1];
      TotalReturn(evidence[..|evidence| - 1], v) + (if last.partition == Test && last.variant == v then Earned(last) else 0.0)
  }

  function Weight(e: Evidence): real {
    var r := NetReturns(e.first);
    if r.Some?
    then (if r.value.one < 0.0 then -r.value.one else r.value.one)
         + (if r.value.three < 0.0 then -r.value.three else r.value.three)
         + (if r.value.ten < 0.0 then -r.value.ten else r.value.ten)
    else 0.0
  }

  /** What all test events contributed to the candidate's result. */
  function TotalWeight(evidence: seq<Evidence>): real {
    if evidence == [] then 0.0
    else
      var last := evidence[|evidence| - 1];
      TotalWeight(evidence[..|evidence| - 1])
      + (if last.partition == Test && last.variant == EventReasoning then Weight(last) else 0.0)
  }

  predicate EnoughEvents(evidence: seq<Evidence>) {
    2 <= |ClustersOf(evidence, Train)| && 3 <= |ClustersOf(evidence, Test)|
  }

  predicate WalksForward(evidence: seq<Evidence>) {
    forall a, b :: a in evidence && b in evidence && a.partition == Train && b.partition == Test ==> a.visibleAt < b.visibleAt
  }

  /** One strategy per variant, on training and test events alike. */
  predicate OneStrategyPerVariant(evidence: seq<Evidence>) {
    forall a, b :: a in evidence && b in evidence && a.variant == b.variant ==>
      a.first.request.strategy == b.first.request.strategy
  }

  predicate KeepsStrategy(evidence: seq<Evidence>, v: Variant) {
    forall a, b :: a in evidence && b in evidence && a.variant == v && b.variant == v ==>
      a.first.request.strategy == b.first.request.strategy
  }

  /** Row `f` is the result of variant `v` for the event of `e`, over the same window. */
  predicate ComparesAs(f: Evidence, e: Evidence, v: Variant) {
    && f.cluster == e.cluster && f.variant == v
    && f.first.request.asOf == e.first.request.asOf && f.first.request.horizons == e.first.request.horizons
    && f.first.request.window == e.first.request.window && f.first.engine == e.first.engine
  }

  predicate ComparedAt(evidence: seq<Evidence>, e: Evidence) {
    forall v :: v in VARIANTS ==> exists f :: f in evidence && ComparesAs(f, e, v)
  }

  /** Every event has every variant, run over the same window by the same engine. */
  predicate FullyCompared(evidence: seq<Evidence>) {
    forall e :: e in evidence ==> ComparedAt(evidence, e)
  }

  predicate Undominated(evidence: seq<Evidence>) {
    && 0.0 < TotalWeight(evidence)
    && forall e :: e in evidence && e.partition == Test && e.variant == EventReasoning ==>
         Weight(e) + Weight(e) <= TotalWeight(evidence)
  }

  predicate BeatsOne(evidence: seq<Evidence>) {
    exists v :: v != EventReasoning && TotalReturn(evidence, v) < TotalReturn(evidence, EventReasoning)
  }

  ghost predicate Clears(evidence: seq<Evidence>) {
    && Consistent(evidence) && (forall e :: e in evidence ==> RowClears(e))
    && EnoughEvents(evidence) && WalksForward(evidence) && OneStrategyPerVariant(evidence) && FullyCompared(evidence)
    && 0.0 < TotalReturn(evidence, EventReasoning) && BeatsOne(evidence) && Undominated(evidence)
  }

  // ---- one row -------------------------------------------------------------------------------

  lemma {:induction false} LastMetricIs(ms: seq<Metric>, horizon: nat, value: real)
    ensures Reports(ms, horizon, value) <==>
      var m := LastMetric(ms, NetReturn(horizon)); m.Some? && m.value.ratio && m.value.value == value
  {
    if ms != [] {
      var n := |ms| - 1;
      var front := ms[..n];
      if ms[n].name == NetReturn(horizon) {
        if Reports(ms, horizon, value) {
          var k :| 0 <= k < |ms| && ms[k].name == NetReturn(horizon) && ms[k].ratio && ms[k].value == value
                   && forall m :: k < m < |ms| ==> ms[m].name != NetReturn(horizon);
        }
      } else {
        LastMetricIs(front, horizon, value);
        if Reports(front, horizon, value) {
          var k :| 0 <= k < n && front[k].name == NetReturn(horizon) && front[k].ratio && front[k].value == value
                   && forall m :: k < m < n ==> front[m].name != NetReturn(horizon);
          assert ms[k] == front[k] && forall m :: k < m < |ms| ==> ms[m].name != NetReturn(horizon) by {
            forall m | k < m < |ms| ensures ms[m].name != NetReturn(horizon) { if m < n { assert front[m] == ms[m]; } }
          }
        }
        if Reports(ms, horizon, value) {
          var k :| 0 <= k < |ms| && ms[k].name == NetReturn(horizon) && ms[k].ratio && ms[k].value == value
                   && forall m :: k < m < |ms| ==> ms[m].name != NetReturn(horizon);
          assert front[k] == ms[k] && forall m :: k < m < n ==> front[m].name != NetReturn(horizon);
        }
      }
    }
  }

  /** The returns of a row are what its last metrics of the three names report. */
  lemma {:induction false} ReturnsAreReported(e: Evidence)
    ensures NetReturns(e.first).Some? <==> HasReturns(e)
    ensures NetReturns(e.first).Some? ==>
      var r := NetReturns(e.first).value;
      Reports(e.first.metrics, 1, r.one) && Reports(e.first.metrics, 3, r.three) && Reports(e.first.metrics, 10, r.ten)
  {
    var ms := e.first.metrics;
    if NetReturns(e.first).Some? {
      var r := NetReturns(e.first).value;
      LastMetricIs(ms, 1, r.one);
      LastMetricIs(ms, 3, r.three);
      LastMetricIs(ms, 10, r.ten);
    }
    if one, three, ten :| Reports(ms, 1, one) && Reports(ms, 3, three) && Reports(ms, 10, ten) {
      LastMetricIs(ms, 1, one);
      LastMetricIs(ms, 3, three);
      LastMetricIs(ms, 10, ten);
    }
  }

  lemma {:induction false} RowClearsIff(e: Evidence)
    ensures ItemReasons(e) == {} <==> RowClears(e)
  {
    ReturnsAreReported(e);
    if ItemReasons(e) == {} {
      assert RepeatReasons(e) <= ItemReasons(e);
      var c, v := e.cluster, e.variant;
      assert NonCompletedRepeat(c, v) !in RepeatReasons(e) && RepeatRequestMismatch(c, v) !in RepeatReasons(e);
      assert NondeterministicRepeat(c, v) !in RepeatReasons(e) && RepeatRunReused(c, v) !in RepeatReasons(e);
      assert RepeatTimeReused(c, v) !in RepeatReasons(e);
      assert EventIdentityMismatch(c, v) !in ItemReasons(e) && AsOfMismatch(c, v) !in ItemReasons(e);
      assert HorizonsMissing(c, v) !in ItemReasons(e) && ManualFixture(c) !in ItemReasons(e);
      assert MetricsMissing(c, v) !in ItemReasons(e);
    }
  }

  // ---- sums over clusters and over rows --------------------------------------------------------

  function SumOver(cs: seq<Cluster>, f: Cluster -> real): real {
    if cs == [] then 0.0 else SumOver(cs[..|cs| - 1], f) + f(cs[|cs| - 1])
  }

  lemma {:induction false} SumJoins(a: seq<Cluster>, b: seq<Cluster>, f: Cluster -> real)
    ensures SumOver(a + b, f) == SumOver(a, f) + SumOver(b, f)
  {
    if b == [] {
      assert a + b == a;
    } else {
      assert (a + b)[..|a + b| - 1] == a + b[..|b| - 1];
      SumJoins(a, b[..|b| - 1], f);
    }
  }

  lemma {:induction false} SumWithout(s: seq<Cluster>, k: nat, f: Cluster -> real)
    requires k < |s|
    ensures SumOver(s, f) == SumOver(Without(s, k), f) + f(s[k])
  {
    assert s == s[..k] + ([s[k]] + s[k + 1..]);
    SumJoins(s[..k], [s[k]] + s[k + 1..], f);
    SumJoins([s[k]], s[k + 1..], f);
    SumJoins(s[..k], s[k + 1..], f);
    assert SumOver([s[k]], f) == f(s[k]) by { assert [s[k]][..0] == []; }
  }

  lemma {:induction false} SumIgnoresOrder(a: seq<Cluster>, b: seq<Cluster>, f: Cluster -> real)
    requires multiset(a) == multiset(b)
    ensures SumOver(a, f) == SumOver(b, f)
    decreases |a|
  {
    assert |a| == |multiset(a)| == |multiset(b)| == |b|;
    if a != [] {
      var n := |a| - 1;
      assert a[n] in multiset(b);
      var k :| 0 <= k < |b| && b[k] == a[n];
      OneWithout(a, n);
      OneWithout(b, k);
      SameRest(multiset(Without(a, n)), multiset(Without(b, k)), a[n]);
      SumIgnoresOrder(Without(a, n), Without(b, k), f);
      SumWithout(a, n, f);
      SumWithout(b, k, f);
    }
  }

  lemma {:induction false} DistinctCounts(s: seq<Cluster>, x: Cluster)
    requires Distinct(s)
    ensures multiset(s)[x] == if x in s then 1 else 0
  {
    if 2 <= multiset(s)[x] { var i, j := TwoOccurrences(s, x); }
    assert x in s <==> x in multiset(s);
  }

  lemma {:induction false} SameMembersSameSum(a: seq<Cluster>, b: seq<Cluster>, f: Cluster -> real)
    requires Distinct(a) && Distinct(b) && forall x :: x in a <==> x in b
    ensures SumOver(a, f) == SumOver(b, f)
  {
    forall x ensures multiset(a)[x] == multiset(b)[x] {
      DistinctCounts(a, x);
      DistinctCounts(b, x);
    }
    assert multiset(a) == multiset(b);
    SumIgnoresOrder(a, b, f);
  }

  /** The test events that have a row of that variant, in the order of the rows. */
  function TestEvents(evidence: seq<Evidence>, v: Variant): seq<Cluster> {
    if evidence == [] then []
    else
      var last := evidence[|evidence| - 1];
      TestEvents(evidence[..|evidence| - 1], v) + (if last.partition == Test && last.variant == v then [last.cluster] else [])
  }

  lemma {:induction false} TestEventsAre(evidence: seq<Evidence>, v: Variant, c: Cluster)
    ensures c in TestEvents(evidence, v) <==>
      exists e :: e in evidence && e.partition == Test && e.variant == v && e.cluster == c
  {
    if evidence != [] {
      var front, last := evidence[..|evidence| - 1], evidence[|evidence| - 1];
      TestEventsAre(front, v, c);
      assert forall e :: e in evidence <==> e in front || e == last;
    }
  }

  lemma {:induction false} TestEventsDiffer(evidence: seq<Evidence>, v: Variant)
    requires Consistent(evidence)
    ensures Distinct(TestEvents(evidence, v))
  {
    if evidence != [] {
      var front, last := evidence[..|evidence| - 1], evidence[|evidence| - 1];
      SplitLast(evidence);
      LastIsCompatible(front, last);
      TestEventsDiffer(front, v);
      TestEventsAre(front, v, last.cluster);
    }
  }

  lemma {:induction false} LastIsCompatible(front: seq<Evidence>, e: Evidence)
    requires Consistent(front + [e])
    ensures Consistent(front) && forall x :: x in front ==> Compatible(x, e)
  {
    var all := front + [e];
    forall i, j | 0 <= i < j < |front| ensures Compatible(front[i], front[j]) { assert Compatible(all[i], all[j]); }
    forall i | 0 <= i < |front| ensures Compatible(front[i], e) { assert Compatible(all[i], all[|front|]); }
  }

  // ---- the tables say what the rows say ----------------------------------------------------------

  function EarnedAt(t: Tables, c: Cluster, v: Variant): real {
    var r := ReturnsFor(t, c, v);
    if r.Some? then r.value.one + r.value.three + r.value.ten else 0.0
  }

  function WeightAt(t: Tables, c: Cluster): real {
    var r := ReturnsFor(t, c, EventReasoning);
    if r.Some? then Contribution(r.value) else 0.0
  }

  predicate Tabulates(t: Tables, evidence: seq<Evidence>) {
    forall e :: e in evidence ==> e.Key() in t.keyed && t.keyed[e.Key()] == e
  }

  lemma {:induction false} SumOneMore(cs: seq<Cluster>, c: Cluster, f: Cluster -> real)
    ensures SumOver(cs + [c], f) == SumOver(cs, f) + f(c)
  {
    assert (cs + [c])[..|cs|] == cs;
  }

  lemma {:induction false} TotalIsSum(t: Tables, evidence: seq<Evidence>, v: Variant)
    requires Tabulates(t, evidence)
    ensures TotalReturn(evidence, v) == SumOver(TestEvents(evidence, v), (c: Cluster) => EarnedAt(t, c, v))
  {
    if evidence != [] {
      var front, last := evidence[..|evidence| - 1], evidence[|evidence| - 1];
      TotalIsSum(t, front, v);
      assert last in evidence && last.Key() in t.keyed;
      if last.partition == Test && last.variant == v {
        SumOneMore(TestEvents(front, v), last.cluster, (c: Cluster) => EarnedAt(t, c, v));
        assert Earned(last) == EarnedAt(t, last.cluster, v);
      } else {
        assert TestEvents(evidence, v) == TestEvents(front, v);
      }
    }
  }

  lemma {:induction false} WeightIsSum(t: Tables, evidence: seq<Evidence>)
    requires Tabulates(t, evidence)
    ensures TotalWeight(evidence) == SumOver(TestEvents(evidence, EventReasoning), (c: Cluster) => WeightAt(t, c))
  {
    if evidence != [] {
      var front, last := evidence[..|evidence| - 1], evidence[|evidence| - 1];
      WeightIsSum(t, front);
      assert last in evidence && last.Key() in t.keyed;
      if last.partition == Test && last.variant == EventReasoning {
        SumOneMore(TestEvents(front, EventReasoning), last.cluster, (c: Cluster) => WeightAt(t, c));
        assert Weight(last) == WeightAt(t, last.cluster);
      } else {
        assert TestEvents(evidence, EventReasoning) == TestEvents(front, EventReasoning);
      }
    }
  }

  lemma {:induction false} AddOne(values: seq<real>, x: real)
    ensures SumOf(values + [x]) == SumOf(values) + x
  {
    assert (values + [x])[..|values|] == values;
  }

  lemma {:induction false} AddThree(values: seq<real>, x: real, y: real, z: real)
    ensures SumOf(values + [x, y, z]) == SumOf(values) + x + y + z
  {
    AddOne(values, x);
    AddOne(values + [x], y);
    AddOne(values + [x] + [y], z);
    assert values + [x, y, z] == values + [x] + [y] + [z];
  }

  lemma {:induction false} ValuesAreSummed(t: Tables, cs: seq<Cluster>, v: Variant)
    requires AllPresent(t, cs, v)
    ensures |Values(t, cs, v)| == 3 * |cs| && SumOf(Values(t, cs, v)) == SumOver(cs, (c: Cluster) => EarnedAt(t, c, v))
  {
    if cs != [] {
      var front, last := cs[..|cs| - 1], cs[|cs| - 1];
      assert last in cs;
      ValuesAreSummed(t, front, v);
      var r := ReturnsFor(t, last, v).value;
      AddThree(Values(t, front, v), r.one, r.three, r.ten);
    }
  }

  lemma {:induction false} ContributionsAreSummed(t: Tables, cs: seq<Cluster>)
    ensures SumOf(Contributions(t, cs)) == SumOver(cs, (c: Cluster) => WeightAt(t, c))
  {
    if cs != [] {
      var front, last := cs[..|cs| - 1], cs[|cs| - 1];
      ContributionsAreSummed(t, front);
      var r := ReturnsFor(t, last, EventReasoning);
      if r.Some? { AddOne(Contributions(t, front), Contribution(r.value)); } else {
        assert Contributions(t, front) + [] == Contributions(t, front);
      }
    }
  }

  lemma {:induction false} ClustersAgree(t: Tables, evidence: seq<Evidence>, p: Partition)
    requires Describes(t, evidence)
    ensures ClustersIn(t, p) == ClustersOf(evidence, p)
  {
    forall c | c in ClustersIn(t, p) ensures c in ClustersOf(evidence, p) {
      var e :| e in evidence && e.cluster == c;
      assert t.partitions[c] == PARTITION_OF(e);
    }
    forall c | c in ClustersOf(evidence, p) ensures c in ClustersIn(t, p) {
      var e :| e in evidence && e.partition == p && e.cluster == c;
      ItsClusterIsFiled(t, evidence, e);
    }
  }

  lemma {:induction false} TestEventsAgree(t: Tables, evidence: seq<Evidence>, test: seq<Cluster>, v: Variant, f: Cluster -> real)
    requires Describes(t, evidence) && Consistent(evidence) && Distinct(test)
    requires (forall c :: c in test <==> c in ClustersIn(t, Test)) && forall c :: c in test ==> (c, v) in t.keyed
    ensures SumOver(test, f) == SumOver(TestEvents(evidence, v), f)
  {
    TestEventsDiffer(evidence, v);
    forall c ensures c in test <==> c in TestEvents(evidence, v) {
      TestEventsAre(evidence, v, c);
      if c in test {
        var e := t.keyed[(c, v)];
        assert e in evidence && e.Key() == (c, v);
        ItsClusterIsFiled(t, evidence, e);
      }
      if e :| e in evidence && e.partition == Test && e.variant == v && e.cluster == c {
        ItsClusterIsFiled(t, evidence, e);
      }
    }
    SameMembersSameSum(test, TestEvents(evidence, v), f);
  }

  ghost predicate Listed(t: Tables, cs: seq<Cluster>, p: Partition) {
    Distinct(cs) && forall c :: c in cs <==> c in ClustersIn(t, p)
  }

  predicate AllKeyed(t: Tables, cs: seq<Cluster>) {
    forall c, v {:trigger (c, v) in t.keyed} :: c in cs && v in VARIANTS ==> (c, v) in t.keyed
  }

  /** The mean that the gate computes for a variant is the total of its test rows, over
      three returns for each test event. */
  lemma {:induction false} MeansAreOfTheRows(t: Tables, evidence: seq<Evidence>, test: seq<Cluster>, v: Variant)
    requires Describes(t, evidence) && Consistent(evidence) && Listed(t, test, Test) && AllKeyed(t, test) && test != []
    requires forall e :: e in evidence ==> NetReturns(e.first).Some?
    ensures MeanFor(t, test, v) == Some(TotalReturn(evidence, v) / ((3 * |test|) as real))
  {
    EveryVariantListed(v);
    forall c | c in test ensures (c, v) in t.keyed && ReturnsFor(t, c, v).Some? {
      assert (c, v) in t.keyed;
      assert t.keyed[(c, v)] in evidence;
    }
    ValuesAreSummed(t, test, v);
    TestEventsAgree(t, evidence, test, v, (c: Cluster) => EarnedAt(t, c, v));
    TotalIsSum(t, evidence, v);
  }

  lemma {:induction false} WeightsAreOfTheRows(t: Tables, evidence: seq<Evidence>, test: seq<Cluster>)
    requires Describes(t, evidence) && Consistent(evidence) && Listed(t, test, Test) && AllKeyed(t, test)
    ensures SumOf(Contributions(t, test)) == TotalWeight(evidence)
  {
    EveryVariantListed(EventReasoning);
    forall c | c in test ensures (c, EventReasoning) in t.keyed { assert EventReasoning in VARIANTS; }
    ContributionsAreSummed(t, test);
    TestEventsAgree(t, evidence, test, EventReasoning, (c: Cluster) => WeightAt(t, c));
    WeightIsSum(t, evidence);
  }
}
