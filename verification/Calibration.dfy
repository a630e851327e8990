/** The phase-two calibration gate: what it reads from its evidence, and what each of
    its verdicts means. Returns are exact reals; a hash is the content it covers. */
module Calibration {
  import opened Base

  type Cluster = nat

  datatype Partition = Train | Test

  /** In the alphabetical order of their stored names. */
  datatype Variant = EventReasoning | FixedMapping | Momentum | Sentiment | SimpleHold

  const VARIANTS: seq<Variant> := [EventReasoning, Sentiment, Momentum, FixedMapping, SimpleHold]
  const BASELINES: seq<Variant> := [Sentiment, Momentum, FixedMapping, SimpleHold]
  const HORIZONS: seq<nat> := [1, 3, 10]

  datatype MetricName = NetReturn(horizon: nat) | OtherMetric(name: Id)

  datatype Metric = Metric(name: MetricName, ratio: bool, value: real)

  /** `window` is every other field that the comparison key reads. */
  datatype Request = Request(
    event: Cluster, asOf: Time, horizons: seq<nat>, strategy: Id, manualFixture: bool, window: Id)

  datatype Result = Result(
    completed: bool, request: Request, requestHash: Id, resultHash: Id, run: Id, executedAt: Time,
    metrics: seq<Metric>, engine: Id)

  datatype Evidence = Evidence(
    cluster: Cluster, visibleAt: Time, partition: Partition, variant: Variant, first: Result, repeated: Result)
  {
    function Key(): (Cluster, Variant) { (cluster, variant) }
  }

  datatype Returns = Returns(one: real, three: real, ten: real)

  datatype Reason =
    | DuplicateVariant(c: Cluster, v: Variant) | CrossesPartitions(c: Cluster) | VisibilityMismatch(c: Cluster)
    | NonCompletedRepeat(c: Cluster, v: Variant) | RepeatRequestMismatch(c: Cluster, v: Variant)
    | NondeterministicRepeat(c: Cluster, v: Variant) | RepeatRunReused(c: Cluster, v: Variant)
    | RepeatTimeReused(c: Cluster, v: Variant) | EventIdentityMismatch(c: Cluster, v: Variant)
    | AsOfMismatch(c: Cluster, v: Variant) | HorizonsMissing(c: Cluster, v: Variant)
    | ManualFixture(c: Cluster) | MetricsMissing(c: Cluster, v: Variant)
    | InsufficientTrain | InsufficientTest | WalkForwardInvalid | StrategyChanged(v: Variant)
    | MissingVariants(c: Cluster, missing: set<Variant>) | IncomparableWindows(c: Cluster)
    | CandidateNotPositive | NoBaselineBeaten | DominanceNotCleared

  // ---- one piece of evidence ---------------------------------------------------------------

  /** The last metric of that name, as a dictionary by name keeps it. */
  function LastMetric(ms: seq<Metric>, name: MetricName): Option<Metric> {
    if ms == [] then None
    else if ms[|ms| - 1].name == name then Some(ms[|ms| - 1])
    else LastMetric(ms[..|ms| - 1], name)
  }

  function NetReturns(r: Result): Option<Returns> {
    var one := LastMetric(r.metrics, NetReturn(1));
    var three := LastMetric(r.metrics, NetReturn(3));
    var ten := LastMetric(r.metrics, NetReturn(10));
    if one.None? || three.None? || ten.None? then None
    else if !one.value.ratio || !three.value.ratio || !ten.value.ratio then None
    else Some(Returns(one.value.value, three.value.value, ten.value.value))
  }

  function When(holds: bool, r: Reason): set<Reason> {
    if holds then {r} else {}
  }

  function RepeatReasons(e: Evidence): set<Reason> {
    var c, v, a, b := e.cluster, e.variant, e.first, e.repeated;
    When(!a.completed || !b.completed, NonCompletedRepeat(c, v))
    + When(a.requestHash != b.requestHash, RepeatRequestMismatch(c, v))
    + When(a.resultHash != b.resultHash || a.metrics != b.metrics, NondeterministicRepeat(c, v))
    + When(a.run == b.run, RepeatRunReused(c, v))
    + When(a.executedAt == b.executedAt, RepeatTimeReused(c, v))
  }

  function ItemReasons(e: Evidence): set<Reason> {
    var c, v, a, b := e.cluster, e.variant, e.first.request, e.repeated.request;
    RepeatReasons(e)
    + When(a.event != c || b.event != c, EventIdentityMismatch(c, v))
    + When(a.asOf != e.visibleAt || b.asOf != e.visibleAt, AsOfMismatch(c, v))
    + When(a.horizons != HORIZONS, HorizonsMissing(c, v))
    + When(v == EventReasoning && a.manualFixture, ManualFixture(c))
    + When(NetReturns(e.first).None?, MetricsMissing(c, v))
  }

  // ---- the tables the first loop fills --------------------------------------------------------

  datatype Tables = Tables(
    keyed: map<(Cluster, Variant), Evidence>, partitions: map<Cluster, Partition>,
    visibility: map<Cluster, Time>, reasons: set<Reason>)

  const NO_TABLES := Tables(map[], map[], map[], {})

  function SetDefault<V>(m: map<Cluster, V>, c: Cluster, v: V): map<Cluster, V> {
    if c in m then m else m[c := v]
  }

  function Add(t: Tables, e: Evidence): Tables {
    if e.Key() in t.keyed then t.(reasons := t.reasons + {DuplicateVariant(e.cluster, e.variant)})
    else
      var partitions := SetDefault(t.partitions, e.cluster, e.partition);
      var visibility := SetDefault(t.visibility, e.cluster, e.visibleAt);
      Tables(
        t.keyed[e.Key() := e], partitions, visibility,
        t.reasons
        + When(partitions[e.cluster] != e.partition, CrossesPartitions(e.cluster))
        + When(visibility[e.cluster] != e.visibleAt, VisibilityMismatch(e.cluster))
        + ItemReasons(e))
  }

  function Fill(evidence: seq<Evidence>): Tables {
    if evidence == [] then NO_TABLES else Add(Fill(evidence[..|evidence| - 1]), evidence[|evidence| - 1])
  }

  // ---- the verdicts, each by what it means -----------------------------------------------------

  function ClustersIn(t: Tables, p: Partition): set<Cluster> {
    set c | c in t.partitions && t.partitions[c] == p
  }

  predicate WalkForwardBroken(t: Tables) {
    exists a, b :: a in ClustersIn(t, Train) && b in ClustersIn(t, Test) &&
      a in t.visibility && b in t.visibility && t.visibility[a] >= t.visibility[b]
  }

  function Strategies(t: Tables, v: Variant): set<Id> {
    set k | k in t.keyed && k.1 == v :: t.keyed[k].first.request.strategy
  }

  function Missing(t: Tables, c: Cluster): set<Variant> {
    set v | v in VARIANTS && (c, v) !in t.keyed
  }

  datatype Comparison = Comparison(asOf: Time, horizons: seq<nat>, window: Id, engine: Id)

  function ComparisonKey(r: Result): Comparison {
    Comparison(r.request.asOf, r.request.horizons, r.request.window, r.engine)
  }

  predicate SameWindow(t: Tables, c: Cluster, v: Variant) {
    && (c, v) in t.keyed && (c, EventReasoning) in t.keyed
    && ComparisonKey(t.keyed[(c, v)].first) == ComparisonKey(t.keyed[(c, EventReasoning)].first)
  }

  predicate Comparable(t: Tables, c: Cluster) {
    && Missing(t, c) == {}
    && forall v :: v in VARIANTS ==> SameWindow(t, c, v)
  }

  function ClusterReason(t: Tables, c: Cluster): set<Reason> {
    if Missing(t, c) != {} then {MissingVariants(c, Missing(t, c))}
    else if !Comparable(t, c) then {IncomparableWindows(c)}
    else {}
  }

  function ClusterReasons(t: Tables, cs: seq<Cluster>): set<Reason> {
    if cs == [] then {} else ClusterReasons(t, cs[..|cs| - 1]) + ClusterReason(t, cs[|cs| - 1])
  }

  function ReturnsFor(t: Tables, c: Cluster, v: Variant): Option<Returns> {
    if (c, v) in t.keyed then NetReturns(t.keyed[(c, v)].first) else None
  }

  predicate AllPresent(t: Tables, cs: seq<Cluster>, v: Variant) {
    forall c :: c in cs ==> ReturnsFor(t, c, v).Some?
  }

  /** All returns of one variant over the given clusters, in order. */
  function Values(t: Tables, cs: seq<Cluster>, v: Variant): seq<real>
    requires AllPresent(t, cs, v)
  {
    if cs == [] then []
    else
      var last := cs[|cs| - 1];
      assert last in cs;
      var r := ReturnsFor(t, last, v).value;
      Values(t, cs[..|cs| - 1], v) + [r.one, r.three, r.ten]
  }

  function VariantValues(t: Tables, cs: seq<Cluster>, v: Variant): Option<seq<real>> {
    if cs != [] && AllPresent(t, cs, v) then Some(Values(t, cs, v)) else None
  }

  function SumOf(values: seq<real>): real {
    if values == [] then 0.0 else SumOf(values[..|values| - 1]) + values[|values| - 1]
  }

  function Mean(values: seq<real>): real
    requires values != []
  {
    SumOf(values) / (|values| as real)
  }

  function MeanFor(t: Tables, cs: seq<Cluster>, v: Variant): Option<real> {
    var values := VariantValues(t, cs, v);
    if values.Some? && values.value != [] then Some(Mean(values.value)) else None
  }

  predicate Beats(t: Tables, cs: seq<Cluster>, baseline: Variant) {
    var candidate, base := MeanFor(t, cs, EventReasoning), MeanFor(t, cs, baseline);
    candidate.Some? && base.Some? && candidate.value > base.value
  }

  function Abs(x: real): real {
    if x < 0.0 then -x else x
  }

  function Contribution(r: Returns): real {
    Abs(r.one) + Abs(r.three) + Abs(r.ten)
  }

  /** What each test cluster with candidate returns contributes, in order. */
  function Contributions(t: Tables, cs: seq<Cluster>): seq<real> {
    if cs == [] then []
    else
      var r := ReturnsFor(t, cs[|cs| - 1], EventReasoning);
      Contributions(t, cs[..|cs| - 1]) + (if r.Some? then [Contribution(r.value)] else [])
  }

  function MaxOf(values: seq<real>): real
    requires values != []
  {
    var last := values[|values| - 1];
    if |values| == 1 then last
    else
      var rest := MaxOf(values[..|values| - 1]);
      if rest < last then last else rest
  }

  function Share(contributions: seq<real>): Option<real> {
    if contributions != [] && SumOf(contributions) > 0.0
    then Some(MaxOf(contributions) / SumOf(contributions)) else None
  }

  // ---- sorting ------------------------------------------------------------------------------------

  function Rank(v: Variant): nat {
    match v
    case EventReasoning => 0 case FixedMapping => 1 case Momentum => 2 case Sentiment => 3 case SimpleHold => 4
  }

  predicate IsLeast(m: nat, s: set<nat>) {
    m in s && forall x :: x in s ==> m <= x
  }

  function Least(s: set<nat>): (m: nat)
    requires s != {}
    ensures IsLeast(m, s)
  {
    LeastExists(s);
    var m :| m in s && IsLeast(m, s);
    m
  }

  lemma {:induction false} LeastExists(s: set<nat>)
    requires s != {}
    ensures exists m :: m in s && IsLeast(m, s)
  {
    var a :| a in s;
    var rest := s - {a};
    if rest == {} {
      assert s == {a} && IsLeast(a, s);
    } else {
      LeastExists(rest);
      var m :| m in rest && IsLeast(m, rest);
      LeastOfTwo(s, a, m);
    }
  }

  lemma {:induction false} LeastOfTwo(s: set<nat>, a: nat, m: nat)
    requires a in s && IsLeast(m, s - {a})
    ensures IsLeast(if a < m then a else m, s)
  {
    var k := if a < m then a else m;
    forall x | x in s ensures k <= x { assert x == a || x in s - {a}; }
  }

  predicate Increasing(r: seq<nat>) {
    forall i, j :: 0 <= i < j < |r| ==> r[i] < r[j]
  }

  lemma {:induction false} PrependKeepsIncreasing(m: nat, rest: seq<nat>)
    requires Increasing(rest) && forall x :: x in rest ==> m < x
    ensures Increasing([m] + rest)
    ensures forall x :: x in [m] + rest <==> x == m || x in rest
  {
    var all := [m] + rest;
    forall i, j | 0 <= i < j < |all| ensures all[i] < all[j] {
      assert all[j] == rest[j - 1] && rest[j - 1] in rest;
      if 0 < i { assert all[i] == rest[i - 1]; }
    }
  }

  /** The members of a set in increasing order. */
  function Sorted(s: set<nat>): (r: seq<nat>)
    ensures |r| == |s| && Increasing(r) && forall x :: x in r <==> x in s
  {
    if s == {} then []
    else
      var m := Least(s);
      var rest := Sorted(s - {m});
      PrependKeepsIncreasing(m, rest);
      [m] + rest
  }

  /** What the evidence hash covers of one row. */
  datatype HashRow = HashRow(
    cluster: Cluster, variant: Variant, partition: Partition, visibleAt: Time,
    firstRequest: Id, firstResult: Id, repeatRequest: Id, repeatResult: Id)

  function RowOf(e: Evidence): HashRow {
    HashRow(e.cluster, e.variant, e.partition, e.visibleAt,
      e.first.requestHash, e.first.resultHash, e.repeated.requestHash, e.repeated.resultHash)
  }

  predicate RowBefore(a: HashRow, b: HashRow) {
    a.cluster < b.cluster || (a.cluster == b.cluster && Rank(a.variant) < Rank(b.variant))
  }

  /** Stable insertion: a row goes after every row that is not after it. */
  function InsertRow(rows: seq<HashRow>, row: HashRow): seq<HashRow> {
    if rows == [] then [row]
    else
      var last := rows[|rows| - 1];
      if RowBefore(row, last) then InsertRow(rows[..|rows| - 1], row) + [last] else rows + [row]
  }

  function HashRows(evidence: seq<Evidence>): seq<HashRow> {
    if evidence == [] then []
    else InsertRow(HashRows(evidence[..|evidence| - 1]), RowOf(evidence[|evidence| - 1]))
  }

  // ---- the report ------------------------------------------------------------------------------------

  datatype Core = Core(
    accepted: bool, evidenceHash: seq<HashRow>, train: seq<Cluster>, test: seq<Cluster>, beaten: set<Variant>,
    candidateMean: Option<real>, maxShare: Option<real>, reasons: set<Reason>)

  /** `reportHash` is what the report hash was taken of. */
  datatype Report = Report(core: Core, reportHash: Core)

  const HALF: real := 0.5

  function GateReasons(t: Tables, train: seq<Cluster>, test: seq<Cluster>): set<Reason> {
    var mean := MeanFor(t, test, EventReasoning);
    var share := Share(Contributions(t, test));
    When(|train| < 2, InsufficientTrain)
    + When(|test| < 3, InsufficientTest)
    + When(WalkForwardBroken(t), WalkForwardInvalid)
    + (set v | v in VARIANTS && 1 < |Strategies(t, v)| :: StrategyChanged(v))
    + ClusterReasons(t, train + test)
    + When(mean.None? || mean.value <= 0.0, CandidateNotPositive)
    + When(forall v :: v in BASELINES ==> !Beats(t, test, v), NoBaselineBeaten)
    + When(share.None? || HALF < share.value, DominanceNotCleared)
  }

  function Judge(t: Tables, rows: seq<HashRow>): Report {
    var train, test := Sorted(ClustersIn(t, Train)), Sorted(ClustersIn(t, Test));
    var reasons := t.reasons + GateReasons(t, train, test);
    var core := Core(
      reasons == {}, rows, train, test, (set v | v in BASELINES && Beats(t, test, v)),
      MeanFor(t, test, EventReasoning), Share(Contributions(t, test)), reasons);
    Report(core, core)
  }

  function Assess(evidence: seq<Evidence>): Report {
    Judge(Fill(evidence), HashRows(evidence))
  }

  /** What the constructor of the result demands. */
  predicate Constructible(r: Report) {
    var c := r.core;
    && Increasing(c.train) && Increasing(c.test)
    && (forall x :: x in c.train ==> x !in c.test)
    && (c.accepted <==> c.reasons == {})
    && (c.maxShare.Some? ==> 0.0 <= c.maxShare.value <= 1.0)
    && (c.accepted ==>
          && 2 <= |c.train| && 3 <= |c.test| && c.beaten != {}
          && c.candidateMean.Some? && 0.0 < c.candidateMean.value
          && c.maxShare.Some? && c.maxShare.value <= HALF)
    && r.reportHash == c
  }
}
