/** Which requests and results survive being written and read, and that reading accepts
    nothing but what writing produces. */
module CodecRoundTrips {
  import opened Decimals
  import opened Codecs

  // ---- fields -------------------------------------------------------------------------------

  lemma {:induction false} StringsBack(xs: seq<string>)
    ensures Strings(xs).Arr? && (AllStrings(Strings(xs).items) <==> NoneEmpty(xs))
    ensures NoneEmpty(xs) ==> Texts(Strings(xs).items) == xs
  {
    var items := Strings(xs).items;
    if AllStrings(items) {
      forall i | 0 <= i < |xs| ensures xs[i] != "" { assert items[i].text == xs[i]; }
    }
  }

  lemma {:induction false} StringsAgain(items: seq<Json>)
    requires AllStrings(items)
    ensures Strings(Texts(items)) == Arr(items) && NoneEmpty(Texts(items))
  {
    forall i | 0 <= i < |items| ensures Strings(Texts(items)).items[i] == items[i] {}
  }

  lemma {:induction false} NumbersBack(xs: seq<int>)
    ensures Numbers(xs).Arr? && AllInts(Numbers(xs).items) && Ints(Numbers(xs).items) == xs
  {
  }

  lemma {:induction false} NumbersAgain(items: seq<Json>)
    requires AllInts(items)
    ensures Numbers(Ints(items)) == Arr(items)
  {
  }

  /** What the codec needs of decimals: every text written is read, as a number that
      writes alike, and every text read is one that writing produces. */
  ghost predicate Lawful(w: Wire) {
    && (forall d {:trigger w.write(d)} :: WritesLegibly(w, d))
    && (forall raw {:trigger w.parse(raw)} :: w.parse(raw).Some? ==> w.write(w.parse(raw).value) == raw)
  }

  predicate WritesLegibly(w: Wire, d: Decimal) {
    var text := w.write(d);
    && text != "" && w.parse(text).Some?
    && (0 < Signed(d) ==> 0 < Signed(w.parse(text).value))
  }

  predicate Survives(w: Wire, d: Decimal) {
    var back := w.parse(w.write(d));
    back.Some? && SameValue(back.value, d)
  }

  /** The number the reader puts in a written number's place. */
  function Reread(w: Wire, d: Decimal): Decimal {
    var back := w.parse(w.write(d));
    if back.Some? then back.value else d
  }

  lemma {:induction false} DecimalFieldBack(o: map<Key, Json>, k: Key, d: Decimal, w: Wire)
    requires Lawful(w) && k in o && o[k] == Str(w.write(d))
    ensures GetDecimal(o, k, w) == Ok(Reread(w, d))
    ensures w.write(Reread(w, d)) == w.write(d) && (0 < Signed(d) ==> 0 < Signed(Reread(w, d)))
  {
    assert WritesLegibly(w, d);
  }

  lemma {:induction false} DecimalFieldAgain(o: map<Key, Json>, k: Key, w: Wire)
    requires Lawful(w) && GetDecimal(o, k, w).Ok?
    ensures var d := GetDecimal(o, k, w).value; o[k] == Str(w.write(d)) && Reread(w, d) == d
  {
  }

  // ---- requests --------------------------------------------------------------------------------

  /** Equality of requests as the program compares them: decimals as numbers. */
  predicate SameRequest(a: BacktestRequest, b: BacktestRequest) {
    && a == b.(simulation := b.simulation.(cash := a.simulation.cash))
    && SameValue(a.simulation.cash, b.simulation.cash)
  }

  /** What the reader demands of a signal beyond what its constructor does. */
  predicate SignalNamed(s: SignalIntent) {
    s.signalId != "" && s.event != "" && NoneEmpty(s.evidence) && NoneEmpty(s.invalidation)
  }

  predicate Portable(r: BacktestRequest, w: Wire) {
    SignalNamed(r.signal) && Survives(w, r.simulation.cash)
  }

  lemma {:induction false} SignalBack(s: SignalIntent)
    requires SignalValid(s) && s.instrument != ""
    ensures SignalToDict(s).Keys == SIGNAL_KEYS
    ensures SignalFromDict(SignalToDict(s)) == if SignalNamed(s) then Ok(s) else Bad
  {
    StringsBack(s.evidence);
    StringsBack(s.invalidation);
  }

  lemma {:induction false} SignalAgain(o: map<Key, Json>)
    requires o.Keys == SIGNAL_KEYS && SignalFromDict(o).Ok?
    ensures SignalToDict(SignalFromDict(o).value) == o
    ensures SignalValid(SignalFromDict(o).value) && SignalNamed(SignalFromDict(o).value)
  {
    StringsAgain(o[EvidenceRefs].items);
    StringsAgain(o[InvalidationConditions].items);
  }

  lemma {:induction false} SimulationNamed(s: SimulationSpec)
    requires SimulationValid(s)
    ensures s.granularity != "" && s.book != "" && s.fill != "" && s.fee != "" && s.venue != "" && s.currency != ""
  {
    var texts := [s.granularity, s.book, s.fill, s.fee, s.venue, s.currency];
    assert texts[0] != "" && texts[1] != "" && texts[2] != "" && texts[3] != "" && texts[4] != "" && texts[5] != "";
  }

  function WithCash(s: SimulationSpec, cash: Decimal): SimulationSpec {
    s.(cash := cash)
  }

  lemma {:induction false} SimulationBack(s: SimulationSpec, w: Wire)
    requires Lawful(w) && SimulationValid(s)
    ensures SimulationToDict(s, w).Keys == SIMULATION_KEYS
    ensures SimulationFromDict(SimulationToDict(s, w), w) == Ok(WithCash(s, Reread(w, s.cash)))
  {
    DecimalFieldBack(SimulationToDict(s, w), StartingCash, s.cash, w);
    SimulationNamed(s);
    var texts := [s.granularity, s.book, s.fill, s.fee, s.venue, s.currency];
    assert NoneEmpty(texts);
  }

  lemma {:induction false} SimulationAgain(o: map<Key, Json>, w: Wire)
    requires Lawful(w) && o.Keys == SIMULATION_KEYS && SimulationFromDict(o, w).Ok?
    ensures var s := SimulationFromDict(o, w).value; SimulationToDict(s, w) == o && Reread(w, s.cash) == s.cash
  {
    DecimalFieldAgain(o, StartingCash, w);
  }

  lemma {:induction false} NamedRequest(r: BacktestRequest)
    requires RequestValid(r)
    ensures r.id != "" && r.market != "" && r.snapshot != "" && r.selection != "" && r.strategy != ""
    ensures r.signal.instrument != ""
  {
    var texts := [r.id, r.market, r.snapshot, r.selection, r.strategy];
    assert texts[0] != "" && texts[1] != "" && texts[2] != "" && texts[3] != "" && texts[4] != "";
  }

  /** The request the reader makes of a written one. */
  function RereadRequest(r: BacktestRequest, w: Wire): BacktestRequest {
    r.(simulation := WithCash(r.simulation, Reread(w, r.simulation.cash)))
  }

  lemma {:induction false} RereadIsValid(r: BacktestRequest, w: Wire)
    requires Lawful(w) && RequestValid(r)
    ensures RequestValid(RereadRequest(r, w)) && w.write(Reread(w, r.simulation.cash)) == w.write(r.simulation.cash)
  {
    assert WritesLegibly(w, r.simulation.cash);
    var s := r.simulation;
    assert NoneEmpty([s.granularity, s.book, s.fill, s.fee, s.venue, s.currency]);
    assert NoneEmpty([r.id, r.market, r.snapshot, r.selection, r.strategy]);
  }

  lemma {:induction false} RequestFieldsBack(r: BacktestRequest, w: Wire, simulation: SimulationSpec)
    requires RequestValid(r)
    ensures RequestFields(RequestToDict(r, w), r.signal, simulation) == Ok(r.(simulation := simulation))
  {
    NamedRequest(r);
    StringsBack(r.instruments);
    NumbersBack(r.horizons);
  }

  lemma {:induction false} RequestObjects(r: BacktestRequest, w: Wire)
    ensures var o := RequestToDict(r, w);
      && o.Keys == REQUEST_KEYS && GetString(o, SchemaVersion) == Ok(REQUEST_SCHEMA)
      && GetObject(o, Signal, SignalToDict(r.signal).Keys) == Ok(SignalToDict(r.signal))
      && GetObject(o, Simulation, SimulationToDict(r.simulation, w).Keys) == Ok(SimulationToDict(r.simulation, w))
  {
  }

  lemma {:induction false} RequestRead(r: BacktestRequest, w: Wire)
    requires Lawful(w) && RequestValid(r)
    ensures RequestToDict(r, w).Keys == REQUEST_KEYS
    ensures RequestFromDict(RequestToDict(r, w), w) == if SignalNamed(r.signal) then Ok(RereadRequest(r, w)) else Bad
  {
    RequestObjects(r, w);
    NamedRequest(r);
    SignalBack(r.signal);
    SimulationBack(r.simulation, w);
    RequestFieldsBack(r, w, WithCash(r.simulation, Reread(w, r.simulation.cash)));
    RereadIsValid(r, w);
  }

  /** A valid request survives being written and read exactly when its signal, event and
      references have names and its cash survives. */
  lemma {:induction false} RequestRoundTrips(r: BacktestRequest, w: Wire)
    requires Lawful(w) && RequestValid(r)
    ensures var back := RequestFromDict(RequestToDict(r, w), w);
      (back.Ok? && SameRequest(back.value, r)) <==> Portable(r, w)
  {
    RequestRead(r, w);
    assert WritesLegibly(w, r.simulation.cash);
  }

  lemma {:induction false} RequestParts(o: map<Key, Json>, w: Wire) returns (signal: SignalIntent, simulation: SimulationSpec)
    requires RequestFromDict(o, w).Ok?
    ensures o.Keys == REQUEST_KEYS && o[SchemaVersion] == Str(REQUEST_SCHEMA) && o[Signal].Obj? && o[Simulation].Obj?
    ensures o[Signal].fields.Keys == SIGNAL_KEYS && o[Simulation].fields.Keys == SIMULATION_KEYS
    ensures SignalFromDict(o[Signal].fields) == Ok(signal) && SimulationFromDict(o[Simulation].fields, w) == Ok(simulation)
    ensures RequestFields(o, signal, simulation) == RequestFromDict(o, w)
    ensures var r := RequestFromDict(o, w).value; RequestValid(r) && r.signal == signal && r.simulation == simulation
  {
    signal, simulation := SignalFromDict(o[Signal].fields).value, SimulationFromDict(o[Simulation].fields, w).value;
  }

  lemma {:induction false} RequestFieldsAgain(o: map<Key, Json>, signal: SignalIntent, simulation: SimulationSpec, w: Wire)
    requires o.Keys == REQUEST_KEYS && RequestFields(o, signal, simulation).Ok?
    requires o[SchemaVersion] == Str(REQUEST_SCHEMA) && o[Signal] == Obj(SignalToDict(signal))
    requires o[Simulation] == Obj(SimulationToDict(simulation, w))
    ensures RequestToDict(RequestFields(o, signal, simulation).value, w) == o
  {
    StringsAgain(o[InstrumentIds].items);
    NumbersAgain(o[HorizonsSessions].items);
  }

  /** The reader accepts only what the writer makes of a valid request that survives. */
  lemma {:induction false} RequestReadingIsExact(o: map<Key, Json>, w: Wire)
    requires Lawful(w) && RequestFromDict(o, w).Ok?
    ensures var r := RequestFromDict(o, w).value;
      RequestValid(r) && SignalNamed(r.signal) && RereadRequest(r, w) == r && RequestToDict(r, w) == o
  {
    var signal, simulation := RequestParts(o, w);
    SignalAgain(o[Signal].fields);
    SimulationAgain(o[Simulation].fields, w);
    RequestFieldsAgain(o, signal, simulation, w);
  }

  // ---- results -------------------------------------------------------------------------------------

  lemma {:induction false} InputBack(x: InputHash)
    requires x.name != "" && x.value != ""
    ensures InputFromDict(InputToDict(x)) == Ok(x)
  {
  }

  lemma {:induction false} InputsBack(xs: seq<InputHash>)
    requires forall i :: 0 <= i < |xs| ==> xs[i].name != "" && xs[i].value != ""
    ensures InputsFromArray(InputsToArray(xs)) == Ok(xs)
  {
    if xs != [] {
      var n := |xs| - 1;
      InputsBack(xs[..n]);
      var items := InputsToArray(xs);
      assert items[..|items| - 1] == InputsToArray(xs[..n]) && items[|items| - 1] == InputToDict(xs[n]);
      InputBack(xs[n]);
      assert xs == xs[..n] + [xs[n]];
    }
  }

  lemma {:induction false} InputsAgain(items: seq<Json>)
    requires InputsFromArray(items).Ok?
    ensures InputsToArray(InputsFromArray(items).value) == items
  {
    if items != [] {
      var n := |items| - 1;
      InputsAgain(items[..n]);
      var xs := InputsFromArray(items).value;
      assert xs[..|xs| - 1] == InputsFromArray(items[..n]).value;
      assert InputToDict(xs[|xs| - 1]).fields == items[n].fields;
      assert items == items[..n] + [items[n]];
    }
  }

  predicate SameMetric(a: Metric, b: Metric) {
    a.name == b.name && a.unit == b.unit && SameValue(a.value, b.value)
  }

  predicate SameMetrics(a: seq<Metric>, b: seq<Metric>) {
    |a| == |b| && forall i :: 0 <= i < |a| ==> SameMetric(a[i], b[i])
  }

  predicate MetricsNamed(ms: seq<Metric>) {
    forall i :: 0 <= i < |ms| ==> ms[i].name != "" && ms[i].unit != ""
  }

  predicate MetricsSurvive(ms: seq<Metric>, w: Wire) {
    forall i :: 0 <= i < |ms| ==> Survives(w, ms[i].value)
  }

  function RereadMetric(m: Metric, w: Wire): Metric {
    m.(value := Reread(w, m.value))
  }

  function RereadMetrics(ms: seq<Metric>, w: Wire): seq<Metric> {
    seq(|ms|, i requires 0 <= i < |ms| => RereadMetric(ms[i], w))
  }

  lemma {:induction false} MetricBack(m: Metric, w: Wire)
    requires Lawful(w) && m.name != "" && m.unit != ""
    ensures MetricFromDict(MetricToDict(m, w), w) == Ok(RereadMetric(m, w))
    ensures MetricRow(RereadMetric(m, w), w) == MetricRow(m, w)
  {
    DecimalFieldBack(MetricToDict(m, w).fields, Value, m.value, w);
  }

  lemma {:induction false} MetricsBack(ms: seq<Metric>, w: Wire)
    requires Lawful(w) && MetricsNamed(ms)
    ensures MetricsFromArray(MetricsToArray(ms, w), w) == Ok(RereadMetrics(ms, w))
    ensures MetricRows(RereadMetrics(ms, w), w) == MetricRows(ms, w)
  {
    forall i | 0 <= i < |ms| ensures MetricRow(RereadMetric(ms[i], w), w) == MetricRow(ms[i], w) { MetricBack(ms[i], w); }
    if ms != [] {
      var n := |ms| - 1;
      MetricsBack(ms[..n], w);
      MetricBack(ms[n], w);
      var items := MetricsToArray(ms, w);
      assert items[..|items| - 1] == MetricsToArray(ms[..n], w) && items[|items| - 1] == MetricToDict(ms[n], w);
      assert MetricsFromArray(items, w) == Ok(RereadMetrics(ms[..n], w) + [RereadMetric(ms[n], w)]);
      assert RereadMetrics(ms, w) == RereadMetrics(ms[..n], w) + [RereadMetric(ms[n], w)];
    } else {
      assert RereadMetrics(ms, w) == [];
    }
  }

  lemma {:induction false} MetricAgain(j: Json, w: Wire)
    requires Lawful(w) && MetricFromDict(j, w).Ok?
    ensures var m := MetricFromDict(j, w).value; MetricToDict(m, w) == j && RereadMetric(m, w) == m
  {
    DecimalFieldAgain(j.fields, Value, w);
    assert MetricToDict(MetricFromDict(j, w).value, w).fields == j.fields;
  }

  lemma {:induction false} MetricsAgain(items: seq<Json>, w: Wire)
    requires Lawful(w) && MetricsFromArray(items, w).Ok?
    ensures var ms := MetricsFromArray(items, w).value;
      MetricsToArray(ms, w) == items && RereadMetrics(ms, w) == ms
  {
    if items != [] {
      var n := |items| - 1;
      MetricsAgain(items[..n], w);
      var xs := MetricsFromArray(items, w).value;
      var front := MetricsFromArray(items[..n], w).value;
      assert xs[..|xs| - 1] == front;
      MetricAgain(items[n], w);
      assert items == items[..n] + [items[n]];
      assert RereadMetrics(xs, w) == RereadMetrics(front, w) + [RereadMetric(xs[|xs| - 1], w)];
    }
  }

  predicate SameManifest(a: RunManifest, b: RunManifest) {
    a == b.(request := a.request) && SameRequest(a.request, b.request)
  }

  predicate SameResult(a: BacktestResult, b: BacktestResult) {
    && a == b.(manifest := a.manifest, metrics := a.metrics)
    && SameManifest(a.manifest, b.manifest) && SameMetrics(a.metrics, b.metrics)
  }

  predicate ResultPortable(r: BacktestResult, w: Wire) {
    Portable(r.manifest.request, w) && MetricsSurvive(r.metrics, w)
  }

  function RereadManifest(m: RunManifest, w: Wire): RunManifest {
    m.(request := RereadRequest(m.request, w))
  }

  lemma {:induction false} NamedManifest(m: RunManifest, w: Wire)
    requires ManifestValid(m, w)
    ensures m.run != "" && m.engineName != "" && m.engineVersion != "" && m.bridgeName != "" && m.bridgeVersion != ""
    ensures m.adapterName != "" && m.adapterVersion != "" && m.requestHash != "" && m.configHash != ""
    ensures forall i :: 0 <= i < |m.inputs| ==> m.inputs[i].name != "" && m.inputs[i].value != ""
  {
    var texts :=
      [m.run, m.engineName, m.engineVersion, m.bridgeName, m.bridgeVersion, m.adapterName, m.adapterVersion];
    assert texts[0] != "" && texts[1] != "" && texts[2] != "" && texts[3] != "" && texts[4] != "";
    assert texts[5] != "" && texts[6] != "";
  }

  lemma {:induction false} RereadManifestIsValid(m: RunManifest, w: Wire)
    requires Lawful(w) && ManifestValid(m, w)
    ensures ManifestValid(RereadManifest(m, w), w)
  {
    RereadIsValid(m.request, w);
    assert HashedRequestOf(RereadRequest(m.request, w), w) == HashedRequestOf(m.request, w);
    assert NoneEmpty(
      [m.run, m.engineName, m.engineVersion, m.bridgeName, m.bridgeVersion, m.adapterName, m.adapterVersion]);
  }

  lemma {:induction false} ManifestFieldsBack(m: RunManifest, w: Wire, request: BacktestRequest)
    requires ManifestValid(m, w)
    ensures ManifestFields(ManifestToDict(m, w), request, m.inputs) == Ok(m.(request := request))
  {
    NamedManifest(m, w);
  }

  lemma {:induction false} ManifestObjects(m: RunManifest, w: Wire)
    ensures var o := ManifestToDict(m, w);
      && o.Keys == MANIFEST_KEYS && GetArray(o, InputHashes) == Ok(InputsToArray(m.inputs))
      && GetObject(o, Request, RequestToDict(m.request, w).Keys) == Ok(RequestToDict(m.request, w))
  {
  }

  lemma {:induction false} ManifestRead(m: RunManifest, w: Wire)
    requires Lawful(w) && ManifestValid(m, w)
    ensures ManifestToDict(m, w).Keys == MANIFEST_KEYS
    ensures ManifestFromDict(ManifestToDict(m, w), w) ==
      if SignalNamed(m.request.signal) then Ok(RereadManifest(m, w)) else Bad
  {
    ManifestObjects(m, w);
    NamedManifest(m, w);
    InputsBack(m.inputs);
    RequestRead(m.request, w);
    ManifestFieldsBack(m, w, RereadRequest(m.request, w));
    RereadManifestIsValid(m, w);
  }

  /** Reading the remaining fields loses nothing of them. */
  lemma {:induction false} ManifestFieldsAgain(o: map<Key, Json>, request: BacktestRequest, inputs: seq<InputHash>, w: Wire)
    requires o.Keys == MANIFEST_KEYS && ManifestFields(o, request, inputs).Ok?
    requires o[Request] == Obj(RequestToDict(request, w)) && o[InputHashes] == Arr(InputsToArray(inputs))
    ensures ManifestToDict(ManifestFields(o, request, inputs).value, w) == o
  {
  }

  lemma {:induction false} ManifestParts(o: map<Key, Json>, w: Wire) returns (request: BacktestRequest, inputs: seq<InputHash>)
    requires ManifestFromDict(o, w).Ok?
    ensures o.Keys == MANIFEST_KEYS && o[Request].Obj? && o[InputHashes].Arr?
    ensures RequestFromDict(o[Request].fields, w) == Ok(request) && InputsFromArray(o[InputHashes].items) == Ok(inputs)
    ensures ManifestFields(o, request, inputs) == ManifestFromDict(o, w)
    ensures var m := ManifestFromDict(o, w).value; ManifestValid(m, w) && m.request == request
  {
    request, inputs := RequestFromDict(o[Request].fields, w).value, InputsFromArray(o[InputHashes].items).value;
  }

  lemma {:induction false} ManifestAgain(o: map<Key, Json>, w: Wire)
    requires Lawful(w) && ManifestFromDict(o, w).Ok?
    ensures var m := ManifestFromDict(o, w).value;
      ManifestToDict(m, w) == o && ManifestValid(m, w) && SignalNamed(m.request.signal) && RereadManifest(m, w) == m
  {
    var request, inputs := ManifestParts(o, w);
    RequestReadingIsExact(o[Request].fields, w);
    InputsAgain(o[InputHashes].items);
    ManifestFieldsAgain(o, request, inputs, w);
  }

  function RereadResult(r: BacktestResult, w: Wire): BacktestResult {
    r.(manifest := RereadManifest(r.manifest, w), metrics := RereadMetrics(r.metrics, w))
  }

  lemma {:induction false} RereadResultIsValid(r: BacktestResult, w: Wire)
    requires Lawful(w) && ResultValid(r, w)
    ensures ResultValid(RereadResult(r, w), w)
  {
    RereadManifestIsValid(r.manifest, w);
    MetricsBack(r.metrics, w);
    assert HashedResultOf(RereadResult(r, w), w) == HashedResultOf(r, w);
  }

  lemma {:induction false} ResultFieldsBack(r: BacktestResult, w: Wire, manifest: RunManifest, metrics: seq<Metric>)
    requires IsSha256(r.hash) && NoneEmpty(r.artifacts) && NoneEmpty(r.failures)
    ensures ResultFields(ResultToDict(r, w), manifest, metrics) == Ok(r.(manifest := manifest, metrics := metrics))
  {
    StringsBack(r.artifacts);
    StringsBack(r.failures);
  }

  lemma {:induction false} ResultObjects(r: BacktestResult, w: Wire)
    ensures var o := ResultToDict(r, w);
      && o.Keys == RESULT_KEYS && GetString(o, SchemaVersion) == Ok(RESULT_SCHEMA)
      && GetObject(o, Manifest, ManifestToDict(r.manifest, w).Keys) == Ok(ManifestToDict(r.manifest, w))
      && GetArray(o, Metrics) == Ok(MetricsToArray(r.metrics, w))
  {
  }

  lemma {:induction false} ResultRead(r: BacktestResult, w: Wire)
    requires Lawful(w) && ResultValid(r, w)
    ensures ResultFromDict(ResultToDict(r, w), w) ==
      if SignalNamed(r.manifest.request.signal) then Ok(RereadResult(r, w)) else Bad
  {
    ResultObjects(r, w);
    ManifestRead(r.manifest, w);
    MetricsBack(r.metrics, w);
    ResultFieldsBack(r, w, RereadManifest(r.manifest, w), RereadMetrics(r.metrics, w));
    RereadResultIsValid(r, w);
  }

  /** A valid result survives exactly when its request does and each of its metrics does. */
  lemma {:induction false} ResultRoundTrips(r: BacktestResult, w: Wire)
    requires Lawful(w) && ResultValid(r, w)
    ensures var back := ResultFromDict(ResultToDict(r, w), w);
      (back.Ok? && SameResult(back.value, r)) <==> ResultPortable(r, w)
  {
    ResultRead(r, w);
    assert WritesLegibly(w, r.manifest.request.simulation.cash);
    forall i | 0 <= i < |r.metrics|
      ensures SameMetric(RereadMetrics(r.metrics, w)[i], r.metrics[i]) <==> Survives(w, r.metrics[i].value)
    {
      assert WritesLegibly(w, r.metrics[i].value);
    }
  }

  /** The reader accepts only what the writer makes of a valid result that survives. */
  lemma {:induction false} ResultReadingIsExact(o: map<Key, Json>, w: Wire)
    requires Lawful(w) && ResultFromDict(o, w).Ok?
    ensures var r := ResultFromDict(o, w).value;
      ResultValid(r, w) && ResultToDict(r, w) == o && RereadResult(r, w) == r
  {
    var manifest, metrics := ResultParts(o, w);
    ManifestAgain(o[Manifest].fields, w);
    MetricsAgain(o[Metrics].items, w);
    ResultFieldsAgain(o, manifest, metrics, w);
  }

  lemma {:induction false} ResultParts(o: map<Key, Json>, w: Wire) returns (manifest: RunManifest, metrics: seq<Metric>)
    requires ResultFromDict(o, w).Ok?
    ensures o.Keys == RESULT_KEYS && o[Manifest].Obj? && o[Metrics].Arr? && o[SchemaVersion] == Str(RESULT_SCHEMA)
    ensures ManifestFromDict(o[Manifest].fields, w) == Ok(manifest) && MetricsFromArray(o[Metrics].items, w) == Ok(metrics)
    ensures ResultFields(o, manifest, metrics) == ResultFromDict(o, w)
    ensures var r := ResultFromDict(o, w).value; ResultValid(r, w) && r.manifest == manifest && r.metrics == metrics
  {
    manifest, metrics := ManifestFromDict(o[Manifest].fields, w).value, MetricsFromArray(o[Metrics].items, w).value;
  }

  lemma {:induction false} ResultFieldsAgain(o: map<Key, Json>, manifest: RunManifest, metrics: seq<Metric>, w: Wire)
    requires o.Keys == RESULT_KEYS && ResultFields(o, manifest, metrics).Ok? && o[SchemaVersion] == Str(RESULT_SCHEMA)
    requires o[Manifest] == Obj(ManifestToDict(manifest, w)) && o[Metrics] == Arr(MetricsToArray(metrics, w))
    ensures ResultToDict(ResultFields(o, manifest, metrics).value, w) == o
  {
    StringsAgain(o[ArtifactRefs].items);
    StringsAgain(o[FailureReasons].items);
  }
}
