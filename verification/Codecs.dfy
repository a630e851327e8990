/** The closed JSON contracts of backtest requests and results: writers, readers, and
    the constructors the readers go through. A timestamp leaf stands for the canonical
    UTC text of an instant, an object's keys for its field names. */
module Codecs {
  import opened Base
  import opened Decimals

  datatype Key =
    | SchemaVersion | RequestId | Signal | AsOf | StartAt | EndAt | Market | InstrumentIds | DataSnapshotId
    | TargetSelectionRef | StrategyRef | HorizonsSessions | Simulation
    | SignalId | EventId | InstrumentId | Side | ValidFrom | ExpiresAt | EvidenceRefs | InvalidationConditions
    | DataGranularity | BookType | FillModel | FeeModel | VenueRuleset | BaseCurrency | StartingCash | RandomSeed
    | Manifest | Status | ResultHash | Metrics | ArtifactRefs | FailureReasons
    | RunId | Request | RequestHash | EngineName | EngineVersion | BridgeName | BridgeVersion
    | DataAdapterName | DataAdapterVersion | InputHashes | EngineConfigHash | ExecutedAt
    | Name | Value | Unit | UnknownField(text: string)

  datatype Json = Str(text: string) | Num(n: int) | Stamp(at: Time) | Arr(items: seq<Json>)
    | Obj(fields: map<Key, Json>) | OtherJson

  datatype Parsed<+T> = Ok(value: T) | Bad {
    predicate IsFailure() { Bad? }
    function PropagateFailure<U>(): Parsed<U> requires Bad? { Bad }
    function Extract(): T requires Ok? { value }
  }

  function Need(holds: bool): Parsed<()> {
    if holds then Ok(()) else Bad
  }

  // ---- the records ------------------------------------------------------------------------------

  datatype TradeSide = Buy | Sell

  datatype SignalIntent = SignalIntent(
    signalId: string, event: string, instrument: string, side: TradeSide, validFrom: Time, expiresAt: Time,
    evidence: seq<string>, invalidation: seq<string>)

  datatype SimulationSpec = SimulationSpec(
    granularity: string, book: string, fill: string, fee: string, venue: string, currency: string,
    cash: Decimal, seed: int)

  datatype BacktestRequest = BacktestRequest(
    id: string, signal: SignalIntent, asOf: Time, startAt: Time, endAt: Time, market: string,
    instruments: seq<string>, snapshot: string, selection: string, strategy: string, horizons: seq<int>,
    simulation: SimulationSpec)

  predicate Unique(xs: seq<string>) {
    forall i, j :: 0 <= i < j < |xs| ==> xs[i] != xs[j]
  }

  predicate NoneEmpty(xs: seq<string>) {
    forall i :: 0 <= i < |xs| ==> xs[i] != ""
  }

  predicate SignalValid(s: SignalIntent) {
    && s.validFrom < s.expiresAt
    && s.evidence != [] && s.invalidation != []
    && Unique(s.evidence) && Unique(s.invalidation)
  }

  predicate SimulationValid(s: SimulationSpec) {
    && NoneEmpty([s.granularity, s.book, s.fill, s.fee, s.venue, s.currency])
    && 0 < Signed(s.cash) && 0 <= s.seed
  }

  predicate Ascending(xs: seq<int>) {
    forall i, j :: 0 <= i < j < |xs| ==> xs[i] < xs[j]
  }

  predicate RequestValid(r: BacktestRequest) {
    && SignalValid(r.signal) && SimulationValid(r.simulation)
    && NoneEmpty([r.id, r.market, r.snapshot, r.selection, r.strategy])
    && r.asOf <= r.startAt < r.endAt
    && r.instruments != [] && Unique(r.instruments) && NoneEmpty(r.instruments)
    && r.signal.instrument in r.instruments
    && r.signal.validFrom <= r.asOf < r.signal.expiresAt
    && r.signal.validFrom <= r.startAt < r.signal.expiresAt
    && r.horizons != [] && Ascending(r.horizons) && (forall i :: 0 <= i < |r.horizons| ==> 0 < r.horizons[i])
  }

  // ---- what the codec is built over ----------------------------------------------------------------

  /** How decimals are printed and read, and the two content hashes. */
  datatype Wire = Wire(
    write: Decimal -> string, parse: string -> Option<Decimal>,
    hashRequest: HashedRequest -> string, hashResult: HashedResult -> string)

  // ---- fields -------------------------------------------------------------------------------------

  function GetString(o: map<Key, Json>, k: Key): Parsed<string> {
    if k in o && o[k].Str? && o[k].text != "" then Ok(o[k].text) else Bad
  }

  function GetInt(o: map<Key, Json>, k: Key): Parsed<int> {
    if k in o && o[k].Num? then Ok(o[k].n) else Bad
  }

  function GetTime(o: map<Key, Json>, k: Key): Parsed<Time> {
    if k in o && o[k].Stamp? then Ok(o[k].at) else Bad
  }

  function GetDecimal(o: map<Key, Json>, k: Key, w: Wire): Parsed<Decimal> {
    var raw :- GetString(o, k);
    var d := w.parse(raw);
    if d.Some? then Ok(d.value) else Bad
  }

  predicate AllStrings(items: seq<Json>) {
    forall i :: 0 <= i < |items| ==> items[i].Str? && items[i].text != ""
  }

  function Texts(items: seq<Json>): seq<string>
    requires AllStrings(items)
  {
    seq(|items|, i requires 0 <= i < |items| => items[i].text)
  }

  function GetStrings(o: map<Key, Json>, k: Key, allowEmpty: bool): Parsed<seq<string>> {
    if k in o && o[k].Arr? && AllStrings(o[k].items) && (allowEmpty || o[k].items != [])
    then Ok(Texts(o[k].items)) else Bad
  }

  predicate AllInts(items: seq<Json>) {
    forall i :: 0 <= i < |items| ==> items[i].Num?
  }

  function Ints(items: seq<Json>): seq<int>
    requires AllInts(items)
  {
    seq(|items|, i requires 0 <= i < |items| => items[i].n)
  }

  function GetInts(o: map<Key, Json>, k: Key): Parsed<seq<int>> {
    if k in o && o[k].Arr? && AllInts(o[k].items) then Ok(Ints(o[k].items)) else Bad
  }

  function GetObject(o: map<Key, Json>, k: Key, keys: set<Key>): Parsed<map<Key, Json>> {
    if k in o && o[k].Obj? && o[k].fields.Keys == keys then Ok(o[k].fields) else Bad
  }

  function Strings(xs: seq<string>): Json {
    Arr(seq(|xs|, i requires 0 <= i < |xs| => Str(xs[i])))
  }

  function Numbers(xs: seq<int>): Json {
    Arr(seq(|xs|, i requires 0 <= i < |xs| => Num(xs[i])))
  }

  // ---- requests -------------------------------------------------------------------------------------

  const REQUEST_SCHEMA := "market-impact.backtest-request.v1"
  const SIGNAL_SCHEMA := "market-impact.signal-intent.v1"

  const SIGNAL_KEYS: set<Key> :=
    {SchemaVersion, SignalId, EventId, InstrumentId, Side, ValidFrom, ExpiresAt, EvidenceRefs, InvalidationConditions}
  const SIMULATION_KEYS: set<Key> :=
    {DataGranularity, BookType, FillModel, FeeModel, VenueRuleset, BaseCurrency, StartingCash, RandomSeed}
  const REQUEST_KEYS: set<Key> :=
    {SchemaVersion, RequestId, Signal, AsOf, StartAt, EndAt, Market, InstrumentIds, DataSnapshotId,
     TargetSelectionRef, StrategyRef, HorizonsSessions, Simulation}

  function SideText(s: TradeSide): string {
    match s case Buy => "buy" case Sell => "sell"
  }

  function SideOf(text: string): Parsed<TradeSide> {
    if text == "buy" then Ok(Buy) else if text == "sell" then Ok(Sell) else Bad
  }

  function SignalToDict(s: SignalIntent): map<Key, Json> {
    map[SchemaVersion := Str(SIGNAL_SCHEMA), SignalId := Str(s.signalId), EventId := Str(s.event),
        InstrumentId := Str(s.instrument), Side := Str(SideText(s.side)), ValidFrom := Stamp(s.validFrom),
        ExpiresAt := Stamp(s.expiresAt), EvidenceRefs := Strings(s.evidence),
        InvalidationConditions := Strings(s.invalidation)]
  }

  function SignalFromDict(o: map<Key, Json>): Parsed<SignalIntent> {
    var schema :- GetString(o, SchemaVersion);
    var _ :- Need(schema == SIGNAL_SCHEMA);
    var id :- GetString(o, SignalId);
    var event :- GetString(o, EventId);
    var instrument :- GetString(o, InstrumentId);
    var sideText :- GetString(o, Side);
    var side :- SideOf(sideText);
    var validFrom :- GetTime(o, ValidFrom);
    var expiresAt :- GetTime(o, ExpiresAt);
    var evidence :- GetStrings(o, EvidenceRefs, false);
    var invalidation :- GetStrings(o, InvalidationConditions, false);
    var s := SignalIntent(id, event, instrument, side, validFrom, expiresAt, evidence, invalidation);
    var _ :- Need(SignalValid(s));
    Ok(s)
  }

  function SimulationToDict(s: SimulationSpec, w: Wire): map<Key, Json> {
    map[DataGranularity := Str(s.granularity), BookType := Str(s.book), FillModel := Str(s.fill),
        FeeModel := Str(s.fee), VenueRuleset := Str(s.venue), BaseCurrency := Str(s.currency),
        StartingCash := Str(w.write(s.cash)), RandomSeed := Num(s.seed)]
  }

  function SimulationFromDict(o: map<Key, Json>, w: Wire): Parsed<SimulationSpec> {
    var granularity :- GetString(o, DataGranularity);
    var book :- GetString(o, BookType);
    var fill :- GetString(o, FillModel);
    var fee :- GetString(o, FeeModel);
    var venue :- GetString(o, VenueRuleset);
    var currency :- GetString(o, BaseCurrency);
    var cash :- GetDecimal(o, StartingCash, w);
    var seed :- GetInt(o, RandomSeed);
    var s := SimulationSpec(granularity, book, fill, fee, venue, currency, cash, seed);
    var _ :- Need(SimulationValid(s));
    Ok(s)
  }

  function RequestToDict(r: BacktestRequest, w: Wire): map<Key, Json> {
    map[SchemaVersion := Str(REQUEST_SCHEMA), RequestId := Str(r.id), Signal := Obj(SignalToDict(r.signal)),
        AsOf := Stamp(r.asOf), StartAt := Stamp(r.startAt), EndAt := Stamp(r.endAt), Market := Str(r.market),
        InstrumentIds := Strings(r.instruments), DataSnapshotId := Str(r.snapshot),
        TargetSelectionRef := Str(r.selection), StrategyRef := Str(r.strategy),
        HorizonsSessions := Numbers(r.horizons), Simulation := Obj(SimulationToDict(r.simulation, w))]
  }

  function RequestFields(o: map<Key, Json>, signal: SignalIntent, simulation: SimulationSpec): Parsed<BacktestRequest> {
    var id :- GetString(o, RequestId);
    var asOf :- GetTime(o, AsOf);
    var startAt :- GetTime(o, StartAt);
    var endAt :- GetTime(o, EndAt);
    var market :- GetString(o, Market);
    var instruments :- GetStrings(o, InstrumentIds, false);
    var snapshot :- GetString(o, DataSnapshotId);
    var selection :- GetString(o, TargetSelectionRef);
    var strategy :- GetString(o, StrategyRef);
    var horizons :- GetInts(o, HorizonsSessions);
    Ok(BacktestRequest(
      id, signal, asOf, startAt, endAt, market, instruments, snapshot, selection, strategy, horizons, simulation))
  }

  function RequestFromDict(o: map<Key, Json>, w: Wire): Parsed<BacktestRequest> {
    var _ :- Need(o.Keys == REQUEST_KEYS);
    var schema :- GetString(o, SchemaVersion);
    var _ :- Need(schema == REQUEST_SCHEMA);
    var signalFields :- GetObject(o, Signal, SIGNAL_KEYS);
    var simulationFields :- GetObject(o, Simulation, SIMULATION_KEYS);
    var signal :- SignalFromDict(signalFields);
    var simulation :- SimulationFromDict(simulationFields, w);
    var r :- RequestFields(o, signal, simulation);
    var _ :- Need(RequestValid(r));
    Ok(r)
  }

  // ---- results ----------------------------------------------------------------------------------------

  datatype InputHash = InputHash(name: string, value: string)

  datatype RunManifest = RunManifest(
    run: string, request: BacktestRequest, requestHash: string, engineName: string, engineVersion: string,
    bridgeName: string, bridgeVersion: string, adapterName: string, adapterVersion: string,
    inputs: seq<InputHash>, configHash: string, executedAt: Time)

  datatype Metric = Metric(name: string, value: Decimal, unit: string)

  datatype RunStatus = Completed | Failed

  datatype BacktestResult = BacktestResult(
    manifest: RunManifest, status: RunStatus, hash: string, metrics: seq<Metric>, artifacts: seq<string>,
    failures: seq<string>)

  /** What a request hash covers: canonical texts, and lists without their order. */
  datatype HashedRequest = HashedRequest(
    rest: BacktestRequest, cash: string, instruments: multiset<string>, evidence: multiset<string>,
    invalidation: multiset<string>)

  /** What a result hash covers: neither the run nor its time of execution. */
  datatype HashedResult = HashedResult(
    engine: seq<string>, inputs: seq<InputHash>, requestHash: string, status: RunStatus,
    metrics: multiset<(string, string, string)>, artifacts: multiset<string>, failures: multiset<string>)

  const NO_CASH := Decimal(false, 0, 0)

  function HashedRequestOf(r: BacktestRequest, w: Wire): HashedRequest {
    HashedRequest(
      r.(instruments := [], signal := r.signal.(evidence := [], invalidation := []),
         simulation := r.simulation.(cash := NO_CASH)),
      w.write(r.simulation.cash), multiset(r.instruments), multiset(r.signal.evidence),
      multiset(r.signal.invalidation))
  }

  function MetricRow(m: Metric, w: Wire): (string, string, string) {
    (m.name, w.write(m.value), m.unit)
  }

  function MetricRows(ms: seq<Metric>, w: Wire): seq<(string, string, string)> {
    seq(|ms|, i requires 0 <= i < |ms| => MetricRow(ms[i], w))
  }

  function HashedResultOf(r: BacktestResult, w: Wire): HashedResult {
    var m := r.manifest;
    HashedResult(
      [m.bridgeName, m.bridgeVersion, m.adapterName, m.adapterVersion, m.configHash, m.engineName, m.engineVersion],
      m.inputs, m.requestHash, r.status, multiset(MetricRows(r.metrics, w)), multiset(r.artifacts), multiset(r.failures))
  }

  predicate IsSha256(text: string) {
    |text| == 64 && forall i :: 0 <= i < |text| ==> '0' <= text[i] <= '9' || 'a' <= text[i] <= 'f'
  }

  /** Text order as the language compares strings. */
  predicate TextBefore(a: string, b: string) {
    if b == "" then false
    else if a == "" then true
    else a[0] < b[0] || (a[0] == b[0] && TextBefore(a[1..], b[1..]))
  }

  predicate ManifestValid(m: RunManifest, w: Wire) {
    && RequestValid(m.request)
    && NoneEmpty([m.run, m.engineName, m.engineVersion, m.bridgeName, m.bridgeVersion, m.adapterName, m.adapterVersion])
    && IsSha256(m.requestHash) && IsSha256(m.configHash)
    && m.inputs != []
    && (forall i :: 0 <= i < |m.inputs| ==> m.inputs[i].name != "" && IsSha256(m.inputs[i].value))
    && (forall i, j :: 0 <= i < j < |m.inputs| ==> TextBefore(m.inputs[i].name, m.inputs[j].name))
    && m.requestHash == w.hashRequest(HashedRequestOf(m.request, w))
  }

  predicate ResultValid(r: BacktestResult, w: Wire) {
    && ManifestValid(r.manifest, w)
    && IsSha256(r.hash)
    && (if r.status == Completed then r.failures == [] else r.failures != [])
    && (forall i :: 0 <= i < |r.metrics| ==> r.metrics[i].name != "" && r.metrics[i].unit != "")
    && (forall i, j :: 0 <= i < j < |r.metrics| ==> r.metrics[i].name != r.metrics[j].name)
    && Unique(r.artifacts) && NoneEmpty(r.artifacts) && Unique(r.failures) && NoneEmpty(r.failures)
    && r.hash == w.hashResult(HashedResultOf(r, w))
  }

  const RESULT_SCHEMA := "market-impact.backtest-result.v1"

  const RESULT_KEYS: set<Key> := {SchemaVersion, Manifest, Status, ResultHash, Metrics, ArtifactRefs, FailureReasons}
  const MANIFEST_KEYS: set<Key> :=
    {RunId, Request, RequestHash, EngineName, EngineVersion, BridgeName, BridgeVersion, DataAdapterName,
     DataAdapterVersion, InputHashes, EngineConfigHash, ExecutedAt}
  const INPUT_KEYS: set<Key> := {Name, Value}
  const METRIC_KEYS: set<Key> := {Name, Value, Unit}

  function InputToDict(i: InputHash): Json {
    Obj(map[Name := Str(i.name), Value := Str(i.value)])
  }

  function InputFromDict(j: Json): Parsed<InputHash> {
    var _ :- Need(j.Obj? && j.fields.Keys == INPUT_KEYS);
    var name :- GetString(j.fields, Name);
    var value :- GetString(j.fields, Value);
    Ok(InputHash(name, value))
  }

  function MetricToDict(m: Metric, w: Wire): Json {
    Obj(map[Name := Str(m.name), Value := Str(w.write(m.value)), Unit := Str(m.unit)])
  }

  function MetricFromDict(j: Json, w: Wire): Parsed<Metric> {
    var _ :- Need(j.Obj? && j.fields.Keys == METRIC_KEYS);
    var name :- GetString(j.fields, Name);
    var value :- GetDecimal(j.fields, Value, w);
    var unit :- GetString(j.fields, Unit);
    Ok(Metric(name, value, unit))
  }

  function InputsToArray(xs: seq<InputHash>): seq<Json> {
    if xs == [] then [] else InputsToArray(xs[..|xs| - 1]) + [InputToDict(xs[|xs| - 1])]
  }

  function InputsFromArray(items: seq<Json>): Parsed<seq<InputHash>> {
    if items == [] then Ok([])
    else
      var front :- InputsFromArray(items[..|items| - 1]);
      var last :- InputFromDict(items[|items| - 1]);
      Ok(front + [last])
  }

  function MetricsToArray(xs: seq<Metric>, w: Wire): seq<Json> {
    if xs == [] then [] else MetricsToArray(xs[..|xs| - 1], w) + [MetricToDict(xs[|xs| - 1], w)]
  }

  function MetricsFromArray(items: seq<Json>, w: Wire): Parsed<seq<Metric>> {
    if items == [] then Ok([])
    else
      var front :- MetricsFromArray(items[..|items| - 1], w);
      var last :- MetricFromDict(items[|items| - 1], w);
      Ok(front + [last])
  }

  function ManifestToDict(m: RunManifest, w: Wire): map<Key, Json> {
    map[RunId := Str(m.run), Request := Obj(RequestToDict(m.request, w)), RequestHash := Str(m.requestHash),
        EngineName := Str(m.engineName), EngineVersion := Str(m.engineVersion), BridgeName := Str(m.bridgeName),
        BridgeVersion := Str(m.bridgeVersion), DataAdapterName := Str(m.adapterName),
        DataAdapterVersion := Str(m.adapterVersion), InputHashes := Arr(InputsToArray(m.inputs)),
        EngineConfigHash := Str(m.configHash), ExecutedAt := Stamp(m.executedAt)]
  }

  function GetArray(o: map<Key, Json>, k: Key): Parsed<seq<Json>> {
    if k in o && o[k].Arr? then Ok(o[k].items) else Bad
  }

  function ManifestFields(o: map<Key, Json>, request: BacktestRequest, inputs: seq<InputHash>): Parsed<RunManifest> {
    var run :- GetString(o, RunId);
    var requestHash :- GetString(o, RequestHash);
    var engineName :- GetString(o, EngineName);
    var engineVersion :- GetString(o, EngineVersion);
    var bridgeName :- GetString(o, BridgeName);
    var bridgeVersion :- GetString(o, BridgeVersion);
    var adapterName :- GetString(o, DataAdapterName);
    var adapterVersion :- GetString(o, DataAdapterVersion);
    var configHash :- GetString(o, EngineConfigHash);
    var executedAt :- GetTime(o, ExecutedAt);
    Ok(RunManifest(
      run, request, requestHash, engineName, engineVersion, bridgeName, bridgeVersion, adapterName, adapterVersion,
      inputs, configHash, executedAt))
  }

  function ManifestFromDict(o: map<Key, Json>, w: Wire): Parsed<RunManifest> {
    var _ :- Need(o.Keys == MANIFEST_KEYS);
    var items :- GetArray(o, InputHashes);
    var inputs :- InputsFromArray(items);
    var requestFields :- GetObject(o, Request, REQUEST_KEYS);
    var request :- RequestFromDict(requestFields, w);
    var m :- ManifestFields(o, request, inputs);
    var _ :- Need(ManifestValid(m, w));
    Ok(m)
  }

  function StatusText(s: RunStatus): string {
    match s case Completed => "completed" case Failed => "failed"
  }

  function StatusOf(text: string): Parsed<RunStatus> {
    if text == "completed" then Ok(Completed) else if text == "failed" then Ok(Failed) else Bad
  }

  function ResultToDict(r: BacktestResult, w: Wire): map<Key, Json> {
    map[SchemaVersion := Str(RESULT_SCHEMA), Manifest := Obj(ManifestToDict(r.manifest, w)),
        Status := Str(StatusText(r.status)), ResultHash := Str(r.hash),
        Metrics := Arr(MetricsToArray(r.metrics, w)), ArtifactRefs := Strings(r.artifacts),
        FailureReasons := Strings(r.failures)]
  }

  function ResultFields(o: map<Key, Json>, manifest: RunManifest, metrics: seq<Metric>): Parsed<BacktestResult> {
    var statusText :- GetString(o, Status);
    var status :- StatusOf(statusText);
    var hash :- GetString(o, ResultHash);
    var artifacts :- GetStrings(o, ArtifactRefs, true);
    var failures :- GetStrings(o, FailureReasons, true);
    Ok(BacktestResult(manifest, status, hash, metrics, artifacts, failures))
  }

  function ResultFromDict(o: map<Key, Json>, w: Wire): Parsed<BacktestResult> {
    var _ :- Need(o.Keys == RESULT_KEYS);
    var schema :- GetString(o, SchemaVersion);
    var _ :- Need(schema == RESULT_SCHEMA);
    var manifestFields :- GetObject(o, Manifest, MANIFEST_KEYS);
    var manifest :- ManifestFromDict(manifestFields, w);
    var items :- GetArray(o, Metrics);
    var metrics :- MetricsFromArray(items, w);
    var r :- ResultFields(o, manifest, metrics);
    var _ :- Need(ResultValid(r, w));
    Ok(r)
  }
}
