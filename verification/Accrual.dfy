/** The prospective accrual ledger: what an observation is judged by, what the
    append path writes, and what the independent reader accepts. A content hash is
    a `Digest`: a value that determines the content it was taken of. */
module Accrual {
  import opened Base

  datatype Digest =
    | Text(text: nat)
    | OfObservation(content: Content)
    | OfReceipt(attemptsMade: Cycle)
    | OfDecision(core: Core)
    | OfAccrual(study: Id, event: Id, evidence: Digest)

  datatype Tier = Official | Regulated | Primary | EstablishedNews | Specialist | Community | Unverified

  datatype Nature = ProductionLoss | TransportLoss | StorageLoss | PolicyOnly | DemandOnly
    | PlannedMaintenance | RetrospectiveOnly | Unclassified

  datatype Unit = BoePerDay | RegionalFraction

  datatype Loss = Loss(amount: real, unit: Unit)

  /** `details` stands for the descriptive text that no decision reads. */
  datatype Content = Content(
    event: Id, coverage: Digest, receipt: Digest, nature: Nature, commodity: Option<string>,
    loss: Option<Loss>, duration: Option<real>, provider: Id, tier: Tier, occurredAt: Option<Time>,
    availableAt: Time, raw: Digest, supersedes: Option<Digest>, details: Id)

  /** Actual receipt: an observation becomes available when it is retrieved. */
  datatype Observation = Observation(id: Digest, content: Content)

  datatype Attempt = Attempt(provider: Id, retrieval: Option<(Time, Digest)>, details: Id)

  datatype Cycle = Cycle(coverage: Digest, startedAt: Time, completedAt: Time, attempts: seq<Attempt>)

  datatype Receipt = Receipt(hash: Digest, cycle: Cycle)

  datatype Source = Source(provider: Id, tier: Tier, required: bool, occurrenceEligible: bool)

  datatype Coverage = Coverage(id: Digest, maximumCycle: Time, sources: seq<Source>)

  datatype Study = Study(
    id: Id, opensAfter: Time, closesAt: Time, target: nat, separation: Time, delay: Time, coverage: Coverage)

  const DAY: Time := 86400
  const ACCEPTED_TIERS: set<Tier> := {Official, Primary}
  const QUALIFYING: set<Nature> := {ProductionLoss, TransportLoss, StorageLoss}
  const PHYSICAL_ENERGY: set<string> := {"crude_oil", "natural_gas"}

  /** In the alphabetical order of their stored names. */
  datatype Reason = AlreadyAccrued | CohortFull | DurationThreshold | NatureExcluded | LossThreshold
    | MissingCriticalData | OutsideWindow | SeparationWindow | SourceCoverageIncomplete
    | SourceTierNotQualifying | UnsupportedCommodity

  const REASONS: seq<Reason> := [AlreadyAccrued, CohortFull, DurationThreshold, NatureExcluded, LossThreshold,
    MissingCriticalData, OutsideWindow, SeparationWindow, SourceCoverageIncomplete,
    SourceTierNotQualifying, UnsupportedCommodity]

  datatype Identity = Identity(visibleAt: Time, cutoffAt: Time, accruedId: Digest)

  /** Everything a decision hash covers. */
  datatype Core = Core(
    sequence: int, study: Id, observation: Digest, receipt: Digest, accrued: bool, reasons: seq<Reason>,
    identity: Option<Identity>, recordedAt: Time, previous: Option<Digest>)

  datatype Decision = Decision(
    sequence: int, study: Id, observation: Observation, receipt: Receipt, accrued: bool, reasons: seq<Reason>,
    identity: Option<Identity>, recordedAt: Time, previous: Option<Digest>, hash: Digest)
  {
    function Event(): Id { observation.content.event }
    function Occurred(): Option<Time> { observation.content.occurredAt }
    function Available(): Time { observation.content.availableAt }
    function CoreOf(): Core {
      Core(sequence, study, observation.id, receipt.hash, accrued, reasons, identity, recordedAt, previous)
    }
    predicate RejectedForCoverageAlone() { reasons == [SourceCoverageIncomplete] }
  }

  type Ledger = seq<Decision>

  // ---- what the constructors of the stored records check --------------------------------

  predicate PlanAllowed(s: Study) {
    s.opensAfter < s.closesAt && 5 <= s.target && 10 * DAY <= s.separation
  }

  predicate Constructed(o: Observation) {
    && o.id == OfObservation(o.content)
    && (o.content.occurredAt.Some? ==> o.content.occurredAt.value <= o.content.availableAt)
    && o.content.supersedes != Some(o.id)
  }

  predicate ReceiptConstructed(r: Receipt) {
    && r.hash == OfReceipt(r.cycle)
    && r.cycle.startedAt <= r.cycle.completedAt
    && r.cycle.attempts != []
    && forall i, j :: 0 <= i < j < |r.cycle.attempts| ==> r.cycle.attempts[i].provider != r.cycle.attempts[j].provider
  }

  predicate DecisionConstructed(d: Decision) {
    && 1 <= d.sequence
    && d.observation.content.receipt == d.receipt.hash
    && (if d.accrued then d.reasons == [] && d.identity.Some? else d.reasons != [] && d.identity.None?)
  }

  // ---- source coverage --------------------------------------------------------------------

  function SourceFor(sources: seq<Source>, provider: Id): Option<Source> {
    if sources == [] then None
    else if sources[0].provider == provider then Some(sources[0])
    else SourceFor(sources[1..], provider)
  }

  function AttemptFor(attempts: seq<Attempt>, provider: Id): Option<Attempt> {
    if attempts == [] then None
    else if attempts[0].provider == provider then Some(attempts[0])
    else AttemptFor(attempts[1..], provider)
  }

  predicate FollowsRegistration(c: Cycle, g: Coverage) {
    && c.coverage == g.id
    && |c.attempts| == |g.sources|
    && forall k :: 0 <= k < |g.sources| ==> c.attempts[k].provider == g.sources[k].provider
  }

  /** Every required source answered, within the registered time. */
  predicate Complete(c: Cycle, g: Coverage) {
    && c.completedAt - c.startedAt <= g.maximumCycle
    && forall s :: s in g.sources && s.required ==>
         exists a :: a in c.attempts && a.provider == s.provider && a.retrieval.Some?
  }

  predicate Bound(g: Coverage, o: Content, r: Receipt) {
    && FollowsRegistration(r.cycle, g)
    && o.coverage == g.id
    && o.receipt == r.hash
    && var source := SourceFor(g.sources, o.provider);
       var attempt := AttemptFor(r.cycle.attempts, o.provider);
       && source.Some? && source.value.tier == o.tier
       && attempt.Some? && attempt.value.retrieval == Some((o.availableAt, o.raw))
  }

  // ---- judging one observation against the decisions before it -------------------------------

  function Accrued(ds: Ledger): Ledger {
    if ds == [] then []
    else
      var n := |ds| - 1;
      Accrued(ds[..n]) + (if ds[n].accrued then [ds[n]] else [])
  }

  predicate TooSoon(s: Study, a: Ledger, occurredAt: Time) {
    a != [] && a[|a| - 1].Occurred().Some? && occurredAt < a[|a| - 1].Occurred().value + s.separation
  }

  predicate RejectedForCoverage(ds: Ledger, event: Id) {
    exists d :: d in ds && d.Event() == event && d.RejectedForCoverageAlone()
  }

  predicate HasAccrued(ds: Ledger, event: Id) {
    exists d :: d in ds && d.accrued && d.Event() == event
  }

  predicate Applies(r: Reason, s: Study, o: Content, c: Cycle, ds: Ledger) {
    match r
    case SourceCoverageIncomplete =>
      || !Complete(c, s.coverage)
      || RejectedForCoverage(ds, o.event)
    case OutsideWindow => !(s.opensAfter < o.availableAt <= s.closesAt)
    case CohortFull => s.target <= |Accrued(ds)|
    case AlreadyAccrued => HasAccrued(ds, o.event)
    case MissingCriticalData => o.occurredAt.None? || o.commodity.None? || o.loss.None? || o.duration.None?
    case UnsupportedCommodity => o.commodity.Some? && o.commodity.value !in PHYSICAL_ENERGY
    case SourceTierNotQualifying =>
      || o.tier !in ACCEPTED_TIERS
      || SourceFor(s.coverage.sources, o.provider).None?
      || !SourceFor(s.coverage.sources, o.provider).value.occurrenceEligible
    case NatureExcluded => o.nature !in QUALIFYING
    case LossThreshold => o.loss.Some? &&
      o.loss.value.amount < (if o.loss.value.unit.BoePerDay? then 500000.0 else 0.05)
    case DurationThreshold => o.duration.Some? && o.duration.value < 24.0
    case SeparationWindow => o.occurredAt.Some? && TooSoon(s, Accrued(ds), o.occurredAt.value)
  }

  /** Those of the first n reasons that apply, in stored order. */
  function FirstReasons(n: nat, s: Study, o: Content, c: Cycle, ds: Ledger): seq<Reason>
    requires n <= |REASONS|
  {
    if n == 0 then []
    else FirstReasons(n - 1, s, o, c, ds) + (if Applies(REASONS[n - 1], s, o, c, ds) then [REASONS[n - 1]] else [])
  }

  function Judged(s: Study, o: Content, c: Cycle, ds: Ledger): seq<Reason> {
    FirstReasons(|REASONS|, s, o, c, ds)
  }

  lemma {:induction false} EveryReasonListed(r: Reason)
    ensures r in REASONS
  {
    assert REASONS[0] == AlreadyAccrued && REASONS[1] == CohortFull && REASONS[2] == DurationThreshold;
    assert REASONS[3] == NatureExcluded && REASONS[4] == LossThreshold && REASONS[5] == MissingCriticalData;
    assert REASONS[6] == OutsideWindow && REASONS[7] == SeparationWindow && REASONS[8] == SourceCoverageIncomplete;
    assert REASONS[9] == SourceTierNotQualifying && REASONS[10] == UnsupportedCommodity;
  }

  lemma {:induction false} FirstReasonsAreExact(n: nat, r: Reason, s: Study, o: Content, c: Cycle, ds: Ledger)
    requires n <= |REASONS|
    ensures r in FirstReasons(n, s, o, c, ds) <==> r in REASONS[..n] && Applies(r, s, o, c, ds)
  {
    if 0 < n {
      FirstReasonsAreExact(n - 1, r, s, o, c, ds);
      assert REASONS[..n] == REASONS[..n - 1] + [REASONS[n - 1]];
    }
  }

  /** The judgement lists a reason exactly when the reason applies. */
  lemma {:induction false} JudgementIsExact(r: Reason, s: Study, o: Content, c: Cycle, ds: Ledger)
    ensures r in Judged(s, o, c, ds) <==> Applies(r, s, o, c, ds)
  {
    EveryReasonListed(r);
    FirstReasonsAreExact(|REASONS|, r, s, o, c, ds);
    assert REASONS[..|REASONS|] == REASONS;
  }

  lemma {:induction false} AccruedAreThoseAccrued(ds: Ledger, d: Decision)
    ensures d in Accrued(ds) <==> d in ds && d.accrued
  {
    if ds != [] {
      var n := |ds| - 1;
      AccruedAreThoseAccrued(ds[..n], d);
      assert ds == ds[..n] + [ds[n]];
    }
  }

  // ---- the append path -------------------------------------------------------------------------

  function Tail(ds: Ledger): Option<Digest> {
    if ds == [] then None else Some(ds[|ds| - 1].hash)
  }

  function Latest(ds: Ledger, event: Id): Option<Observation> {
    if ds == [] then None
    else
      var n := |ds| - 1;
      if ds[n].Event() == event then Some(ds[n].observation) else Latest(ds[..n], event)
  }

  function FindObservation(ds: Ledger, id: Digest): Option<Decision> {
    if ds == [] then None
    else if ds[0].observation.id == id then Some(ds[0])
    else FindObservation(ds[1..], id)
  }

  function AccrualIdentity(s: Study, o: Observation): Identity {
    Identity(o.content.availableAt, o.content.availableAt + s.delay, OfAccrual(s.id, o.content.event, o.id))
  }

  /** The decision the append path derives from its inputs and the ledger so far. */
  function Decided(s: Study, ds: Ledger, o: Observation, at: Time, r: Receipt): Decision {
    var reasons := Judged(s, o.content, r.cycle, ds);
    var accrued := reasons == [];
    var d := Decision(
      |ds| + 1, s.id, o, r, accrued, reasons, if accrued then Some(AccrualIdentity(s, o)) else None,
      at, Tail(ds), Text(0));
    d.(hash := OfDecision(d.CoreOf()))
  }

  datatype Refusal = PredatesRetrieval | CoverageInvalid | LedgerInvalid | ConflictingContent | RecordingOrder
    | ReceiptOrder | PredecessorMissing | NotLatest | NotAdvancing | OccurrenceChanged | CommodityChanged

  datatype Outcome = Recorded(decision: Decision) | Existing(decision: Decision) | Refused(why: Refusal)

  predicate SameOccurrence(prior: Content, next: Content) {
    prior.occurredAt.Some? ==> next.occurredAt == prior.occurredAt
  }

  predicate SameCommodity(prior: Content, next: Content) {
    prior.commodity.Some? ==> next.commodity == prior.commodity
  }

  function AppendRefusal(ds: Ledger, o: Observation): Option<Refusal> {
    if ds != [] && o.content.availableAt < ds[|ds| - 1].Available() then Some(ReceiptOrder)
    else
      match Latest(ds, o.content.event)
      case None => if o.content.supersedes.Some? then Some(PredecessorMissing) else None
      case Some(latest) =>
        if o.content.supersedes != Some(latest.id) then Some(NotLatest)
        else if o.content.availableAt <= latest.content.availableAt then Some(NotAdvancing)
        else if !SameOccurrence(latest.content, o.content) then Some(OccurrenceChanged)
        else if !SameCommodity(latest.content, o.content) then Some(CommodityChanged)
        else None
  }

  function Record(s: Study, ds: Ledger, o: Observation, at: Time, r: Receipt): Outcome {
    if at < o.content.availableAt then Refused(PredatesRetrieval)
    else if !Bound(s.coverage, o.content, r) then Refused(CoverageInvalid)
    else if !Accepted(s, ds) then Refused(LedgerInvalid)
    else
      var existing := FindObservation(ds, o.id);
      if existing.Some? then
        if existing.value.observation != o then Refused(ConflictingContent) else Existing(existing.value)
      else if ds != [] && at < ds[|ds| - 1].recordedAt then Refused(RecordingOrder)
      else
        match AppendRefusal(ds, o)
        case Some(why) => Refused(why)
        case None => Recorded(Decided(s, ds, o, at, r))
  }

  function After(ds: Ledger, outcome: Outcome): Ledger {
    if outcome.Recorded? then ds + [outcome.decision] else ds
  }

  // ---- the reader ----------------------------------------------------------------------------------

  /** A stored row by itself: every record reconstructs and every hash is right. */
  predicate RowVerified(s: Study, d: Decision) {
    && d.study == s.id
    && Constructed(d.observation)
    && ReceiptConstructed(d.receipt)
    && Bound(s.coverage, d.observation.content, d.receipt)
    && DecisionConstructed(d)
    && d.hash == OfDecision(d.CoreOf())
  }

  predicate LineageRead(ds: Ledger, o: Observation) {
    match Latest(ds, o.content.event)
    case None => o.content.supersedes.None?
    case Some(p) =>
      && o.content.supersedes == Some(p.id)
      && SameOccurrence(p.content, o.content)
      && SameCommodity(p.content, o.content)
  }

  predicate JudgementRead(s: Study, ds: Ledger, d: Decision) {
    var reasons := Judged(s, d.observation.content, d.receipt.cycle, ds);
    && d.accrued == (reasons == [])
    && d.reasons == reasons
    && (d.accrued ==> d.identity == Some(AccrualIdentity(s, d.observation)))
  }

  /** The replay's check of one decision against the replayed ones before it. */
  predicate Follows(s: Study, ds: Ledger, d: Decision) {
    && (ds != [] ==> ds[|ds| - 1].Available() <= d.Available() && ds[|ds| - 1].recordedAt <= d.recordedAt)
    && d.Available() <= d.recordedAt
    && d.previous == Tail(ds)
    && LineageRead(ds, d.observation)
    && JudgementRead(s, ds, d)
  }

  predicate Accepted(s: Study, ds: Ledger) {
    ds == [] || (
      var n := |ds| - 1;
      && Accepted(s, ds[..n])
      && RowVerified(s, ds[n]) && ds[n].sequence == n + 1
      && Follows(s, ds[..n], ds[n]))
  }
}
