/** Which observations accrue, stated over the rows of an accepted ledger: what the event,
    its source and its coverage must be, and what the earlier rows must leave open. */
module AccrualEligibility {
  import opened Base
  import opened Accrual
  import opened AccrualRuns

  // ---- what the observation must be -----------------------------------------------------------

  /** A physical loss of oil or gas, large and long enough. */
  predicate QualifyingLoss(o: Content) {
    && o.nature in {ProductionLoss, TransportLoss, StorageLoss}
    && (o.commodity == Some("crude_oil") || o.commodity == Some("natural_gas"))
    && o.loss.Some? && (if o.loss.value.unit == BoePerDay then 500000.0 <= o.loss.value.amount else 0.05 <= o.loss.value.amount)
    && o.duration.Some? && 24.0 <= o.duration.value
  }

  /** The registered source of a provider. */
  predicate RegisteredAs(g: Coverage, provider: Id, source: Source) {
    exists k :: 0 <= k < |g.sources| && g.sources[k] == source && source.provider == provider
      && forall m :: 0 <= m < k ==> g.sources[m].provider != provider
  }

  predicate QualifyingSource(g: Coverage, o: Content) {
    && (o.tier == Official || o.tier == Primary)
    && exists source :: source in g.sources && RegisteredAs(g, o.provider, source) && source.occurrenceEligible
  }

  /** Every required source was retrieved, and the cycle took no longer than registered. */
  predicate FullyCovered(g: Coverage, c: Cycle) {
    && c.completedAt <= c.startedAt + g.maximumCycle
    && forall k :: 0 <= k < |g.sources| && g.sources[k].required ==>
         exists a :: a in c.attempts && a.provider == g.sources[k].provider && a.retrieval.Some?
  }

  // ---- what the earlier rows leave open ---------------------------------------------------------

  function AccruedRows(ds: Ledger, k: nat): set<nat>
    requires k <= |ds|
  {
    set i: nat | i < k && ds[i].accrued
  }

  /** No earlier row of the event accrued, and none was refused for its coverage alone. */
  predicate EventOpen(ds: Ledger, k: nat)
    requires k < |ds|
  {
    forall i :: 0 <= i < k && ds[i].Event() == ds[k].Event() ==> !ds[i].accrued && ds[i].reasons != [SourceCoverageIncomplete]
  }

  predicate LastAccrued(ds: Ledger, i: nat, k: nat)
    requires i < k <= |ds|
  {
    ds[i].accrued && forall m :: i < m < k ==> !ds[m].accrued
  }

  /** The event occurred the registered separation after the last accrued one. */
  predicate Separated(s: Study, ds: Ledger, k: nat)
    requires k < |ds|
  {
    forall i :: 0 <= i < k && LastAccrued(ds, i, k) && ds[i].Occurred().Some? && ds[k].Occurred().Some? ==>
      ds[i].Occurred().value + s.separation <= ds[k].Occurred().value
  }

  // ---- rule by rule ------------------------------------------------------------------------------

  lemma {:induction false} SourceForIs(sources: seq<Source>, provider: Id)
    ensures var found := SourceFor(sources, provider);
      if found.Some? then
        exists k :: 0 <= k < |sources| && sources[k] == found.value && found.value.provider == provider
          && forall m :: 0 <= m < k ==> sources[m].provider != provider
      else forall m :: 0 <= m < |sources| ==> sources[m].provider != provider
  {
    if sources != [] && sources[0].provider != provider {
      SourceForIs(sources[1..], provider);
      var found := SourceFor(sources[1..], provider);
      if found.Some? {
        var k :| 0 <= k < |sources[1..]| && sources[1..][k] == found.value && found.value.provider == provider
                 && forall m :: 0 <= m < k ==> sources[1..][m].provider != provider;
        assert sources[k + 1] == found.value;
        forall m | 0 <= m < k + 1 ensures sources[m].provider != provider { if 0 < m { assert sources[1..][m - 1] == sources[m]; } }
      } else {
        forall m | 0 <= m < |sources| ensures sources[m].provider != provider { if 0 < m { assert sources[1..][m - 1] == sources[m]; } }
      }
    }
  }

  lemma {:induction false} SourceRuleMeans(s: Study, o: Content, c: Cycle, ds: Ledger)
    ensures Applies(SourceTierNotQualifying, s, o, c, ds) <==> !QualifyingSource(s.coverage, o)
  {
    var g := s.coverage;
    SourceForIs(g.sources, o.provider);
    var found := SourceFor(g.sources, o.provider);
    if found.Some? { assert found.value in g.sources && RegisteredAs(g, o.provider, found.value); }
    if source :| source in g.sources && RegisteredAs(g, o.provider, source) && source.occurrenceEligible {
      var k :| 0 <= k < |g.sources| && g.sources[k] == source && source.provider == o.provider
               && forall m :: 0 <= m < k ==> g.sources[m].provider != o.provider;
    }
  }

  lemma {:induction false} CoverageMeans(s: Study, c: Cycle)
    ensures Complete(c, s.coverage) <==> FullyCovered(s.coverage, c)
  {
    var g := s.coverage;
    if FullyCovered(g, c) {
      forall x | x in g.sources && x.required ensures exists a :: a in c.attempts && a.provider == x.provider && a.retrieval.Some? {
        var k :| 0 <= k < |g.sources| && g.sources[k] == x;
      }
    }
  }

  lemma {:induction false} LossRulesMean(s: Study, o: Content, c: Cycle, ds: Ledger)
    ensures QualifyingLoss(o) && o.occurredAt.Some? <==>
      && !Applies(MissingCriticalData, s, o, c, ds) && !Applies(UnsupportedCommodity, s, o, c, ds)
      && !Applies(NatureExcluded, s, o, c, ds) && !Applies(LossThreshold, s, o, c, ds)
      && !Applies(DurationThreshold, s, o, c, ds)
  {
  }

  lemma {:induction false} AccruedAreCounted(ds: Ledger, k: nat)
    requires k <= |ds|
    ensures |Accrued(ds[..k])| == |AccruedRows(ds, k)|
  {
    if k == 0 {
      assert AccruedRows(ds, k) == {};
    } else {
      AccruedAreCounted(ds, k - 1);
      assert ds[..k][..k - 1] == ds[..k - 1];
      assert AccruedRows(ds, k) == AccruedRows(ds, k - 1) + (if ds[k - 1].accrued then {k - 1} else {});
    }
  }

  /** The last accrued row is the last member of the cohort. */
  lemma {:induction false} LastAccruedIsLast(ds: Ledger, k: nat)
    requires k <= |ds|
    ensures var a := Accrued(ds[..k]);
      if a == [] then forall i :: 0 <= i < k ==> !ds[i].accrued
      else exists i :: 0 <= i < k && LastAccrued(ds, i, k) && a[|a| - 1] == ds[i]
  {
    if k > 0 {
      assert ds[..k][..k - 1] == ds[..k - 1];
      LastAccruedIsLast(ds, k - 1);
      if ds[k - 1].accrued {
        assert LastAccrued(ds, k - 1, k);
      } else if Accrued(ds[..k]) != [] {
        var a := Accrued(ds[..k - 1]);
        var i :| 0 <= i < k - 1 && LastAccrued(ds, i, k - 1) && a[|a| - 1] == ds[i];
        assert LastAccrued(ds, i, k);
      }
    }
  }

  lemma {:induction false} OneLastAccrued(ds: Ledger, i: nat, j: nat, k: nat)
    requires i < k && j < k <= |ds| && LastAccrued(ds, i, k) && LastAccrued(ds, j, k)
    ensures i == j
  {
  }

  lemma {:induction false} EventRulesMean(s: Study, ds: Ledger, k: nat, o: Content, c: Cycle)
    requires k < |ds| && o == ds[k].observation.content
    ensures EventOpen(ds, k) <==> !HasAccrued(ds[..k], o.event) && !RejectedForCoverage(ds[..k], o.event)
  {
    forall i | 0 <= i < k ensures ds[i] in ds[..k] { assert ds[..k][i] == ds[i]; }
    forall d | d in ds[..k] ensures exists i :: 0 <= i < k && ds[i] == d { var i :| 0 <= i < k && ds[..k][i] == d; }
  }

  lemma {:induction false} SeparationMeans(s: Study, ds: Ledger, k: nat)
    requires k < |ds| && ds[k].Occurred().Some?
    ensures Separated(s, ds, k) <==> !TooSoon(s, Accrued(ds[..k]), ds[k].Occurred().value)
  {
    LastAccruedIsLast(ds, k);
    var a := Accrued(ds[..k]);
    if a != [] {
      var i :| 0 <= i < k && LastAccrued(ds, i, k) && a[|a| - 1] == ds[i];
      forall j | 0 <= j < k && LastAccrued(ds, j, k) ensures j == i { OneLastAccrued(ds, i, j, k); }
    }
  }

  lemma {:induction false} AccruedIffNoRuleApplies(s: Study, ds: Ledger, k: nat)
    requires Accepted(s, ds) && k < |ds|
    ensures ds[k].accrued <==> forall r :: !Applies(r, s, ds[k].observation.content, ds[k].receipt.cycle, ds[..k])
  {
    var o, c, before := ds[k].observation.content, ds[k].receipt.cycle, ds[..k];
    RowAccepted(s, ds, k);
    var listed := Judged(s, o, c, before);
    forall r ensures r in listed <==> Applies(r, s, o, c, before) { JudgementIsExact(r, s, o, c, before); }
    if listed != [] { assert listed[0] in listed; }
  }

  lemma {:induction false} RulesListed(s: Study, o: Content, c: Cycle, ds: Ledger)
    ensures (forall r :: !Applies(r, s, o, c, ds)) <==>
      && !Applies(MissingCriticalData, s, o, c, ds) && !Applies(UnsupportedCommodity, s, o, c, ds)
      && !Applies(NatureExcluded, s, o, c, ds) && !Applies(LossThreshold, s, o, c, ds)
      && !Applies(DurationThreshold, s, o, c, ds) && !Applies(SourceTierNotQualifying, s, o, c, ds)
      && !Applies(SourceCoverageIncomplete, s, o, c, ds) && !Applies(OutsideWindow, s, o, c, ds)
      && !Applies(CohortFull, s, o, c, ds) && !Applies(AlreadyAccrued, s, o, c, ds)
      && !Applies(SeparationWindow, s, o, c, ds)
  {
  }

  lemma {:induction false} AccruedIffRules(s: Study, ds: Ledger, k: nat)
    requires Accepted(s, ds) && k < |ds|
    ensures var o, c, before := ds[k].observation.content, ds[k].receipt.cycle, ds[..k];
      ds[k].accrued <==>
        && QualifyingLoss(o) && o.occurredAt.Some? && QualifyingSource(s.coverage, o)
        && !Applies(SourceCoverageIncomplete, s, o, c, before) && !Applies(OutsideWindow, s, o, c, before)
        && !Applies(CohortFull, s, o, c, before) && !Applies(AlreadyAccrued, s, o, c, before)
        && !Applies(SeparationWindow, s, o, c, before)
  {
    var o, c, before := ds[k].observation.content, ds[k].receipt.cycle, ds[..k];
    AccruedIffNoRuleApplies(s, ds, k);
    RulesListed(s, o, c, before);
    SourceRuleMeans(s, o, c, before);
    LossRulesMean(s, o, c, before);
  }

  lemma {:induction false} RoomRulesMean(s: Study, ds: Ledger, k: nat, o: Content, c: Cycle)
    requires k <= |ds|
    ensures Applies(OutsideWindow, s, o, c, ds[..k]) <==> !(s.opensAfter < o.availableAt <= s.closesAt)
    ensures Applies(CohortFull, s, o, c, ds[..k]) <==> s.target <= |AccruedRows(ds, k)|
  {
    AccruedAreCounted(ds, k);
  }

  lemma {:induction false} HistoryRulesMean(s: Study, ds: Ledger, k: nat)
    requires k < |ds| && ds[k].Occurred().Some?
    ensures var o, c, before := ds[k].observation.content, ds[k].receipt.cycle, ds[..k];
      && !Applies(SourceCoverageIncomplete, s, o, c, before) && !Applies(OutsideWindow, s, o, c, before)
      && !Applies(CohortFull, s, o, c, before) && !Applies(AlreadyAccrued, s, o, c, before)
      && !Applies(SeparationWindow, s, o, c, before)
      <==>
        && FullyCovered(s.coverage, c) && s.opensAfter < o.availableAt <= s.closesAt
        && |AccruedRows(ds, k)| < s.target && EventOpen(ds, k) && Separated(s, ds, k)
  {
    var o, c := ds[k].observation.content, ds[k].receipt.cycle;
    CoverageMeans(s, c);
    RoomRulesMean(s, ds, k, o, c);
    EventRulesMean(s, ds, k, o, c);
    SeparationMeans(s, ds, k);
  }

  /** A row of an accepted ledger accrues exactly when its event is a qualifying loss with
      a known occurrence, from a qualifying source with full coverage, received in the
      accrual window, with room in the cohort, not seen before in a way that closes it,
      and separated from the last accrued event. */
  lemma {:induction false} AccruedIff(s: Study, ds: Ledger, k: nat)
    requires Accepted(s, ds) && k < |ds|
    ensures var o := ds[k].observation.content;
      ds[k].accrued <==>
        && QualifyingLoss(o) && o.occurredAt.Some? && QualifyingSource(s.coverage, o)
        && FullyCovered(s.coverage, ds[k].receipt.cycle)
        && s.opensAfter < o.availableAt <= s.closesAt
        && |AccruedRows(ds, k)| < s.target && EventOpen(ds, k) && Separated(s, ds, k)
  {
    AccruedIffRules(s, ds, k);
    if ds[k].Occurred().Some? { HistoryRulesMean(s, ds, k); }
  }

  /** What the listed reasons say of a row: of its loss, */
  lemma {:induction false} LossReasonsSay(s: Study, ds: Ledger, k: nat)
    requires Accepted(s, ds) && k < |ds|
    ensures var o, reasons := ds[k].observation.content, ds[k].reasons;
      && (MissingCriticalData in reasons <==> o.occurredAt == None || o.commodity == None || o.loss == None || o.duration == None)
      && (UnsupportedCommodity in reasons <==>
            o.commodity.Some? && o.commodity.value != "crude_oil" && o.commodity.value != "natural_gas")
      && (LossThreshold in reasons <==>
            o.loss.Some? && o.loss.value.amount < if o.loss.value.unit == BoePerDay then 500000.0 else 0.05)
      && (DurationThreshold in reasons <==> o.duration.Some? && o.duration.value < 24.0)
  {
    ListedIff(s, ds, k, MissingCriticalData);
    ListedIff(s, ds, k, UnsupportedCommodity);
    ListedIff(s, ds, k, LossThreshold);
    ListedIff(s, ds, k, DurationThreshold);
  }

  /** of its kind, source, time and the room left, */
  lemma {:induction false} KindReasonsSay(s: Study, ds: Ledger, k: nat)
    requires Accepted(s, ds) && k < |ds|
    ensures var o, reasons := ds[k].observation.content, ds[k].reasons;
      && (NatureExcluded in reasons <==> o.nature !in {ProductionLoss, TransportLoss, StorageLoss})
      && (SourceTierNotQualifying in reasons <==> !QualifyingSource(s.coverage, o))
      && (OutsideWindow in reasons <==> o.availableAt <= s.opensAfter || s.closesAt < o.availableAt)
      && (CohortFull in reasons <==> s.target <= |AccruedRows(ds, k)|)
  {
    ListedIff(s, ds, k, NatureExcluded);
    ListedIff(s, ds, k, SourceTierNotQualifying);
    ListedIff(s, ds, k, OutsideWindow);
    ListedIff(s, ds, k, CohortFull);
    SourceRuleMeans(s, ds[k].observation.content, ds[k].receipt.cycle, ds[..k]);
    AccruedAreCounted(ds, k);
  }

  lemma {:induction false} ListedIff(s: Study, ds: Ledger, k: nat, r: Reason)
    requires Accepted(s, ds) && k < |ds|
    ensures r in ds[k].reasons <==> Applies(r, s, ds[k].observation.content, ds[k].receipt.cycle, ds[..k])
  {
    RowAccepted(s, ds, k);
    JudgementIsExact(r, s, ds[k].observation.content, ds[k].receipt.cycle, ds[..k]);
  }

  /** and of the rows before it. */
  lemma {:induction false} HistoryReasonsSay(s: Study, ds: Ledger, k: nat)
    requires Accepted(s, ds) && k < |ds|
    ensures var event, reasons := ds[k].Event(), ds[k].reasons;
      && (AlreadyAccrued in reasons <==> exists i :: 0 <= i < k && ds[i].Event() == event && ds[i].accrued)
      && (SourceCoverageIncomplete in reasons <==>
            || !FullyCovered(s.coverage, ds[k].receipt.cycle)
            || exists i :: 0 <= i < k && ds[i].Event() == event && ds[i].reasons == [SourceCoverageIncomplete])
      && (SeparationWindow in reasons <==> !Separated(s, ds, k))
  {
    ListedIff(s, ds, k, AlreadyAccrued);
    ListedIff(s, ds, k, SourceCoverageIncomplete);
    ListedIff(s, ds, k, SeparationWindow);
    CoverageMeans(s, ds[k].receipt.cycle);
    if ds[k].Occurred().Some? { SeparationMeans(s, ds, k); }
    EarlierRows(ds, k, ds[k].Event());
  }

  lemma {:induction false} EarlierRows(ds: Ledger, k: nat, event: Id)
    requires k <= |ds|
    ensures HasAccrued(ds[..k], event) <==> exists i :: 0 <= i < k && ds[i].Event() == event && ds[i].accrued
    ensures RejectedForCoverage(ds[..k], event) <==>
      exists i :: 0 <= i < k && ds[i].Event() == event && ds[i].reasons == [SourceCoverageIncomplete]
  {
    forall i | 0 <= i < k ensures ds[i] in ds[..k] { assert ds[..k][i] == ds[i]; }
    forall d | d in ds[..k] ensures exists i :: 0 <= i < k && ds[i] == d { var i :| 0 <= i < k && ds[..k][i] == d; }
  }

  // ---- what a stored row carries -----------------------------------------------------------------

  /** The attempt that the receipt records for a provider. */
  predicate AttemptedAs(c: Cycle, provider: Id, a: Attempt) {
    exists k :: 0 <= k < |c.attempts| && c.attempts[k] == a && a.provider == provider
      && forall m :: 0 <= m < k ==> c.attempts[m].provider != provider
  }

  lemma {:induction false} AttemptForIs(attempts: seq<Attempt>, provider: Id)
    ensures var found := AttemptFor(attempts, provider);
      if found.Some? then
        exists k :: 0 <= k < |attempts| && attempts[k] == found.value && found.value.provider == provider
          && forall m :: 0 <= m < k ==> attempts[m].provider != provider
      else forall m :: 0 <= m < |attempts| ==> attempts[m].provider != provider
  {
    if attempts != [] && attempts[0].provider != provider {
      AttemptForIs(attempts[1..], provider);
      var found := AttemptFor(attempts[1..], provider);
      if found.Some? {
        var k :| 0 <= k < |attempts[1..]| && attempts[1..][k] == found.value && found.value.provider == provider
                 && forall m :: 0 <= m < k ==> attempts[1..][m].provider != provider;
        assert attempts[k + 1] == found.value;
        forall m | 0 <= m < k + 1 ensures attempts[m].provider != provider {
          if 0 < m { assert attempts[1..][m - 1] == attempts[m]; }
        }
      } else {
        forall m | 0 <= m < |attempts| ensures attempts[m].provider != provider {
          if 0 < m { assert attempts[1..][m - 1] == attempts[m]; }
        }
      }
    }
  }

  /** The observation is what a registered provider's retrieval, recorded in the receipt of
      the registered cycle, delivered when it became available. */
  predicate Retrieved(g: Coverage, o: Content, r: Receipt) {
    && r.cycle.coverage == g.id && o.coverage == g.id && o.receipt == r.hash
    && |r.cycle.attempts| == |g.sources|
    && (forall k :: 0 <= k < |g.sources| ==> r.cycle.attempts[k].provider == g.sources[k].provider)
    && (exists source :: source in g.sources && RegisteredAs(g, o.provider, source) && source.tier == o.tier)
    && (exists a :: a in r.cycle.attempts && AttemptedAs(r.cycle, o.provider, a) && a.retrieval == Some((o.availableAt, o.raw)))
  }

  lemma {:induction false} BoundIffRetrieved(g: Coverage, o: Content, r: Receipt)
    ensures Bound(g, o, r) <==> Retrieved(g, o, r)
  {
    SourceForIs(g.sources, o.provider);
    AttemptForIs(r.cycle.attempts, o.provider);
    var source, attempt := SourceFor(g.sources, o.provider), AttemptFor(r.cycle.attempts, o.provider);
    if source.Some? { assert source.value in g.sources && RegisteredAs(g, o.provider, source.value); }
    if attempt.Some? { assert attempt.value in r.cycle.attempts && AttemptedAs(r.cycle, o.provider, attempt.value); }
    OneSource(g, o.provider);
    OneAttempt(r.cycle, o.provider);
  }

  lemma {:induction false} OneSource(g: Coverage, provider: Id)
    ensures forall a, b :: RegisteredAs(g, provider, a) && RegisteredAs(g, provider, b) ==> a == b
  {
  }

  lemma {:induction false} OneAttempt(c: Cycle, provider: Id)
    ensures forall a, b :: AttemptedAs(c, provider, a) && AttemptedAs(c, provider, b) ==> a == b
  {
  }

  /** Every row of an accepted ledger carries its observation and receipt under their own
      hashes, retrieved as registered, in a receipt of distinct providers that did not end
      before it began. */
  lemma {:induction false} RowsAreGenuine(s: Study, ds: Ledger, k: nat)
    requires Accepted(s, ds) && k < |ds|
    ensures var d := ds[k]; var o, c := d.observation.content, d.receipt.cycle;
      && d.observation.id == OfObservation(o) && d.receipt.hash == OfReceipt(c) && Retrieved(s.coverage, o, d.receipt)
      && (o.occurredAt.Some? ==> o.occurredAt.value <= o.availableAt)
      && c.startedAt <= c.completedAt && c.attempts != []
      && (forall i, j :: 0 <= i < j < |c.attempts| ==> c.attempts[i].provider != c.attempts[j].provider)
  {
    RowAccepted(s, ds, k);
    BoundIffRetrieved(s.coverage, ds[k].observation.content, ds[k].receipt);
  }

  /** And its place in the chain, its times and its identity are those of a decision. */
  lemma {:induction false} RowsAreChained(s: Study, ds: Ledger, k: nat)
    requires Accepted(s, ds) && k < |ds|
    ensures var d := ds[k];
      && d.sequence == k + 1 && d.study == s.id && d.Available() <= d.recordedAt
      && (d.identity.Some? <==> d.accrued) && (d.reasons == [] <==> d.accrued)
      && (if k == 0 then d.previous == None else d.previous == Some(ds[k - 1].hash))
      && (k > 0 ==> ds[k - 1].Available() <= d.Available() && ds[k - 1].recordedAt <= d.recordedAt)
  {
    RowAccepted(s, ds, k);
  }

  /** An accrued row is visible when it became available, and its evidence is cut off the
      registered delay after that. */
  lemma {:induction false} AccruedIdentity(s: Study, ds: Ledger, k: nat)
    requires Accepted(s, ds) && k < |ds| && ds[k].accrued
    ensures var d := ds[k]; var from := d.Available();
      d.identity == Some(Identity(from, from + s.delay, OfAccrual(s.id, d.Event(), d.observation.id)))
  {
    RowAccepted(s, ds, k);
  }

  // ---- what the append path answers, on every ledger --------------------------------------------

  predicate Answerable(s: Study, o: Observation, at: Time, r: Receipt) {
    o.content.availableAt <= at && Retrieved(s.coverage, o.content, r)
  }

  lemma {:induction false} AppendRefusals(ds: Ledger, o: Observation)
    ensures var why := AppendRefusal(ds, o);
      why.Some? ==> why.value !in {PredatesRetrieval, CoverageInvalid, LedgerInvalid, ConflictingContent}
  {
  }

  lemma {:induction false} RecordBranches(s: Study, ds: Ledger, o: Observation, at: Time, r: Receipt)
    ensures var outcome := Record(s, ds, o, at, r); var found := FindObservation(ds, o.id);
      if at < o.content.availableAt then outcome == Refused(PredatesRetrieval)
      else if !Bound(s.coverage, o.content, r) then outcome == Refused(CoverageInvalid)
      else if !Accepted(s, ds) then outcome == Refused(LedgerInvalid)
      else
        && outcome !in {Refused(PredatesRetrieval), Refused(CoverageInvalid), Refused(LedgerInvalid)}
        && (outcome.Existing? <==> found.Some? && found.value.observation == o)
        && (outcome.Existing? ==> outcome.decision == found.value)
        && (outcome == Refused(ConflictingContent) <==> found.Some? && found.value.observation != o)
  {
    AppendRefusals(ds, o);
  }

  /** What is asked before the ledger is searched. */
  lemma {:induction false} WhyNotSearched(s: Study, ds: Ledger, o: Observation, at: Time, r: Receipt)
    ensures var outcome := Record(s, ds, o, at, r);
      && (outcome == Refused(PredatesRetrieval) <==> at < o.content.availableAt)
      && (outcome == Refused(CoverageInvalid) <==> o.content.availableAt <= at && !Retrieved(s.coverage, o.content, r))
      && (outcome == Refused(LedgerInvalid) <==> Answerable(s, o, at, r) && !Accepted(s, ds))
  {
    BoundIffRetrieved(s.coverage, o.content, r);
    RecordBranches(s, ds, o, at, r);
  }

  lemma {:induction false} FoundIffStored(s: Study, ds: Ledger, o: Observation)
    requires Accepted(s, ds)
    ensures var f := FindObservation(ds, o.id);
      if f.Some? then f.value in ds && f.value.observation.id == o.id && forall d :: d in ds && d.observation.id == o.id ==> d == f.value
      else forall d :: d in ds ==> d.observation.id != o.id
  {
    FindsFirst(ds, o.id);
    forall d | d in ds && d.observation.id == o.id ensures FindObservation(ds, o.id) == Some(d) {
      var k :| 0 <= k < |ds| && ds[k] == d;
      LookupFindsTheRow(s, ds, k);
    }
  }

  /** One stored observation is answered with its row, and refused when the identity comes
      with another content. */
  lemma {:induction false} StoredIsAnswered(s: Study, ds: Ledger, o: Observation, at: Time, r: Receipt)
    requires Accepted(s, ds) && Answerable(s, o, at, r)
    ensures var outcome := Record(s, ds, o, at, r);
      && (outcome.Existing? <==> exists d :: d in ds && d.observation == o)
      && (outcome.Existing? ==> outcome.decision in ds && outcome.decision.observation == o)
      && (outcome == Refused(ConflictingContent) <==> exists d :: d in ds && d.observation.id == o.id && d.observation != o)
  {
    BoundIffRetrieved(s.coverage, o.content, r);
    RecordBranches(s, ds, o, at, r);
    FoundIffStored(s, ds, o);
  }
}
