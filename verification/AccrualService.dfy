/** The accrual ledger as an object: the append transaction, the reader with its
    replay loop, and the judgement that fills a set of reasons. */
module AccrualService {
  import opened Base
  import opened Accrual
  import opened AccrualRuns

  predicate AccruedOccurrencesKnown(ds: Ledger) {
    forall d :: d in ds && d.accrued ==> d.Occurred().Some?
  }

  predicate SourceRegistered(s: Study, d: Decision) {
    SourceFor(s.coverage.sources, d.observation.content.provider).Some?
  }

  predicate EverySourceRegistered(s: Study, ds: Ledger) {
    forall k :: 0 <= k < |ds| ==> SourceRegistered(s, ds[k])
  }

  predicate RowSound(s: Study, d: Decision, sequence: int) {
    RowVerified(s, d) && d.sequence == sequence
  }

  predicate Replayed(s: Study, ds: Ledger) {
    ds == [] || (var n := |ds| - 1; Replayed(s, ds[..n]) && Follows(s, ds[..n], ds[n]))
  }

  lemma {:induction false} ReplayedNext(s: Study, ds: Ledger, k: nat)
    requires k < |ds|
    ensures Replayed(s, ds[..k + 1]) <==> Replayed(s, ds[..k]) && Follows(s, ds[..k], ds[k])
  {
    var next := ds[..k + 1];
    assert next[..|next| - 1] == ds[..k] && next[|next| - 1] == ds[k];
  }

  lemma {:induction false} ReplayedPrefix(s: Study, ds: Ledger, k: nat)
    requires k <= |ds| && Replayed(s, ds)
    ensures Replayed(s, ds[..k])
    decreases |ds|
  {
    if k == |ds| {
      assert ds[..k] == ds;
    } else {
      ReplayedPrefix(s, ds[..|ds| - 1], k);
      assert ds[..|ds| - 1][..k] == ds[..k];
    }
  }

  lemma {:induction false} SoundRowsExtend(s: Study, front: Ledger, d: Decision)
    ensures (forall k :: 0 <= k < |front + [d]| ==> RowSound(s, (front + [d])[k], k + 1)) <==>
      (forall k :: 0 <= k < |front| ==> RowSound(s, front[k], k + 1)) && RowSound(s, d, |front| + 1)
  {
    var all := front + [d];
    assert all[|front|] == d;
    assert forall k :: 0 <= k < |front| ==> all[k] == front[k];
  }

  /** Acceptance row by row: each row by itself, then the replay. */
  lemma {:induction false} AcceptedPointwise(s: Study, ds: Ledger)
    ensures Accepted(s, ds) <==> Replayed(s, ds) && forall k :: 0 <= k < |ds| ==> RowSound(s, ds[k], k + 1)
    decreases |ds|
  {
    if ds != [] {
      var front, d := ds[..|ds| - 1], ds[|ds| - 1];
      SplitLast(ds);
      AcceptedPointwise(s, front);
      SoundRowsExtend(s, front, d);
      AcceptedExtends(s, front, d);
    }
  }

  lemma {:induction false} LatestAfter(ds: Ledger, d: Decision, event: Id)
    ensures Latest(ds + [d], event) == if d.Event() == event then Some(d.observation) else Latest(ds, event)
  {
    var all := ds + [d];
    assert all[..|all| - 1] == ds && all[|all| - 1] == d;
  }

  lemma {:induction false} AccruedHadItsOccurrence(s: Study, ds: Ledger, d: Decision)
    requires JudgementRead(s, ds, d) && d.accrued
    ensures d.Occurred().Some?
  {
    JudgementIsExact(MissingCriticalData, s, d.observation.content, d.receipt.cycle, ds);
  }

  const HISTORY_RULES: set<Reason> := {SourceCoverageIncomplete, CohortFull, AlreadyAccrued, SeparationWindow}

  /** The rules that read earlier decisions, in place. */
  method HistoryReasons(s: Study, o: Content, r: Receipt, ds: Ledger) returns (reasons: set<Reason>)
    requires AccruedOccurrencesKnown(ds)
    ensures forall x :: x in reasons <==> x in HISTORY_RULES && Applies(x, s, o, r.cycle, ds)
  {
    reasons := {};
    var members := Accrued(ds);
    if !Complete(r.cycle, s.coverage) || RejectedForCoverage(ds, o.event) {
      reasons := reasons + {SourceCoverageIncomplete};
    }
    if s.target <= |members| { reasons := reasons + {CohortFull}; }
    if HasAccrued(ds, o.event) { reasons := reasons + {AlreadyAccrued}; }
    if members != [] && o.occurredAt.Some? {
      var latest := members[|members| - 1].Occurred();
      assert latest.Some? by { AccruedAreThoseAccrued(ds, members[|members| - 1]); }
      if o.occurredAt.value < latest.value + s.separation { reasons := reasons + {SeparationWindow}; }
    }
  }

  const ELIGIBILITY_RULES: set<Reason> :=
    {OutsideWindow, MissingCriticalData, UnsupportedCommodity, SourceTierNotQualifying, NatureExcluded}

  /** The rules on the kind of event and its source, in place. */
  method EligibilityReasons(s: Study, o: Content, ghost c: Cycle, ghost ds: Ledger) returns (reasons: set<Reason>)
    requires SourceFor(s.coverage.sources, o.provider).Some?
    ensures forall x :: x in reasons <==> x in ELIGIBILITY_RULES && Applies(x, s, o, c, ds)
  {
    reasons := {};
    if !(s.opensAfter < o.availableAt <= s.closesAt) { reasons := reasons + {OutsideWindow}; }
    if o.occurredAt.None? || o.commodity.None? || o.loss.None? || o.duration.None? {
      reasons := reasons + {MissingCriticalData};
    }
    if o.commodity.Some? && o.commodity.value !in PHYSICAL_ENERGY { reasons := reasons + {UnsupportedCommodity}; }
    if o.tier !in ACCEPTED_TIERS { reasons := reasons + {SourceTierNotQualifying}; }
    if !SourceFor(s.coverage.sources, o.provider).value.occurrenceEligible {
      reasons := reasons + {SourceTierNotQualifying};
    }
    if o.nature !in QUALIFYING { reasons := reasons + {NatureExcluded}; }
  }

  /** The thresholds, in place. */
  method ThresholdReasons(s: Study, o: Content, ghost c: Cycle, ghost ds: Ledger) returns (reasons: set<Reason>)
    ensures forall x :: x in reasons <==> x in {LossThreshold, DurationThreshold} && Applies(x, s, o, c, ds)
  {
    reasons := {};
    if o.loss.Some? && o.loss.value.unit.BoePerDay? {
      if o.loss.value.amount < 500000.0 { reasons := reasons + {LossThreshold}; }
    } else if o.loss.Some? && o.loss.value.amount < 0.05 {
      reasons := reasons + {LossThreshold};
    }
    if o.duration.Some? && o.duration.value < 24.0 { reasons := reasons + {DurationThreshold}; }
  }

  method EvaluateObservation(s: Study, o: Content, r: Receipt, ds: Ledger)
    returns (accrued: bool, listed: seq<Reason>)
    requires SourceFor(s.coverage.sources, o.provider).Some?
    requires AccruedOccurrencesKnown(ds)
    ensures listed == Judged(s, o, r.cycle, ds) && accrued == (listed == [])
  {
    var byHistory := HistoryReasons(s, o, r, ds);
    var byKind := EligibilityReasons(s, o, r.cycle, ds);
    var byThreshold := ThresholdReasons(s, o, r.cycle, ds);
    listed := ListedReasons(byHistory + byKind + byThreshold, s, o, r.cycle, ds);
    accrued := listed == [];
  }

  method ListedReasons(reasons: set<Reason>, ghost s: Study, ghost o: Content, ghost c: Cycle, ghost ds: Ledger)
    returns (listed: seq<Reason>)
    requires forall r :: r in reasons <==> Applies(r, s, o, c, ds)
    ensures listed == Judged(s, o, c, ds)
  {
    listed := [];
    for i := 0 to |REASONS|
      invariant listed == FirstReasons(i, s, o, c, ds)
    {
      if REASONS[i] in reasons { listed := listed + [REASONS[i]]; }
    }
  }

  /** The running variables of the replay. */
  datatype Prior = Prior(availableAt: Option<Time>, recordedAt: Option<Time>, hash: Option<Digest>)

  function Newest(latest: map<Id, Observation>, event: Id): Option<Observation> {
    if event in latest then Some(latest[event]) else None
  }

  ghost predicate Tracks(p: Prior, latest: map<Id, Observation>, ds: Ledger) {
    && p.hash == Tail(ds)
    && p.availableAt == (if ds == [] then None else Some(ds[|ds| - 1].Available()))
    && p.recordedAt == (if ds == [] then None else Some(ds[|ds| - 1].recordedAt))
    && forall e :: Latest(ds, e) == Newest(latest, e)
  }

  lemma {:induction false} TracksAfter(s: Study, p: Prior, latest: map<Id, Observation>, ds: Ledger, d: Decision)
    requires Tracks(p, latest, ds) && AccruedOccurrencesKnown(ds) && Follows(s, ds, d)
    ensures Tracks(
      Prior(Some(d.Available()), Some(d.recordedAt), Some(d.hash)), latest[d.Event() := d.observation], ds + [d])
    ensures AccruedOccurrencesKnown(ds + [d])
  {
    var after := latest[d.Event() := d.observation];
    forall e ensures Latest(ds + [d], e) == Newest(after, e) {
      LatestAfter(ds, d, e);
      assert Latest(ds, e) == Newest(latest, e);
    }
    if d.accrued { AccruedHadItsOccurrence(s, ds, d); }
  }

  class AccrualLedger {
    const study: Study
    var rows: Ledger

    constructor (study: Study)
      ensures this.study == study && rows == [] && Accepted(study, rows)
    {
      this.study := study;
      rows := [];
    }

    /** One decision of the replay: running order, recording order, hash, lineage, judgement. */
    method ReadNext(d: Decision, prior: Prior, latest: map<Id, Observation>, replayed: Ledger) returns (ok: bool)
      requires SourceRegistered(study, d) && AccruedOccurrencesKnown(replayed)
      requires Tracks(prior, latest, replayed)
      ensures ok <==> Follows(study, replayed, d)
    {
      var o := d.observation;
      if prior.availableAt.Some? && d.Available() < prior.availableAt.value { return false; }
      if d.recordedAt < d.Available() { return false; }
      if prior.recordedAt.Some? && d.recordedAt < prior.recordedAt.value { return false; }
      if d.previous != prior.hash { return false; }
      assert Latest(replayed, o.content.event) == Newest(latest, o.content.event);
      if o.content.event !in latest {
        if o.content.supersedes.Some? { return false; }
      } else {
        var p := latest[o.content.event];
        if o.content.supersedes != Some(p.id) { return false; }
        if !SameOccurrence(p.content, o.content) || !SameCommodity(p.content, o.content) { return false; }
      }
      var accrued, reasons := EvaluateObservation(study, o.content, d.receipt, replayed);
      if d.accrued != accrued || d.reasons != reasons { return false; }
      ok := accrued ==> d.identity == Some(AccrualIdentity(study, o));
    }

    method ValidateRecordedHistory(ds: Ledger) returns (ok: bool)
      requires EverySourceRegistered(study, ds)
      ensures ok <==> Replayed(study, ds)
    {
      var prior := Prior(None, None, None);
      var replayed: Ledger := [];
      var latest: map<Id, Observation> := map[];
      for i := 0 to |ds|
        invariant replayed == ds[..i]
        invariant Tracks(prior, latest, replayed) && AccruedOccurrencesKnown(replayed)
        invariant Replayed(study, replayed)
      {
        var d := ds[i];
        var follows := ReadNext(d, prior, latest, replayed);
        ReplayedNext(study, ds, i);
        if !follows {
          if Replayed(study, ds) { ReplayedPrefix(study, ds, i + 1); }
          return false;
        }
        TracksAfter(study, prior, latest, replayed, d);
        prior := Prior(Some(d.Available()), Some(d.recordedAt), Some(d.hash));
        latest := latest[d.Event() := d.observation];
        replayed := replayed + [d];
        TakeNext(ds, i);
      }
      TakeAll(ds);
      ok := true;
    }

    method Decisions() returns (decisions: Option<Ledger>)
      ensures decisions == if Accepted(study, rows) then Some(rows) else None
    {
      AcceptedPointwise(study, rows);
      var previous: Option<Digest> := None;
      for i := 0 to |rows|
        invariant previous == Tail(rows[..i])
        invariant forall k :: 0 <= k < i ==> RowSound(study, rows[k], k + 1)
      {
        var d := rows[i];
        if !RowVerified(study, d) || d.sequence != i + 1 {
          assert !RowSound(study, rows[i], i + 1);
          return None;
        }
        if d.previous != previous {
          ReplayedNext(study, rows, i);
          if Replayed(study, rows) { ReplayedPrefix(study, rows, i + 1); }
          return None;
        }
        previous := Some(d.hash);
      }
      assert forall k :: 0 <= k < |rows| ==> RowSound(study, rows[k], k + 1);
      forall k | 0 <= k < |rows| ensures SourceRegistered(study, rows[k]) { assert RowSound(study, rows[k], k + 1); }
      var ok := ValidateRecordedHistory(rows);
      decisions := if ok then Some(rows) else None;
    }

    method Record(o: Observation, at: Time, r: Receipt) returns (outcome: Outcome)
      requires Usable(Input(o, at, r))
      modifies this`rows
      ensures outcome == Accrual.Record(study, old(rows), o, at, r)
      ensures rows == After(old(rows), outcome)
      ensures Accepted(study, old(rows)) ==> Accepted(study, rows)
    {
      if Accepted(study, rows) { RecordKeepsAccepted(study, rows, Input(o, at, r)); }
      if at < o.content.availableAt { return Refused(PredatesRetrieval); }
      if !Bound(study.coverage, o.content, r) { return Refused(CoverageInvalid); }
      var read := Decisions();
      if read.None? { return Refused(LedgerInvalid); }
      var decisions := read.value;
      var existing := FindObservation(decisions, o.id);
      if existing.Some? {
        if existing.value.observation != o { return Refused(ConflictingContent); }
        return Existing(existing.value);
      }
      if decisions != [] && at < decisions[|decisions| - 1].recordedAt { return Refused(RecordingOrder); }
      var why := ValidateAppendOrder(o, decisions);
      if why.Some? { return Refused(why.value); }
      AcceptedOccurrencesKnown(study, decisions);
      var accrued, reasons := EvaluateObservation(study, o.content, r, decisions);
      var identity := if accrued then Some(AccrualIdentity(study, o)) else None;
      var core := Core(|decisions| + 1, study.id, o.id, r.hash, accrued, reasons, identity, at, Tail(decisions));
      var decision := Decision(
        core.sequence, study.id, o, r, accrued, reasons, identity, at, core.previous, OfDecision(core));
      rows := rows + [decision];
      outcome := Recorded(decision);
    }

    method ValidateAppendOrder(o: Observation, decisions: Ledger) returns (why: Option<Refusal>)
      ensures why == AppendRefusal(decisions, o)
    {
      if decisions != [] && o.content.availableAt < decisions[|decisions| - 1].Available() { return Some(ReceiptOrder); }
      var previous := Latest(decisions, o.content.event);
      if previous.None? {
        return if o.content.supersedes.Some? then Some(PredecessorMissing) else None;
      }
      var latest := previous.value;
      if o.content.supersedes != Some(latest.id) { return Some(NotLatest); }
      if o.content.availableAt <= latest.content.availableAt { return Some(NotAdvancing); }
      if latest.content.occurredAt.Some? && o.content.occurredAt != latest.content.occurredAt {
        return Some(OccurrenceChanged);
      }
      if latest.content.commodity.Some? && o.content.commodity != latest.content.commodity {
        return Some(CommodityChanged);
      }
      why := None;
    }
  }

  lemma {:induction false} AcceptedOccurrencesKnown(s: Study, ds: Ledger)
    requires Accepted(s, ds)
    ensures AccruedOccurrencesKnown(ds)
  {
    forall k | 0 <= k < |ds| && ds[k].accrued ensures ds[k].Occurred().Some? {
      RowAccepted(s, ds, k);
      AccruedHadItsOccurrence(s, ds[..k], ds[k]);
    }
  }
}
