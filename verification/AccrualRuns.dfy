/** What the two independent sides of the accrual ledger agree on, over every run of
    appends, and what every accepted cohort satisfies. */
module AccrualRuns {
  import opened Base
  import opened Accrual

  datatype Input = Input(o: Observation, at: Time, r: Receipt)

  predicate Usable(i: Input) {
    Constructed(i.o) && ReceiptConstructed(i.r)
  }

  function RunAll(s: Study, inputs: seq<Input>): Ledger
    decreases |inputs|
  {
    if inputs == [] then []
    else
      var n := |inputs| - 1;
      var ds := RunAll(s, inputs[..n]);
      After(ds, Record(s, ds, inputs[n].o, inputs[n].at, inputs[n].r))
  }

  function InputOf(d: Decision): Input {
    Input(d.observation, d.recordedAt, d.receipt)
  }

  // ---- the reader accepts what the append path writes ------------------------------------

  lemma {:induction false} AcceptedExtends(s: Study, ds: Ledger, d: Decision)
    ensures Accepted(s, ds + [d]) <==>
      Accepted(s, ds) && RowVerified(s, d) && d.sequence == |ds| + 1 && Follows(s, ds, d)
  {
    var all := ds + [d];
    assert all[..|all| - 1] == ds && all[|all| - 1] == d;
  }

  lemma {:induction false} DecidedIsVerified(s: Study, ds: Ledger, i: Input)
    requires Usable(i) && Bound(s.coverage, i.o.content, i.r)
    ensures var d := Decided(s, ds, i.o, i.at, i.r); RowVerified(s, d) && d.sequence == |ds| + 1
  {
  }

  lemma {:induction false} DecidedFollows(s: Study, ds: Ledger, i: Input)
    requires i.o.content.availableAt <= i.at && (ds != [] ==> ds[|ds| - 1].recordedAt <= i.at)
    requires AppendRefusal(ds, i.o).None?
    ensures Follows(s, ds, Decided(s, ds, i.o, i.at, i.r))
  {
  }

  lemma {:induction false} RecordedMeans(s: Study, ds: Ledger, i: Input)
    requires Record(s, ds, i.o, i.at, i.r).Recorded?
    ensures Record(s, ds, i.o, i.at, i.r) == Recorded(Decided(s, ds, i.o, i.at, i.r))
    ensures i.o.content.availableAt <= i.at && (ds != [] ==> ds[|ds| - 1].recordedAt <= i.at)
    ensures Bound(s.coverage, i.o.content, i.r) && AppendRefusal(ds, i.o).None?
  {
  }

  lemma {:induction false} RecordKeepsAccepted(s: Study, ds: Ledger, i: Input)
    requires Accepted(s, ds) && Usable(i)
    ensures Accepted(s, After(ds, Record(s, ds, i.o, i.at, i.r)))
  {
    var outcome := Record(s, ds, i.o, i.at, i.r);
    if outcome.Recorded? {
      RecordedMeans(s, ds, i);
      DecidedIsVerified(s, ds, i);
      DecidedFollows(s, ds, i);
      AcceptedExtends(s, ds, outcome.decision);
    }
  }

  lemma {:induction false} EveryRunIsAccepted(s: Study, inputs: seq<Input>)
    requires forall i :: i in inputs ==> Usable(i)
    ensures Accepted(s, RunAll(s, inputs))
    decreases |inputs|
  {
    if inputs != [] {
      var n := |inputs| - 1;
      EveryRunIsAccepted(s, inputs[..n]);
      RecordKeepsAccepted(s, RunAll(s, inputs[..n]), inputs[n]);
    }
  }

  // ---- lineages: an accepted ledger never repeats an observation ---------------------------

  function Depth(d: Digest): nat {
    if d.OfObservation? && d.content.supersedes.Some? then 1 + Depth(d.content.supersedes.value) else 0
  }

  function CountOf(ds: Ledger, event: Id): nat {
    if ds == [] then 0
    else
      var n := |ds| - 1;
      CountOf(ds[..n], event) + (if ds[n].Event() == event then 1 else 0)
  }

  lemma {:induction false} PrefixAccepted(s: Study, ds: Ledger, k: nat)
    requires Accepted(s, ds) && k <= |ds|
    ensures Accepted(s, ds[..k])
    decreases |ds|
  {
    if k == |ds| {
      assert ds[..k] == ds;
    } else {
      PrefixAccepted(s, ds[..|ds| - 1], k);
      assert ds[..|ds| - 1][..k] == ds[..k];
    }
  }

  lemma {:induction false} RowAccepted(s: Study, ds: Ledger, k: nat)
    requires Accepted(s, ds) && k < |ds|
    ensures RowVerified(s, ds[k]) && ds[k].sequence == k + 1 && Follows(s, ds[..k], ds[k])
  {
    PrefixAccepted(s, ds, k + 1);
    assert ds[..k + 1][..k] == ds[..k] && ds[..k + 1][k] == ds[k];
  }

  /** The latest observation of an event is as deep in its chain of revisions as the
      event has earlier decisions. */
  lemma {:induction false} LatestDepth(s: Study, ds: Ledger, event: Id)
    requires Accepted(s, ds)
    ensures Latest(ds, event).None? <==> CountOf(ds, event) == 0
    ensures Latest(ds, event).Some? ==>
      Constructed(Latest(ds, event).value) && Depth(Latest(ds, event).value.id) + 1 == CountOf(ds, event)
    decreases |ds|
  {
    if ds != [] {
      LatestDepth(s, ds[..|ds| - 1], event);
    }
  }

  lemma {:induction false} CountGrows(ds: Ledger, k: nat, event: Id)
    requires k < |ds| && ds[k].Event() == event
    ensures CountOf(ds[..k], event) < CountOf(ds, event)
    decreases |ds|
  {
    var n := |ds| - 1;
    if k < n {
      CountGrows(ds[..n], k, event);
      assert ds[..n][..k] == ds[..k];
    }
  }

  lemma {:induction false} RowDepth(s: Study, ds: Ledger, k: nat)
    requires Accepted(s, ds) && k < |ds|
    ensures Depth(ds[k].observation.id) == CountOf(ds[..k], ds[k].Event())
  {
    RowAccepted(s, ds, k);
    PrefixAccepted(s, ds, k);
    LatestDepth(s, ds[..k], ds[k].Event());
  }

  lemma {:induction false} ObservationsAreDistinct(s: Study, ds: Ledger, i: nat, j: nat)
    requires Accepted(s, ds) && i < j < |ds|
    ensures ds[i].observation.id != ds[j].observation.id
  {
    RowAccepted(s, ds, i);
    RowAccepted(s, ds, j);
    RowDepth(s, ds, i);
    RowDepth(s, ds, j);
    if ds[i].Event() == ds[j].Event() {
      CountGrows(ds[..j], i, ds[i].Event());
      assert ds[..j][..i] == ds[..i];
    }
  }

  lemma {:induction false} FindsFirst(ds: Ledger, id: Digest)
    ensures var f := FindObservation(ds, id);
      if f.Some? then f.value in ds && f.value.observation.id == id
      else forall d :: d in ds ==> d.observation.id != id
  {
    if ds != [] && ds[0].observation.id != id {
      FindsFirst(ds[1..], id);
    }
  }

  /** A lookup by identity finds the decision made on that observation. */
  lemma {:induction false} LookupFindsTheRow(s: Study, ds: Ledger, k: nat)
    requires Accepted(s, ds) && k < |ds|
    ensures FindObservation(ds, ds[k].observation.id) == Some(ds[k])
  {
    var id := ds[k].observation.id;
    FindsFirst(ds, id);
    var d := FindObservation(ds, id).value;
    var j :| 0 <= j < |ds| && ds[j] == d;
    if j < k { ObservationsAreDistinct(s, ds, j, k); }
    if k < j { ObservationsAreDistinct(s, ds, k, j); }
  }

  // ---- the exact difference between the two sides -------------------------------------------

  predicate Advances(ds: Ledger, d: Decision) {
    var latest := Latest(ds, d.Event());
    latest.Some? ==> latest.value.content.availableAt < d.Available()
  }

  /** Every revision became available strictly after the observation it revises. */
  predicate RevisionsAdvance(ds: Ledger) {
    ds == [] || (var n := |ds| - 1; RevisionsAdvance(ds[..n]) && Advances(ds[..n], ds[n]))
  }

  /** The append path writes d after ds, when given d's own inputs. */
  predicate Writes(s: Study, ds: Ledger, d: Decision) {
    Usable(InputOf(d)) && Record(s, ds, d.observation, d.recordedAt, d.receipt) == Recorded(d)
  }

  lemma {:induction false} NewObservationIsNotFound(s: Study, ds: Ledger, d: Decision)
    requires Accepted(s, ds + [d])
    ensures FindObservation(ds, d.observation.id).None?
  {
    var all := ds + [d];
    FindsFirst(ds, d.observation.id);
    if FindObservation(ds, d.observation.id).Some? {
      var j :| 0 <= j < |ds| && ds[j] == FindObservation(ds, d.observation.id).value;
      ObservationsAreDistinct(s, all, j, |ds|);
    }
  }

  lemma {:induction false} WritesIffReadsAndAdvances(s: Study, ds: Ledger, d: Decision)
    requires Accepted(s, ds)
    ensures Writes(s, ds, d) <==> Accepted(s, ds + [d]) && Advances(ds, d)
  {
    AcceptedExtends(s, ds, d);
    if Writes(s, ds, d) {
      RecordKeepsAccepted(s, ds, InputOf(d));
    } else if Accepted(s, ds + [d]) {
      NewObservationIsNotFound(s, ds, d);
      assert d == Decided(s, ds, d.observation, d.recordedAt, d.receipt);
    }
  }

  function InputsOf(ds: Ledger): seq<Input> {
    if ds == [] then [] else var n := |ds| - 1; InputsOf(ds[..n]) + [InputOf(ds[n])]
  }

  lemma {:induction false} RunExtends(s: Study, inputs: seq<Input>, i: Input)
    ensures var ds := RunAll(s, inputs);
      RunAll(s, inputs + [i]) == After(ds, Record(s, ds, i.o, i.at, i.r))
  {
    var all := inputs + [i];
    assert all[..|all| - 1] == inputs;
  }

  lemma {:induction false} RebuildStep(s: Study, inputs: seq<Input>, ds: Ledger, d: Decision)
    requires RunAll(s, inputs) == ds && Writes(s, ds, d)
    ensures RunAll(s, inputs + [InputOf(d)]) == ds + [d]
  {
    RunExtends(s, inputs, InputOf(d));
  }

  lemma {:induction false} LastAdvances(ds: Ledger, d: Decision)
    ensures RevisionsAdvance(ds + [d]) <==> RevisionsAdvance(ds) && Advances(ds, d)
  {
    var all := ds + [d];
    assert all[..|all| - 1] == ds && all[|all| - 1] == d;
  }

  /** An accepted, advancing ledger is rebuilt by running the append path on its own inputs. */
  lemma {:induction false} AcceptedRebuilds(s: Study, ds: Ledger)
    requires Accepted(s, ds) && RevisionsAdvance(ds)
    ensures RunAll(s, InputsOf(ds)) == ds
    ensures forall i :: i in InputsOf(ds) ==> Usable(i)
    decreases |ds|
  {
    if ds != [] {
      var front, d := ds[..|ds| - 1], ds[|ds| - 1];
      SplitLast(ds);
      LastAdvances(front, d);
      AcceptedRebuilds(s, front);
      WritesIffReadsAndAdvances(s, front, d);
      RebuildStep(s, InputsOf(front), front, d);
    }
  }

  lemma {:induction false} RecordAdvances(s: Study, ds: Ledger, i: Input)
    requires RevisionsAdvance(ds)
    ensures RevisionsAdvance(After(ds, Record(s, ds, i.o, i.at, i.r)))
  {
    var outcome := Record(s, ds, i.o, i.at, i.r);
    if outcome.Recorded? {
      RecordedMeans(s, ds, i);
      LastAdvances(ds, outcome.decision);
    }
  }

  lemma {:induction false} RunsAdvance(s: Study, inputs: seq<Input>)
    ensures RevisionsAdvance(RunAll(s, inputs))
    decreases |inputs|
  {
    if inputs != [] {
      var n := |inputs| - 1;
      RunsAdvance(s, inputs[..n]);
      RecordAdvances(s, RunAll(s, inputs[..n]), inputs[n]);
    }
  }

  /** The ledgers some run of appends produces are exactly those the reader accepts in
      which every revision became available strictly later: the reader does not insist
      on that, and in everything else the two sides agree. */
  lemma {:induction false} ReachableIffAcceptedAndAdvancing(s: Study, ds: Ledger)
    ensures (exists inputs :: (forall i :: i in inputs ==> Usable(i)) && RunAll(s, inputs) == ds) <==>
      Accepted(s, ds) && RevisionsAdvance(ds)
  {
    if inputs: seq<Input> :| (forall i :: i in inputs ==> Usable(i)) && RunAll(s, inputs) == ds {
      EveryRunIsAccepted(s, inputs);
      RunsAdvance(s, inputs);
    }
    if Accepted(s, ds) && RevisionsAdvance(ds) { AcceptedRebuilds(s, ds); }
  }

  lemma {:induction false} NeverConflicts(s: Study, ds: Ledger, i: Input)
    requires Accepted(s, ds) && Usable(i)
    ensures var f := FindObservation(ds, i.o.id); f.Some? ==> f.value.observation == i.o
  {
    FindsFirst(ds, i.o.id);
    var f := FindObservation(ds, i.o.id);
    if f.Some? {
      var k :| 0 <= k < |ds| && ds[k] == f.value;
      RowAccepted(s, ds, k);
    }
  }

  lemma {:induction false} AcceptedNeverObjects(s: Study, ds: Ledger, i: Input)
    requires Accepted(s, ds) && Usable(i)
    ensures var outcome := Record(s, ds, i.o, i.at, i.r);
      outcome != Refused(LedgerInvalid) && outcome != Refused(ConflictingContent)
  {
    NeverConflicts(s, ds, i);
  }

  /** On every ledger reached by appends the reader never objects, and no identity is
      ever reused for other content. */
  lemma {:induction false} AppendsNeverMeetACorruptLedger(s: Study, inputs: seq<Input>, i: Input)
    requires (forall k :: k in inputs ==> Usable(k)) && Usable(i)
    ensures var outcome := Record(s, RunAll(s, inputs), i.o, i.at, i.r);
      outcome != Refused(LedgerInvalid) && outcome != Refused(ConflictingContent)
  {
    var ds := RunAll(s, inputs);
    EveryRunIsAccepted(s, inputs);
    AcceptedNeverObjects(s, ds, i);
  }

  /** A recorded observation is answered with its decision from then on, whatever was
      recorded since and whatever time the retry gives. */
  lemma {:induction false} RetryReturnsTheDecision(s: Study, ds: Ledger, k: nat, at: Time)
    requires Accepted(s, ds) && k < |ds| && ds[k].Available() <= at
    ensures Record(s, ds, ds[k].observation, at, ds[k].receipt) == Existing(ds[k])
  {
    RowAccepted(s, ds, k);
    LookupFindsTheRow(s, ds, k);
  }

  // ---- one history, one ledger ---------------------------------------------------------------

  predicate SameInputs(a: Ledger, b: Ledger) {
    |a| == |b| && forall k :: 0 <= k < |a| ==> InputOf(a[k]) == InputOf(b[k])
  }

  lemma {:induction false} SameInputSameRow(s: Study, ds: Ledger, a: Decision, b: Decision)
    requires RowVerified(s, a) && RowVerified(s, b) && Follows(s, ds, a) && Follows(s, ds, b)
    requires a.sequence == b.sequence && InputOf(a) == InputOf(b)
    ensures a == b
  {
  }

  lemma {:induction false} InputsDetermineTheLedger(s: Study, a: Ledger, b: Ledger)
    requires Accepted(s, a) && Accepted(s, b) && SameInputs(a, b)
    ensures a == b
    decreases |a|
  {
    if a != [] {
      var n := |a| - 1;
      SameInputsFront(a, b);
      InputsDetermineTheLedger(s, a[..n], b[..n]);
      SameInputSameRow(s, a[..n], a[n], b[n]);
      SplitLast(a);
      SplitLast(b);
    }
  }

  lemma {:induction false} SameInputsFront(a: Ledger, b: Ledger)
    requires SameInputs(a, b) && a != []
    ensures SameInputs(a[..|a| - 1], b[..|b| - 1]) && InputOf(a[|a| - 1]) == InputOf(b[|b| - 1])
  {
    var n := |a| - 1;
    forall k | 0 <= k < n ensures InputOf(a[..n][k]) == InputOf(b[..n][k]) {
      assert InputOf(a[k]) == InputOf(b[k]);
    }
  }

  lemma {:induction false} TailHashDeterminesTheLedger(s: Study, a: Ledger, b: Ledger)
    requires Accepted(s, a) && Accepted(s, b) && Tail(a) == Tail(b)
    ensures a == b
    decreases |a|
  {
    if a != [] && b != [] {
      var m, n := |a| - 1, |b| - 1;
      assert a[m].CoreOf() == b[n].CoreOf();
      assert a[m] == b[n];
      TailHashDeterminesTheLedger(s, a[..m], b[..n]);
      assert a == a[..m] + [a[m]] && b == b[..n] + [b[n]];
    }
  }

  // ---- the cohort ------------------------------------------------------------------------------

  predicate Member(s: Study, d: Decision) {
    && d.accrued && d.Occurred().Some?
    && s.opensAfter < d.Available() <= s.closesAt
    && d.Occurred().value <= d.Available()
    && d.observation.content.commodity.Some? && d.observation.content.commodity.value in PHYSICAL_ENERGY
    && d.observation.content.nature in QUALIFYING
    && Complete(d.receipt.cycle, s.coverage)
    && d.identity == Some(AccrualIdentity(s, d.observation))
  }

  predicate Apart(s: Study, a: Ledger, i: nat, j: nat)
    requires i < j < |a|
  {
    && a[i].Event() != a[j].Event()
    && (a[i].Occurred().Some? && a[j].Occurred().Some? ==>
          a[i].Occurred().value + (j - i) * s.separation <= a[j].Occurred().value)
  }

  predicate CohortSafe(s: Study, a: Ledger) {
    && |a| <= s.target
    && (forall k :: 0 <= k < |a| ==> Member(s, a[k]))
    && forall i, j :: 0 <= i < j < |a| ==> Apart(s, a, i, j)
  }

  lemma {:induction false} AccruedMeansNoReasonApplied(s: Study, ds: Ledger, d: Decision)
    requires RowVerified(s, d) && Follows(s, ds, d) && d.accrued
    ensures forall r :: !Applies(r, s, d.observation.content, d.receipt.cycle, ds)
  {
    forall r ensures !Applies(r, s, d.observation.content, d.receipt.cycle, ds) {
      JudgementIsExact(r, s, d.observation.content, d.receipt.cycle, ds);
    }
  }

  lemma {:induction false} QualifiesAsMember(s: Study, ds: Ledger, d: Decision)
    requires RowVerified(s, d) && Follows(s, ds, d) && d.accrued
    ensures Member(s, d) && |Accrued(ds)| < s.target
  {
    var o, c := d.observation.content, d.receipt.cycle;
    AccruedMeansNoReasonApplied(s, ds, d);
    assert !Applies(MissingCriticalData, s, o, c, ds) && !Applies(OutsideWindow, s, o, c, ds);
    assert !Applies(UnsupportedCommodity, s, o, c, ds) && !Applies(NatureExcluded, s, o, c, ds);
    assert !Applies(SourceCoverageIncomplete, s, o, c, ds) && !Applies(CohortFull, s, o, c, ds);
  }

  lemma {:induction false} StandsApart(s: Study, ds: Ledger, d: Decision, i: nat)
    requires PlanAllowed(s) && CohortSafe(s, Accrued(ds)) && i < |Accrued(ds)| && d.Occurred().Some?
    requires !Applies(AlreadyAccrued, s, d.observation.content, d.receipt.cycle, ds)
    requires !Applies(SeparationWindow, s, d.observation.content, d.receipt.cycle, ds)
    ensures Apart(s, Accrued(ds) + [d], i, |Accrued(ds)|)
  {
    var a := Accrued(ds);
    var n := |a|;
    AccruedAreThoseAccrued(ds, a[i]);
    assert Member(s, a[i]) && Member(s, a[n - 1]);
    if i < n - 1 {
      assert Apart(s, a, i, n - 1);
      assert (n - i) * s.separation == (n - 1 - i) * s.separation + s.separation;
    }
  }

  lemma {:induction false} JoinsTheCohort(s: Study, ds: Ledger, d: Decision)
    requires PlanAllowed(s) && CohortSafe(s, Accrued(ds))
    requires RowVerified(s, d) && Follows(s, ds, d) && d.accrued
    ensures CohortSafe(s, Accrued(ds) + [d])
  {
    var a := Accrued(ds);
    QualifiesAsMember(s, ds, d);
    AccruedMeansNoReasonApplied(s, ds, d);
    forall i, j | 0 <= i < j <= |a| ensures Apart(s, a + [d], i, j) {
      if j < |a| {
        assert Apart(s, a, i, j);
      } else {
        StandsApart(s, ds, d, i);
      }
    }
  }

  /** The cohort of every accepted ledger fits its target, lies in the window, has one
      member per event, and its k-th member occurred at least k separations after its first. */
  lemma {:induction false} CohortIsSafe(s: Study, ds: Ledger)
    requires PlanAllowed(s) && Accepted(s, ds)
    ensures CohortSafe(s, Accrued(ds))
    decreases |ds|
  {
    if ds != [] {
      var n := |ds| - 1;
      CohortIsSafe(s, ds[..n]);
      if ds[n].accrued {
        JoinsTheCohort(s, ds[..n], ds[n]);
      } else {
        assert Accrued(ds) == Accrued(ds[..n]);
      }
    }
  }

  /** The latest accrued occurrence that the separation rule asserts to exist does. */
  lemma {:induction false} LatestOccurrenceIsKnown(s: Study, ds: Ledger)
    requires PlanAllowed(s) && Accepted(s, ds) && Accrued(ds) != []
    ensures Accrued(ds)[|Accrued(ds)| - 1].Occurred().Some?
  {
    CohortIsSafe(s, ds);
    assert Member(s, Accrued(ds)[|Accrued(ds)| - 1]);
  }

  /** Rejected for incomplete coverage alone, an event never accrues by any revision. */
  lemma {:induction false} CoverageRejectionIsPermanent(s: Study, ds: Ledger, i: nat, j: nat)
    requires Accepted(s, ds) && i < j < |ds|
    requires ds[i].Event() == ds[j].Event() && ds[i].RejectedForCoverageAlone()
    ensures !ds[j].accrued && SourceCoverageIncomplete in ds[j].reasons
  {
    RowAccepted(s, ds, j);
    assert ds[..j][i] == ds[i];
    assert ds[i] in ds[..j];
    JudgementIsExact(SourceCoverageIncomplete, s, ds[j].observation.content, ds[j].receipt.cycle, ds[..j]);
  }

  /** The stored identities of two decisions never collide, so no insert is refused. */
  lemma {:induction false} IdentitiesAreUnique(s: Study, ds: Ledger, i: nat, j: nat)
    requires Accepted(s, ds) && i < j < |ds|
    ensures ds[i].hash != ds[j].hash && ds[i].sequence != ds[j].sequence
    ensures ds[i].accrued && ds[j].accrued ==>
      && ds[i].identity.Some? && ds[j].identity.Some?
      && ds[i].identity.value.accruedId != ds[j].identity.value.accruedId
  {
    RowAccepted(s, ds, i);
    RowAccepted(s, ds, j);
    ObservationsAreDistinct(s, ds, i, j);
  }
}
