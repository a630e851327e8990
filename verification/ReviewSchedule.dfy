/** When a session of a recorded run is reviewed, read off the records before it: the
    last review, what it scheduled, which facts were used, and how often the running
    cycle was revised. */
module ReviewSchedule {
  import opened Base
  import opened Coordinator
  import opened CoordinatorRuns

  /** The last session whose review is recorded. */
  function LastReview(recs: seq<Rec>): (last: Option<nat>)
    ensures last.Some? ==> last.value < |recs| && recs[last.value].decision.Some?
    ensures last.Some? ==> forall k :: last.value < k < |recs| ==> recs[k].decision.None?
    ensures last.None? ==> forall k :: 0 <= k < |recs| ==> recs[k].decision.None?
  {
    if recs == [] then None
    else if recs[|recs| - 1].decision.Some? then Some(|recs| - 1)
    else LastReview(recs[..|recs| - 1])
  }

  /** Where the running cycle ends: at the horizon of the last review. */
  function CycleEnd(recs: seq<Rec>): nat {
    var last := LastReview(recs);
    if last.Some? then last.value + recs[last.value].decision.value.horizon else 0
  }

  /** The facts of every session that was reviewed. */
  function UsedFacts(c: Config, recs: seq<Rec>): set<Fact>
    requires |recs| <= |c.frames|
  {
    set k, fact | 0 <= k < |recs| && recs[k].decision.Some? && fact in c.frames[k].facts :: fact
  }

  /** How many reviews the running cycle has had since the one that began it. */
  function Revisions(recs: seq<Rec>): nat {
    if recs == [] then 0
    else
      var k := |recs| - 1;
      if recs[k].decision.None? then Revisions(recs[..k])
      else if CycleEnd(recs[..k]) <= k then 0
      else Revisions(recs[..k]) + 1
  }

  /** The offset of session `k` after the last review is registered for its horizon. */
  predicate OnSchedule(c: Config, recs: seq<Rec>, k: nat) {
    var last := LastReview(recs);
    last.Some? && exists o :: o in c.offsets(recs[last.value].decision.value.horizon) && k == last.value + o
  }

  lemma {:induction false} LastReviewAfter(recs: seq<Rec>, r: Rec)
    ensures LastReview(recs + [r]) == if r.decision.Some? then Some(|recs|) else LastReview(recs)
  {
    assert (recs + [r])[..|recs|] == recs;
  }

  lemma {:induction false} UsedFactsAfter(c: Config, recs: seq<Rec>)
    requires recs != [] && |recs| <= |c.frames|
    ensures var k := |recs| - 1;
      UsedFacts(c, recs) == UsedFacts(c, recs[..k]) + (if recs[k].decision.Some? then c.frames[k].facts else {})
  {
    var k := |recs| - 1;
    forall fact ensures fact in UsedFacts(c, recs) <==>
      fact in UsedFacts(c, recs[..k]) || (recs[k].decision.Some? && fact in c.frames[k].facts)
    {
      if fact in UsedFacts(c, recs) {
        var m :| 0 <= m < |recs| && recs[m].decision.Some? && fact in c.frames[m].facts;
        if m < k { assert recs[..k][m] == recs[m]; }
      }
      if fact in UsedFacts(c, recs[..k]) {
        var m :| 0 <= m < k && recs[..k][m].decision.Some? && fact in c.frames[m].facts;
        assert recs[m].decision.Some?;
      }
    }
  }

  /** The live state says nothing but that. */
  lemma {:induction false} StateMeans(c: Config, recs: seq<Rec>)
    requires WellFormed(c, recs)
    ensures var s, last := StateAfter(c, recs), LastReview(recs);
      && s.previous == (if last.Some? then recs[last.value].decision else None)
      && s.expires == CycleEnd(recs) && s.consumed == UsedFacts(c, recs)
      && (c.cadence.EventDriven? ==> s.eventCount == Revisions(recs))
      && (forall k: nat :: k in s.scheduled <==> k < |c.frames| && OnSchedule(c, recs, k))
  {
    if recs != [] {
      var k := |recs| - 1;
      var front := recs[..k];
      StateMeans(c, front);
      SplitLast(recs);
      LastReviewAfter(front, recs[k]);
      UsedFactsAfter(c, recs);
    }
  }

  /** A session of a recorded run is a review exactly when there was none before it, the
      running cycle has ended, it brings a fact that no review used while the cycle has
      had fewer than three revisions, or its offset after the last review is registered;
      the latter two under the cadence that says so. */
  lemma {:induction false} ReviewedIff(c: Config, recs: seq<Rec>, k: nat)
    requires WellFormed(c, recs) && k < |recs|
    ensures var front := recs[..k];
      recs[k].started || recs[k].decision.Some? <==>
        || LastReview(front).None? || CycleEnd(front) <= k
        || (c.cadence.EventDriven? && Revisions(front) < 3 && exists fact :: fact in c.frames[k].facts && fact !in UsedFacts(c, front))
        || (c.cadence.Scheduled? && OnSchedule(c, front, k))
    ensures recs[k].account.Some? && recs[k].started ==> recs[k].decision.Some?
  {
    FrontOk(c, recs, k);
    StateMeans(c, recs[..k]);
    var s := StateAfter(c, recs[..k]);
    assert k in s.scheduled <==> OnSchedule(c, recs[..k], k);
    assert c.frames[k].facts - s.consumed != {} <==> exists fact :: fact in c.frames[k].facts && fact !in UsedFacts(c, recs[..k]) by {
      if c.frames[k].facts - s.consumed != {} {
        var fact :| fact in c.frames[k].facts - s.consumed;
      }
      if fact :| fact in c.frames[k].facts && fact !in UsedFacts(c, recs[..k]) {
        assert fact in c.frames[k].facts - s.consumed;
      }
    }
  }
}
