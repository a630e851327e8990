/** When each answer of an admission is given: the three limits, and sharing, stated
    from the rows of the table and the watches as they are. */
module AdmissionLimits {
  import opened Base
  import opened WatchStore
  import opened Admission

  /** Rows `k` that count against the branch of a parent. */
  function Branch(t: seq<Admission>, parentRef: Id): set<nat> {
    set k: nat | k < |t| && (t[k].outcome.Admitted? || t[k].outcome.Reused?) && t[k].key.parentRef == parentRef
  }

  /** Row `a` makes watch `w` count as active at `at`: admitted, not ended by then, and
      its watch live, or to be created from the stored policy. */
  predicate HoldsActive(a: Admission, rows: map<WatchId, Row>, w: WatchId, at: Time) {
    && a.outcome.Admitted? && a.watch == Some(w) && a.expiresAt.Some? && at <= a.expiresAt.value
    && (if w in rows then rows[w].status in {Active, BackingOff, Triggered} else a.policy.Some?)
  }

  predicate AllActive(ws: set<WatchId>, t: seq<Admission>, rows: map<WatchId, Row>, at: Time) {
    forall w :: w in ws ==> exists a :: a in t && HoldsActive(a, rows, w, at)
  }

  /** Row `a` owns a watch that the candidate may share. */
  predicate Shareable(a: Admission, rows: map<WatchId, Row>, c: Candidate) {
    && a.outcome.Admitted? && a.opKey == Some(c.opKey) && a.profile.id == c.profile.id
    && a.expiresAt.Some? && c.policy.expiresAt <= a.expiresAt.value
    && (if a.watch.Some? && a.watch.value in rows
        then rows[a.watch.value].status in {Active, BackingOff, Triggered} else a.policy.Some?)
  }

  /** The first of them in the order of admission. */
  predicate FirstShareable(a: Admission, t: seq<Admission>, rows: map<WatchId, Row>, c: Candidate) {
    && a in t && Shareable(a, rows, c)
    && forall b :: b in t && Shareable(b, rows, c) ==>
         a.admittedAt < b.admittedAt || (a.admittedAt == b.admittedAt && a.id <= b.id)
  }

  predicate SpentFor(w: Option<WatchId>, rows: map<WatchId, Row>, p: Profile) {
    && w.Some? && w.value in rows
    && (p.maxPolls <= rows[w.value].polls || p.maxBytes <= rows[w.value].bytes || p.maxWakes <= rows[w.value].wakes)
  }

  // ---- the counts ---------------------------------------------------------------------------

  lemma {:induction false} BranchIsCounted(t: seq<Admission>, parentRef: Id)
    ensures |Branch(t, parentRef)| == AcceptedUnder(t, parentRef)
  {
    if t == [] {
      assert Branch(t, parentRef) == {};
    } else {
      var n := |t| - 1;
      var front := t[..n];
      BranchIsCounted(front, parentRef);
      var counts := Accepted(t[n]) && t[n].key.parentRef == parentRef;
      assert Branch(t, parentRef) == Branch(front, parentRef) + (if counts then {n} else {}) by {
        forall k: nat ensures k in Branch(t, parentRef) <==> k in Branch(front, parentRef) || (counts && k == n) {
          if k < n { assert front[k] == t[k]; }
        }
      }
    }
  }

  lemma {:induction false} ActiveAreAll(t: seq<Admission>, rows: map<WatchId, Row>, at: Time)
    ensures AllActive(ActiveWatches(t, rows, at), t, rows, at)
    ensures forall ws :: AllActive(ws, t, rows, at) ==> ws <= ActiveWatches(t, rows, at)
  {
    forall w | w in ActiveWatches(t, rows, at) ensures exists a :: a in t && HoldsActive(a, rows, w, at) {
      var a :| a in t && a.outcome.Admitted? && a.expiresAt.Some? && a.expiresAt.value >= at
               && LiveOrPending(a, rows) && a.watch.Some? && a.watch.value == w;
      assert HoldsActive(a, rows, w, at);
    }
    forall ws, w | AllActive(ws, t, rows, at) && w in ws ensures w in ActiveWatches(t, rows, at) {
      var a :| a in t && HoldsActive(a, rows, w, at);
      assert LiveOrPending(a, rows);
    }
  }

  lemma {:induction false} SubsetIsSmaller<T>(a: set<T>, b: set<T>)
    requires a <= b
    ensures |a| <= |b|
  {
    assert b == a + (b - a);
  }

  /** The active watches number less than a limit exactly when no set of active watches
      reaches it. */
  lemma {:induction false} ActiveBelow(t: seq<Admission>, rows: map<WatchId, Row>, at: Time, limit: nat)
    ensures |ActiveWatches(t, rows, at)| < limit <==> forall ws :: AllActive(ws, t, rows, at) ==> |ws| < limit
  {
    ActiveAreAll(t, rows, at);
    forall ws | AllActive(ws, t, rows, at) ensures |ws| <= |ActiveWatches(t, rows, at)| {
      SubsetIsSmaller(ws, ActiveWatches(t, rows, at));
    }
  }

  lemma {:induction false} ShareableIsEquivalent(a: Admission, rows: map<WatchId, Row>, c: Candidate)
    ensures Shareable(a, rows, c) <==> Equivalent(a, rows, c.opKey, c.profile.id, c.policy.expiresAt)
  {
  }

  lemma {:induction false} EarliestIsFirst(t: seq<Admission>, rows: map<WatchId, Row>, c: Candidate)
    ensures var found := Earliest(t, (a: Admission) => Equivalent(a, rows, c.opKey, c.profile.id, c.policy.expiresAt));
      if found.Some? then FirstShareable(found.value, t, rows, c) else forall a :: a in t ==> !Shareable(a, rows, c)
  {
    var found := Earliest(t, (a: Admission) => Equivalent(a, rows, c.opKey, c.profile.id, c.policy.expiresAt));
    forall a | a in t ensures Shareable(a, rows, c) <==> Equivalent(a, rows, c.opKey, c.profile.id, c.policy.expiresAt) {
      ShareableIsEquivalent(a, rows, c);
    }
    if found.Some? { assert !Before(found.value, found.value); }
  }

  // ---- the answers ----------------------------------------------------------------------------

  /** Refused at the branch limit exactly when the parent has that many accepted rows. */
  lemma {:induction false} BranchLimitIff(t: seq<Admission>, rows: map<WatchId, Row>, c: Candidate)
    ensures Decide(t, rows, c).outcome == Rejected(BranchLimit) <==> c.profile.maxChildren <= |Branch(t, c.key.parentRef)|
  {
    BranchIsCounted(t, c.key.parentRef);
  }

  /** Below it, a candidate that some owner could share is never given a watch of its own:
      it shares the first such owner's watch, until its own expiry, unless that watch has
      used up what the profile allows. */
  lemma {:induction false} SharedIff(t: seq<Admission>, rows: map<WatchId, Row>, c: Candidate)
    requires |Branch(t, c.key.parentRef)| < c.profile.maxChildren
    ensures (Decide(t, rows, c).outcome.Reused? || Decide(t, rows, c).outcome == Rejected(WatchBudget)) <==>
      exists a :: a in t && Shareable(a, rows, c)
    ensures Decide(t, rows, c).outcome.Reused? ==>
      exists a :: FirstShareable(a, t, rows, c) && !SpentFor(a.watch, rows, c.profile)
        && Decide(t, rows, c).watch == a.watch && Decide(t, rows, c).expiresAt == Some(c.policy.expiresAt)
    ensures Decide(t, rows, c).outcome == Rejected(WatchBudget) ==>
      exists a :: FirstShareable(a, t, rows, c) && SpentFor(a.watch, rows, c.profile)
  {
    BranchIsCounted(t, c.key.parentRef);
    EarliestIsFirst(t, rows, c);
    var found := Earliest(t, (a: Admission) => Equivalent(a, rows, c.opKey, c.profile.id, c.policy.expiresAt));
    if found.Some? { assert FirstShareable(found.value, t, rows, c); }
  }

  /** With nothing to share it owns its watch exactly when every set of active watches is
      smaller than the profile's limit, and is refused by that limit otherwise. */
  lemma {:induction false} OwnedIff(t: seq<Admission>, rows: map<WatchId, Row>, c: Candidate)
    ensures Decide(t, rows, c) == Own(c) <==>
      && |Branch(t, c.key.parentRef)| < c.profile.maxChildren
      && (forall a :: a in t ==> !Shareable(a, rows, c))
      && (forall ws :: AllActive(ws, t, rows, c.decidedAt) ==> |ws| < c.profile.maxActive)
    ensures Decide(t, rows, c).outcome == Rejected(ActiveWatchLimit) <==>
      && |Branch(t, c.key.parentRef)| < c.profile.maxChildren
      && (forall a :: a in t ==> !Shareable(a, rows, c))
      && (exists ws :: AllActive(ws, t, rows, c.decidedAt) && c.profile.maxActive <= |ws|)
    ensures Decide(t, rows, c).outcome.Admitted? <==> Decide(t, rows, c) == Own(c)
  {
    BranchIsCounted(t, c.key.parentRef);
    EarliestIsFirst(t, rows, c);
    ActiveBelow(t, rows, c.decidedAt, c.profile.maxActive);
    var found := Earliest(t, (a: Admission) => Equivalent(a, rows, c.opKey, c.profile.id, c.policy.expiresAt));
    if found.Some? { assert found.value in t && Shareable(found.value, rows, c); }
    ActiveAreAll(t, rows, c.decidedAt);
  }

  /** What an owning row stores. */
  lemma {:induction false} OwnedRow(t: seq<Admission>, rows: map<WatchId, Row>, c: Candidate)
    requires ForKey(t, c.key).None? && !IdTaken(t, c.id) && Decide(t, rows, c).outcome.Admitted?
    ensures var (t', answer) := CommitAcceptance(t, rows, c);
      && answer.Some? && t' == t + [answer.value]
      && answer.value.outcome == Admitted && answer.value.watch == Some(c.policy.watchId)
      && answer.value.policy == Some(c.policy) && answer.value.expiresAt == Some(c.policy.expiresAt)
      && answer.value.opKey == Some(c.opKey) && answer.value.profile == c.profile
      && answer.value.key == c.key && answer.value.authorityHash == c.authorityHash
      && answer.value.id == c.id && answer.value.admittedAt == c.decidedAt
  {
  }

  /** One decision per key: what was decided first is answered for good. */
  lemma {:induction false} FirstDecisionSticks(t: seq<Admission>, a: Admission, b: Admission)
    requires SoundTable(t) && a in t && a.key == b.key
    ensures Insert(t, b) == (t, Some(a))
  {
    var found := ForKey(t, b.key);
    var i :| 0 <= i < |t| && t[i] == a;
    if found.Some? {
      var j :| 0 <= j < |t| && t[j] == found.value;
      assert t[i].key == t[j].key;
    }
  }
}
