/** The admission service as an object: sticky answers, the acceptance
    transaction, activation after it, and recovery of interrupted activations. */
module AdmissionService {
  import opened Base
  import opened WatchStore
  import opened WatchService
  import opened Admission

  /** What a caller of `admit` gets: the sticky admission, or an exception, from the
      table's primary key or from an activation after the admission is durable. */
  datatype Answer = Answered(admission: Admission) | RolledBack | ActivationRaised(admission: Admission, done: Activation)

  predicate Raises(done: Activation) {
    done.NoOwningPolicy? || (done.Attempted? && !done.created.Created? && !done.created.AlreadyPresent?)
  }

  /** The admission transaction, for a request already in the table and for a new one. */
  function AdmitIn(t: seq<Admission>, rows: map<WatchId, Row>, c: Candidate, precheck: Option<nat>)
    : (seq<Admission>, Option<Admission>)
  {
    if ForKey(t, c.key).Some? then (t, ForKey(t, c.key))
    else if precheck.Some? then PersistRejection(t, c, precheck.value)
    else CommitAcceptance(t, rows, c)
  }

  function Reply(decided: Option<Admission>, done: Activation): Answer {
    if decided.None? then RolledBack
    else if Raises(done) then ActivationRaised(decided.value, done)
    else Answered(decided.value)
  }

  /** On a sound table an activation raises only because its baseline lies in the future. */
  lemma {:induction false} RaisesIffBaselineInFuture(t: seq<Admission>, db: Db, a: Admission, cutoff: Time)
    requires SoundTable(t) && a in t
    ensures var done := Activate(t, db, a, cutoff).1; Raises(done) <==> done == Attempted(FutureBaseline)
  {
    var i :| 0 <= i < |t| && t[i] == a;
    if Accepted(a) { ActivationFindsItsOwner(t, db, i, cutoff); }
  }

  lemma {:induction false} AdmittedIsStored(t: seq<Admission>, rows: map<WatchId, Row>, c: Candidate, precheck: Option<nat>)
    requires SoundTable(t) && Offered(c)
    ensures var (t', decided) := AdmitIn(t, rows, c, precheck);
      SoundTable(t') && (decided.Some? ==> decided.value in t')
  {
    if precheck.Some? {
      InsertStaysSound(t, Reject(c, Precheck(precheck.value)));
    } else {
      AcceptanceStaysSound(t, rows, c);
    }
  }

  // ---- recovery ----------------------------------------------------------------------------

  /** The end of the baseline in the policy that an activation would create from. */
  function CutoffIn(t: seq<Admission>, a: Admission, cutoffOf: SnapshotId -> Time): Time {
    if a.watch.None? then 0
    else
      var owner := Earliest(t, (o: Admission) => Owns(o, a.watch.value));
      if owner.Some? then cutoffOf(owner.value.policy.value.initialSnapshot) else 0
  }

  predicate Pending(a: Admission, rows: map<WatchId, Row>, parents: set<Id>) {
    && a.outcome.Admitted? && a.policy.Some? && a.key.parentRef in parents
    && a.watch.Some? && a.watch.value !in rows
  }

  /** The committed owners whose watch was never created, among the reopenable parents. */
  function PendingOwners(t: seq<Admission>, rows: map<WatchId, Row>, parents: set<Id>): seq<Admission> {
    InOrder(t, (a: Admission) => Pending(a, rows, parents))
  }

  /** One activation after the other, up to the first that raises. */
  function ActivateAll(t: seq<Admission>, db: Db, pending: seq<Admission>, cutoffOf: SnapshotId -> Time): (Db, Option<Activation>)
    decreases |pending|
  {
    if pending == [] then (db, None)
    else
      var (db', done) := Activate(t, db, pending[0], CutoffIn(t, pending[0], cutoffOf));
      if Raises(done) then (db', Some(done)) else ActivateAll(t, db', pending[1..], cutoffOf)
  }

  /** Whether the policy to create from was admitted before its baseline ended. */
  predicate Late(t: seq<Admission>, a: Admission, cutoffOf: SnapshotId -> Time) {
    a.watch.Some? &&
      var owner := Earliest(t, (o: Admission) => Owns(o, a.watch.value));
      owner.Some? && cutoffOf(owner.value.policy.value.initialSnapshot) > owner.value.admittedAt
  }

  lemma {:induction false} ActivatesUnlessLate(t: seq<Admission>, db: Db, a: Admission, cutoffOf: SnapshotId -> Time)
    requires SoundTable(t) && a in t && Accepted(a)
    ensures var (db', done) := Activate(t, db, a, CutoffIn(t, a, cutoffOf));
      && a.watch.Some?
      && db'.rows.Keys == (if Raises(done) then db.rows.Keys else db.rows.Keys + {a.watch.value})
      && (Raises(done) ==> done == Attempted(FutureBaseline))
      && (a.watch.value !in db.rows ==> (Raises(done) <==> Late(t, a, cutoffOf)))
      && (a.watch.value in db.rows ==> !Raises(done))
  {
    var i :| 0 <= i < |t| && t[i] == a;
    OwnerIsThere(t, i);
    ActivationFindsItsOwner(t, db, i, CutoffIn(t, a, cutoffOf));
  }

  lemma {:induction false} AsLate(t: seq<Admission>, a: Admission, b: Admission, cutoffOf: SnapshotId -> Time)
    requires a.watch == b.watch
    ensures Late(t, a, cutoffOf) == Late(t, b, cutoffOf)
  {
  }

  /** The activations all succeed exactly when no pending owner is late; then every
      pending watch is there, and in any case no watch is lost. */
  lemma {:induction false} AllActivatedUnlessLate(t: seq<Admission>, db: Db, pending: seq<Admission>, cutoffOf: SnapshotId -> Time)
    requires SoundTable(t) && forall a :: a in pending ==> a in t && Accepted(a)
    requires forall a :: a in pending && a.watch.Some? && a.watch.value in db.rows ==> !Late(t, a, cutoffOf)
    ensures var (db', failed) := ActivateAll(t, db, pending, cutoffOf);
      && db.rows.Keys <= db'.rows.Keys
      && (failed.Some? ==> failed == Some(Attempted(FutureBaseline)))
      && (failed.Some? <==> exists a :: a in pending && Late(t, a, cutoffOf))
      && (failed.None? ==> forall a :: a in pending ==> a.watch.Some? && a.watch.value in db'.rows)
    decreases |pending|
  {
    if pending != [] {
      var first, rest := pending[0], pending[1..];
      assert first in pending && forall a :: a in pending <==> a == first || a in rest;
      ActivatesUnlessLate(t, db, first, cutoffOf);
      var (db', done) := Activate(t, db, first, CutoffIn(t, first, cutoffOf));
      assert Raises(done) ==> Late(t, first, cutoffOf);
      if !Raises(done) {
        assert !Late(t, first, cutoffOf);
        forall a | a in rest && a.watch.Some? && a.watch.value in db'.rows ensures !Late(t, a, cutoffOf) {
          if a.watch == first.watch { AsLate(t, a, first, cutoffOf); }
        }
        AllActivatedUnlessLate(t, db', rest, cutoffOf);
      }
    }
  }

  /** Recovery leaves every admitted owner of a reopenable parent with its watch, unless
      it stops at one whose baseline ends after its admission; it does so exactly when
      there is such an owner among the pending ones. */
  lemma {:induction false} RecoveryIsComplete(t: seq<Admission>, db: Db, parents: set<Id>, cutoffOf: SnapshotId -> Time)
    requires SoundTable(t)
    ensures var pending := PendingOwners(t, db.rows, parents);
      var (db', failed) := ActivateAll(t, db, pending, cutoffOf);
      && db.rows.Keys <= db'.rows.Keys
      && (failed.Some? ==> failed == Some(Attempted(FutureBaseline)))
      && (failed.Some? <==> exists a :: a in t && Pending(a, db.rows, parents) && Late(t, a, cutoffOf))
      && (failed.None? ==> forall a :: a in t && a.outcome.Admitted? && a.key.parentRef in parents ==>
            a.watch.Some? && a.watch.value in db'.rows)
  {
    var pending := PendingOwners(t, db.rows, parents);
    forall a ensures a in pending <==> a in t && Pending(a, db.rows, parents) {
      InOrderSelects(t, (x: Admission) => Pending(x, db.rows, parents), a);
    }
    AllActivatedUnlessLate(t, db, pending, cutoffOf);
    forall a | a in t && a.outcome.Admitted? ensures a.policy.Some? && a.watch.Some? {
      var i :| 0 <= i < |t| && t[i] == a;
      assert SaneAdmission(t[i]);
    }
  }

  class AgentWatchAdmissionService {
    var admissions: seq<Admission>
    const watches: AttentionWatchService
    const cutoffOf: SnapshotId -> Time

    constructor (watches: AttentionWatchService, cutoffOf: SnapshotId -> Time)
      ensures admissions == [] && this.watches == watches && this.cutoffOf == cutoffOf
    {
      this.watches, this.cutoffOf := watches, cutoffOf;
      admissions := [];
    }

    /** `precheck` is the first of the request checks that failed, if one did. An
        activation that raises leaves the admission durable and sticky. */
    method Admit(c: Candidate, precheck: Option<nat>) returns (answer: Answer)
      modifies this`admissions, watches
      ensures var (t, decided) := AdmitIn(old(admissions), old(watches.rows), c, precheck);
        && admissions == t
        && var (db, done) := if decided.None? then (old(watches.View()), NothingToActivate)
                             else Activate(t, old(watches.View()), decided.value, CutoffIn(t, decided.value, cutoffOf));
           watches.View() == db && answer == Reply(decided, done)
      ensures SoundTable(old(admissions)) && Offered(c) ==>
        SoundTable(admissions) && (answer.ActivationRaised? ==> answer.done == Attempted(FutureBaseline))
    {
      if SoundTable(admissions) && Offered(c) { AdmittedIsStored(admissions, watches.rows, c, precheck); }
      ghost var db := watches.View();
      var decided := ForKey(admissions, c.key);
      if decided.None? {
        var (t, a) := if precheck.Some? then PersistRejection(admissions, c, precheck.value)
                      else CommitAcceptance(admissions, watches.rows, c);
        admissions, decided := t, a;
        if decided.None? { return RolledBack; }
      }
      if SoundTable(admissions) && decided.value in admissions {
        RaisesIffBaselineInFuture(admissions, db, decided.value, CutoffIn(admissions, decided.value, cutoffOf));
      }
      var done := EnsureWatchActivated(decided.value);
      answer := if Raises(done) then ActivationRaised(decided.value, done) else Answered(decided.value);
    }

    method EnsureWatchActivated(a: Admission) returns (done: Activation)
      modifies watches
      ensures (watches.View(), done) == Activate(admissions, old(watches.View()), a, CutoffIn(admissions, a, cutoffOf))
    {
      if a.outcome.Rejected? || a.watch.None? { return NothingToActivate; }
      var w := a.watch.value;
      if w in watches.rows { return AlreadyActive; }
      var owner := Earliest(admissions, (o: Admission) => Owns(o, w));
      if owner.None? { return NoOwningPolicy; }
      var p := owner.value.policy.value;
      var created := watches.Create(p, owner.value.admittedAt, cutoffOf(p.initialSnapshot));
      done := Attempted(created);
    }

    /** Recover the committed owners whose watch creation was interrupted, one by one;
        the first activation that raises ends the recovery. */
    method ReconcilePendingWatchActivations(parents: set<Id>) returns (failed: Option<Activation>)
      modifies watches
      ensures (watches.View(), failed) ==
        ActivateAll(admissions, old(watches.View()), PendingOwners(admissions, old(watches.rows), parents), cutoffOf)
    {
      var pending := PendingOwners(admissions, watches.rows, parents);
      ghost var all := ActivateAll(admissions, watches.View(), pending, cutoffOf);
      for i := 0 to |pending|
        invariant all == ActivateAll(admissions, watches.View(), pending[i..], cutoffOf)
      {
        var done := EnsureWatchActivated(pending[i]);
        if Raises(done) { return Some(done); }
      }
      failed := None;
    }
  }
}
