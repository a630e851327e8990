/** What one step does to a watch, column by column, and why a watch is retired: an
    account of the branches that a poll, a cancel and a rebaseline take. */
module WatchOutcomes {
  import opened Base
  import opened WatchStore
  import opened WatchRuns
  import opened WatchAccounting

  /** When the response was in. */
  function OverAt(now: Time, resp: Response): Time {
    if resp.CollectorRaised? then now else Max(now, resp.completedAt)
  }

  function BytesIn(resp: Response): nat {
    if resp.CollectorRaised? then 0 else resp.bytes
  }

  predicate TooLate(r: Row, now: Time, resp: Response) {
    resp.Collected? && r.policy.expiresAt <= OverAt(now, resp)
  }

  predicate TooLarge(r: Row, resp: Response) {
    resp.Collected? && resp.asOf <= resp.completedAt && r.policy.maxBytes < r.bytes + resp.bytes
  }

  /** A response that may change the seen set. */
  predicate Usable(r: Row, now: Time, resp: Response) {
    && resp.Collected? && OverAt(now, resp) < r.policy.expiresAt
    && resp.asOf <= resp.completedAt && r.bytes + resp.bytes <= r.policy.maxBytes
    && resp.complete && resp.frozen.complete
  }

  function NewVersions(db: Db, w: WatchId, resp: Response): set<Version> {
    if resp.Collected? then resp.frozen.versions - SeenOf(db, w) else {}
  }

  /** Whether the poll wakes its watch: something new, and the cooldown over. */
  predicate Wakens(db: Db, w: WatchId, r: Row, now: Time, resp: Response) {
    Usable(r, now, resp) && NewVersions(db, w, resp) != {} && r.wakeAllowedAt <= OverAt(now, resp)
  }

  predicate Suppressed(db: Db, w: WatchId, r: Row, now: Time, resp: Response) {
    Usable(r, now, resp) && NewVersions(db, w, resp) != {} && OverAt(now, resp) < r.wakeAllowedAt
  }

  // ---- a poll that holds its lease --------------------------------------------------------

  /** Counters, times and lease. */
  lemma {:induction false} PollCounts(db: Db, w: WatchId, now: Time, resp: Response)
    requires w in db.rows && db.rows[w].token.Some?
    ensures var r, db' := db.rows[w], AtomicPoll(db, w, now, resp).0;
      && w in db'.rows && db'.rows[w].policy == r.policy && db'.rows[w].createdAt == r.createdAt
      && db'.rows[w].polls == r.polls + 1 && db'.rows[w].bytes == r.bytes + BytesIn(resp)
      && db'.rows[w].updatedAt == OverAt(now, resp)
      && db'.rows[w].token.None? && db'.rows[w].leaseExpiresAt.None?
  {
  }

  /** The state a poll leaves, and the kind of failure it records. */
  lemma {:induction false} PollStatus(db: Db, w: WatchId, now: Time, resp: Response)
    requires w in db.rows && db.rows[w].token.Some?
    ensures var r, db' := db.rows[w], AtomicPoll(db, w, now, resp).0;
      && w in db'.rows
      && (db'.rows[w].status == Expired <==> TooLate(r, now, resp) || TooLarge(r, resp))
      && (db'.rows[w].status == Active <==> Usable(r, now, resp) && NewVersions(db, w, resp) == {})
      && (db'.rows[w].status == Triggered <==> Usable(r, now, resp) && NewVersions(db, w, resp) != {})
      && db'.rows[w].status in {Expired, Active, Triggered, BackingOff}
      && (db'.rows[w].lastError == Some(CollectorFailure) <==> resp.CollectorRaised?)
      && (db'.rows[w].lastError == Some(ExpiredDuringCollection) <==> TooLate(r, now, resp))
      && (db'.rows[w].lastError == Some(FutureCutoff) <==>
            resp.Collected? && !TooLate(r, now, resp) && resp.completedAt < resp.asOf)
      && (db'.rows[w].lastError == Some(ByteBudgetExhausted) <==> !TooLate(r, now, resp) && TooLarge(r, resp))
      && (db'.rows[w].lastError == Some(SnapshotIncomplete) <==>
            resp.Collected? && resp.complete && !resp.frozen.complete && Usable(r, now, resp.(frozen := resp.frozen.(complete := true))))
      && (db'.rows[w].lastError == None <==> Usable(r, now, resp))
  {
  }

  /** The seen set grows by the whole snapshot, or not at all: what the cooldown
      suppresses stays unseen and can wake the watch later. */
  lemma {:induction false} PollSees(db: Db, w: WatchId, now: Time, resp: Response)
    requires w in db.rows && db.rows[w].token.Some?
    ensures var r, db' := db.rows[w], AtomicPoll(db, w, now, resp).0;
      && w in db'.rows
      && SeenOf(db', w) == SeenOf(db, w) +
           (if Usable(r, now, resp) && !Suppressed(db, w, r, now, resp) then resp.frozen.versions else {})
      && db'.rows[w].lastSnapshot ==
           (if Usable(r, now, resp) && !Suppressed(db, w, r, now, resp) then resp.frozen.snapshot else r.lastSnapshot)
  {
  }

  function WakeFrom(db: Db, w: WatchId, now: Time, resp: Response): seq<OutboxRow>
    requires w in db.rows
  {
    if Wakens(db, w, db.rows[w], now, resp)
    then [OutboxRow(Wake(w, resp.frozen.snapshot, db.rows[w].lastSnapshot, NewVersions(db, w, resp), OverAt(now, resp)), None)]
    else []
  }

  lemma {:induction false} WakesUnlessTaken(db: Db, w: WatchId, now: Time, resp: Response)
    requires w in db.rows && db.rows[w].token.Some? && db.rows[w].policy.watchId == w
    requires !AtomicPoll(db, w, now, resp).1.Deduplicated?
    ensures var r, db' := db.rows[w], AtomicPoll(db, w, now, resp).0;
      && w in db'.rows
      && db'.outbox == db.outbox + WakeFrom(db, w, now, resp)
      && db'.rows[w].wakes == r.wakes + |WakeFrom(db, w, now, resp)|
      && db'.rows[w].wakeAllowedAt ==
           (if Wakens(db, w, r, now, resp) then OverAt(now, resp) + r.policy.cooldown else r.wakeAllowedAt)
  {
  }

  /** A wake is enqueued exactly when a usable response brings unseen versions after the
      cooldown; it carries those versions and starts the next cooldown. */
  lemma {:induction false} PollWakes(db: Db, w: WatchId, now: Time, resp: Response)
    requires Exact(db) && w in db.rows && db.rows[w].token.Some?
    ensures var r, db' := db.rows[w], AtomicPoll(db, w, now, resp).0;
      && w in db'.rows
      && db'.outbox == db.outbox + WakeFrom(db, w, now, resp)
      && db'.rows[w].wakes == r.wakes + |WakeFrom(db, w, now, resp)|
      && db'.rows[w].wakeAllowedAt ==
           (if Wakens(db, w, r, now, resp) then OverAt(now, resp) + r.policy.cooldown else r.wakeAllowedAt)
  {
    PollStaysExact(db, w, now, resp);
    assert SaneRow(w, db.rows[w]);
    WakesUnlessTaken(db, w, now, resp);
  }

  // ---- why a watch is retired --------------------------------------------------------------

  predicate ExpiresWatch(r: Row, op: Op) {
    || (op.Claim? && (r.policy.expiresAt <= op.now || r.policy.maxPolls <= r.polls
                      || r.policy.maxBytes <= r.bytes || r.policy.maxWakes <= r.wakes))
    || (op.Poll? && r.token.Some? && (TooLate(r, op.now, op.resp) || TooLarge(r, op.resp)))
  }

  /** A scoped watch stopped at an incomplete snapshot with allowance left. */
  predicate FailedClosed(r: Row) {
    && r.policy.scope.Some? && r.status == BackingOff && r.lastError == Some(SnapshotIncomplete)
    && r.polls < r.policy.maxPolls && r.bytes < r.policy.maxBytes && r.wakes < r.policy.maxWakes
  }

  /** What a rebaseline takes. */
  predicate MayRebaseline(db: Db, req: RebaselineRequest, owner: Option<Owner>) {
    && req.original in db.rows && FailedClosed(db.rows[req.original])
    && req.cutoff <= req.authorizedAt
    && db.rows[req.original].updatedAt <= req.authorizedAt < db.rows[req.original].policy.expiresAt
    && owner.Some? && owner.value.parentRef == db.rows[req.original].policy.origin
    && !IsOriginal(db.grants, req.original)
    && req.successor !in db.rows && !GrantIdTaken(db.grants, req.grantId)
  }

  lemma {:induction false} RebaselinedIff(db: Db, req: RebaselineRequest, owner: Option<Owner>)
    ensures RebaselineWatch(db, req, owner).1.Granted? <==> MayRebaseline(db, req, owner)
  {
    if IsOriginal(db.grants, req.original) {
      var i :| 0 <= i < |db.grants| && db.grants[i].original == req.original;
      HasItsGrant(db.grants, i);
    }
  }

  lemma {:induction false} HasItsGrant(grants: seq<Grant>, i: nat)
    requires i < |grants|
    ensures GrantOf(grants, grants[i].original).Some?
  {
    if grants[|grants| - 1].original != grants[i].original {
      HasItsGrant(grants[..|grants| - 1], i);
    }
  }

  /** A live watch is retired by one step in three ways: expired by a claim at its expiry
      or without budget or by a late or too large response, cancelled, or rebaselined. */
  lemma {:induction false} WhyRetired(db: Db, op: Op, w: WatchId)
    requires w in db.rows && !Terminal(db.rows[w].status)
    ensures var r, db' := db.rows[w], Apply(db, op);
      && w in db'.rows
      && (db'.rows[w].status == Expired <==> (op.Claim? || op.Poll?) && op.w == w && ExpiresWatch(r, op))
      && (db'.rows[w].status == Cancelled <==> op.Cancel? && op.w == w && r.updatedAt <= op.at)
      && (db'.rows[w].status == Rebaselined <==>
            op.Rebaseline? && op.req.original == w && MayRebaseline(db, op.req, op.owner))
  {
    match op
    case Poll(v, now, resp) => if v == w && db.rows[w].token.Some? { PollStatus(db, w, now, resp); }
    case Rebaseline(req, owner) => RebaselinedIff(db, req, owner);
    case _ =>
  }

  /** A watch comes into being by a creation from its policy, not expired, of a baseline
      that has ended, and never as a successor; or as the successor of a rebaseline. */
  lemma {:induction false} WhyCreated(db: Db, op: Op, w: WatchId)
    requires w !in db.rows && (forall i :: 0 <= i < |db.grants| ==> db.grants[i].successor in db.rows)
    ensures w in Apply(db, op).rows <==>
      || (op.Create? && op.policy.watchId == w && op.createdAt < op.policy.expiresAt && op.cutoff <= op.createdAt
          && op.policy.lineage.None?)
      || (op.Rebaseline? && op.req.successor == w && MayRebaseline(db, op.req, op.owner))
    ensures w in Apply(db, op).rows ==>
      && Apply(db, op).rows[w].status == Active && Apply(db, op).rows[w].polls == 0
      && Apply(db, op).rows[w].bytes == 0 && Apply(db, op).rows[w].wakes == 0 && Apply(db, op).rows[w].token.None?
      && SeenOf(Apply(db, op), w) == Apply(db, op).rows[w].policy.baseline
      && Apply(db, op).rows[w].nextDueAt == Apply(db, op).rows[w].policy.startsAt
  {
    match op
    case Rebaseline(req, owner) => RebaselinedIff(db, req, owner);
    case _ =>
  }

  lemma {:induction false} OpKeepsPolicies(db: Db, op: Op, w: WatchId)
    requires w in db.rows
    ensures w in Apply(db, op).rows && Apply(db, op).rows[w].policy == db.rows[w].policy
  {
  }

  lemma {:induction false} RunKeepsPolicies(s: Sys, actions: seq<Action>, w: WatchId)
    requires w in s.db.rows
    ensures var db := Run(s, actions).db; w in db.rows && db.rows[w].policy == s.db.rows[w].policy
    decreases |actions|
  {
    if actions != [] {
      var a := actions[0];
      if a.External? { OpKeepsPolicies(s.db, a.op, w); }
      if a.Start? { OpKeepsPolicies(s.db, Claim(a.w, a.now, a.token, a.timeout), w); }
      RunKeepsPolicies(Next(s, a), actions[1..], w);
    }
  }

  /** Whatever has run since a watch was created: creating it again changes nothing, and is
      answered by whether the policy is the one it was created with. */
  lemma {:induction false} SecondCreation(s: Sys, p: Policy, at: Time, cutoff: Time, actions: seq<Action>,
                                          q: Policy, later: Time, baseline: Time)
    requires CreateWatch(s.db, p, at, cutoff).1 == Created
    requires q.watchId == p.watchId && q.lineage.None? && baseline <= later < q.expiresAt
    ensures var db := Run(Next(s, External(Create(p, at, cutoff))), actions).db;
      CreateWatch(db, q, later, baseline) == (db, if q == p then AlreadyPresent else ConflictingContent)
  {
    RunKeepsPolicies(Next(s, External(Create(p, at, cutoff))), actions, p.watchId);
  }

  // ---- marking a wake ---------------------------------------------------------------------

  lemma {:induction false} WakesDiffer(ws: seq<Wake>, rows: map<WatchId, Row>, i: nat, j: nat)
    requires WakesExact(rows, ws) && i < j < |ws|
    ensures ws[i] != ws[j]
  {
    assert SaneWake(ws[j], rows);
  }

  lemma {:induction false} ListedOnce(db: Db, i: nat, wake: Wake)
    requires Exact(db) && i < |db.outbox| && db.outbox[i].wake == wake
    ensures WakeIndex(db.outbox, wake) == i
  {
    var k := WakeIndex(db.outbox, wake);
    if k < i { WakesDiffer(Wakes(db.outbox), db.rows, k, i); }
  }

  /** How marking the wake of a row is answered, and that it marks that row alone. */
  lemma {:induction false} MarkedIff(db: Db, i: nat, at: Time)
    requires Exact(db) && i < |db.outbox|
    ensures var row := db.outbox[i]; var answer := ReadDelivery(db.outbox, row.wake, at);
      && (answer == StillPending <==> row.wake.createdAt <= at && row.deliveredAt.None?)
      && (answer == AlreadyDelivered <==> row.wake.createdAt <= at && row.deliveredAt.Some?)
      && (answer == DeliverTooEarly <==> at < row.wake.createdAt)
      && (row.wake.createdAt <= at ==>
            Apply(db, Deliver(row.wake, at)) == db.(outbox := db.outbox[i := row.(deliveredAt := Some(at))]))
      && (at < row.wake.createdAt ==> Apply(db, Deliver(row.wake, at)) == db)
  {
    ListedOnce(db, i, db.outbox[i].wake);
  }
}
