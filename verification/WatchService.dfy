/** The Attention Watch service as an object over its tables. Each method is one
    transaction of the program and is proved against its step on `Db`; the two
    lineage walks are proved against `Root` and never meet a cycle. The owner query
    reads the admission table of the same database, which is a parameter here. */
module WatchService {
  import opened Base
  import opened WatchStore
  import opened WatchLineage
  import opened Admission
  import opened WatchAuthority

  // ---- what the lineage walks compute --------------------------------------------------

  datatype Resolution =
    | Resolved(root: WatchId, grantIds: seq<Id>)
    | Cycle | GrantMissing | GrantDiffers | PredecessorMissing | BindingRefused

  function GrantForSuccessor(grants: seq<Grant>, w: WatchId): (i: nat)
    ensures i <= |grants|
    ensures i < |grants| ==> grants[i].successor == w
    ensures forall j :: 0 <= j < i ==> grants[j].successor != w
  {
    if grants == [] then 0
    else if grants[0].successor == w then 0
    else
      var k := GrantForSuccessor(grants[1..], w);
      assert forall j :: 1 <= j < k + 1 ==> grants[j] == grants[1..][j - 1];
      k + 1
  }

  /** Everything visited was created by a grant no earlier than one that retired `current`. */
  ghost predicate VisitedLater(grants: seq<Grant>, visited: set<WatchId>, current: WatchId) {
    forall v :: v in visited ==>
      exists i, j :: 0 <= i <= j < |grants| && grants[i].original == current && grants[j].successor == v
  }

  /** So a walk towards the root never meets a watch twice. */
  lemma {:induction false} NeverVisitedTwice(grants: seq<Grant>, visited: set<WatchId>, current: WatchId)
    requires Ordered(grants) && VisitedLater(grants, visited, current)
    ensures current !in visited
  {
  }

  lemma {:induction false} VisitedStaysLater(grants: seq<Grant>, visited: set<WatchId>, current: WatchId, i: nat)
    requires Ordered(grants) && VisitedLater(grants, visited, current)
    requires i < |grants| && grants[i].successor == current
    ensures VisitedLater(grants, visited + {current}, grants[i].original)
  {
    forall v | v in visited + {current}
      ensures exists h, j :: 0 <= h <= j < |grants| && grants[h].original == grants[i].original && grants[j].successor == v
    {
      if v in visited {
        var h, j :| 0 <= h <= j < |grants| && grants[h].original == current && grants[j].successor == v;
        assert i <= h;
        assert grants[i].original == grants[i].original && i <= j;
      } else {
        assert grants[i].successor == v;
      }
    }
  }

  /** One step of a walk towards the root. */
  lemma {:induction false} WalkOn(
      t: seq<Admission>, db: Db, visited: set<WatchId>, current: WatchId, i: nat, ids: seq<Id>)
    requires Ordered(db.grants) && VisitedLater(db.grants, visited, current)
    requires i < |db.grants| && db.grants[i].successor == current
    ensures var g := db.grants[i];
      && Root(db.grants, current) == Root(db.grants, g.original)
      && ids + GrantIds(Ancestry(db.grants, current)) == ids + [g.grantId] + GrantIds(Ancestry(db.grants, g.original))
      && (LineageConfirmed(t, db, current) <==> Confirmed(t, db, g) && LineageConfirmed(t, db, g.original))
      && VisitedLater(db.grants, visited + {current}, g.original)
  {
    var g := db.grants[i];
    var before := Ancestry(db.grants, g.original);
    OneStepBack(db.grants, i);
    IdsOfNext(g, before);
    ConcatMoves(ids, g.grantId, GrantIds(before));
    VisitedStaysLater(db.grants, visited, current, i);
    assert forall h :: h in [g] + before <==> h == g || h in before;
  }

  /** What the walk along the policies checks at each grant. */
  predicate GrantMatches(rows: map<WatchId, Row>, w: WatchId, g: Grant) {
    && w in rows && rows[w].policy.lineage == Some(Lineage(g.original, g.grantId))
    && rows[w].policy.collection == g.collection && rows[w].policy.scope == Some(g.scope)
    && g.original in rows && rows[g.original].policy == g.originalPolicy
  }

  lemma {:induction false} LineageIsWhole(db: Db, w: WatchId)
    requires Bound(db.grants, db.rows) && LineageKnown(db.grants, db.rows)
    requires w in db.rows && db.rows[w].policy.lineage.Some?
    ensures var i := GrantForSuccessor(db.grants, w); i < |db.grants| && GrantMatches(db.rows, w, db.grants[i])
  {
    assert IsSuccessor(db.grants, w);
    var i := GrantForSuccessor(db.grants, w);
    assert BindingHolds(db.grants[i], db.rows[db.grants[i].original], db.rows[w].policy);
  }

  class AttentionWatchService {
    var rows: map<WatchId, Row>
    var seen: map<WatchId, set<Version>>
    var outbox: seq<OutboxRow>
    var grants: seq<Grant>
    ghost var polls: seq<AppliedPoll>
    const leaseTimeout: nat

    ghost function View(): Db
      reads this
    {
      Db(rows, seen, outbox, grants, polls)
    }

    constructor (leaseTimeout: nat)
      ensures View() == EMPTY && this.leaseTimeout == leaseTimeout
    {
      rows, seen, outbox, grants, polls := map[], map[], [], [], [];
      this.leaseTimeout := leaseTimeout;
    }

    method Create(p: Policy, createdAt: Time, cutoff: Time) returns (outcome: CreateOutcome)
      modifies this
      ensures (View(), outcome) == CreateWatch(old(View()), p, createdAt, cutoff)
    {
      if createdAt >= p.expiresAt { return AlreadyExpired; }
      if p.lineage.Some? {
        var i := GrantForSuccessor(grants, p.watchId);
        if i == |grants| { return SuccessorWithoutGrant; }
        assert grants[i].successor == p.watchId;
      }
      if cutoff > createdAt { return FutureBaseline; }
      if p.watchId in rows {
        if rows[p.watchId].policy != p { return ConflictingContent; }
        return AlreadyPresent;
      }
      rows := rows[p.watchId := FreshRow(p, createdAt, p.startsAt)];
      seen := seen[p.watchId := p.baseline];
      outcome := Created;
    }

    method Claim(w: WatchId, now: Time, token: Token) returns (outcome: ClaimOutcome)
      modifies this`rows
      ensures (View(), outcome) == ClaimDue(old(View()), w, now, token, leaseTimeout)
    {
      if w !in rows { return UnknownWatch; }
      var r := rows[w];
      if Terminal(r.status) { return AlreadyTerminal(r.status); }
      if now >= r.policy.expiresAt {
        rows := rows[w := Retire(r, Expired, now, None)];
        return ExpiredNow;
      }
      if r.polls >= r.policy.maxPolls || r.bytes >= r.policy.maxBytes || r.wakes >= r.policy.maxWakes {
        rows := rows[w := Retire(r, Expired, now, Some(BudgetExhausted))];
        return NoBudget;
      }
      if r.token.Some? {
        if r.leaseExpiresAt.None? { return LeaseExpiryMissing; }
        if now < r.leaseExpiresAt.value { return InProgress; }
      } else if r.leaseExpiresAt.Some? {
        return LeaseTokenMissing;
      }
      if now < r.nextDueAt { return NotDue; }
      rows := rows[w := r.(token := Some(token), leaseExpiresAt := Some(now + leaseTimeout), updatedAt := now)];
      outcome := Claimed(r);
    }

    /** One fenced UPDATE; the result is whether a row matched. */
    method Record(w: WatchId, token: Token, status: Status, at: Time, bytes: nat, lastSnapshot: SnapshotId,
                  error: Option<ErrorKind>, delay: nat)
      returns (recorded: bool)
      modifies this`rows, this`polls
      ensures View() == ApplyEffect(old(View()), w, token, lastSnapshot, 0, RecordPoll(status, at, bytes, error, delay)).0
      ensures recorded == HoldsLease(old(View()), w, token)
    {
      if w !in rows || rows[w].token != Some(token) { return false; }
      var r := rows[w];
      rows := rows[w := r.(status := status, updatedAt := at, nextDueAt := at + delay, polls := r.polls + 1,
                           bytes := r.bytes + bytes, lastSnapshot := lastSnapshot, lastError := error,
                           token := None, leaseExpiresAt := None)];
      polls := polls + [AppliedPoll(w, bytes, None, None)];
      recorded := true;
    }

    method Commit(w: WatchId, token: Token, status: Status, at: Time, bytes: nat, frozen: Frozen, wake: Option<Wake>,
                  delay: nat, cooldown: nat)
      returns (committed: bool, enqueued: bool)
      modifies this`rows, this`seen, this`outbox, this`polls
      ensures var (db', outcome) := ApplyEffect(old(View()), w, token, frozen.snapshot, cooldown,
                                                CommitSuccess(status, at, bytes, frozen, wake, delay));
        View() == db' && committed == !outcome.Stale? && enqueued == outcome.Enqueued?
    {
      if w !in rows || rows[w].token != Some(token) { return false, false; }
      var r := rows[w];
      seen := seen[w := (if w in seen then seen[w] else {}) + frozen.versions];
      enqueued := false;
      if wake.Some? {
        var taken := FindTrigger(wake.value);
        if !taken {
          outbox := outbox + [OutboxRow(wake.value, None)];
          enqueued := true;
        }
      }
      rows := rows[w := r.(status := status, updatedAt := at, nextDueAt := at + delay, polls := r.polls + 1,
                           bytes := r.bytes + bytes, wakes := r.wakes + (if enqueued then 1 else 0),
                           lastSnapshot := frozen.snapshot,
                           wakeAllowedAt := if wake.Some? then at + cooldown else r.wakeAllowedAt,
                           lastError := None, token := None, leaseExpiresAt := None)];
      polls := polls + [AppliedPoll(w, bytes, Some(frozen.snapshot), if enqueued then wake else None)];
      committed := true;
    }

    method FindTrigger(wake: Wake) returns (taken: bool)
      ensures taken == TriggerKeyTaken(outbox, wake)
    {
      for i := 0 to |outbox|
        invariant forall j :: 0 <= j < i ==>
          !(outbox[j].wake.watchId == wake.watchId && outbox[j].wake.versions == wake.versions)
      {
        if outbox[i].wake.watchId == wake.watchId && outbox[i].wake.versions == wake.versions { return true; }
      }
      taken := false;
    }

    /** Everything a worker does after its claim: the branches in the order the
        program takes them, each ending in one fenced write. */
    method Finish(w: WatchId, token: Token, state: Row, readSeen: set<Version>, now: Time, resp: Response)
      returns (outcome: CommitOutcome)
      requires state.policy.watchId == w
      modifies this
      ensures (View(), outcome) == FinishPoll(old(View()), w, token, state, readSeen, now, resp)
    {
      var p := state.policy;
      var ok: bool;
      if resp.CollectorRaised? {
        ok := Record(w, token, BackingOff, now, 0, state.lastSnapshot, Some(CollectorFailure), p.pollInterval * 2);
        return if ok then Recorded else Stale;
      }
      var at := Max(now, resp.completedAt);
      if at >= p.expiresAt {
        ok := Record(w, token, Expired, at, resp.bytes, state.lastSnapshot, Some(ExpiredDuringCollection), 0);
        return if ok then Recorded else Stale;
      }
      if resp.asOf > resp.completedAt {
        ok := Record(w, token, BackingOff, at, resp.bytes, state.lastSnapshot, Some(FutureCutoff), p.pollInterval * 2);
        return if ok then Recorded else Stale;
      }
      if state.bytes + resp.bytes > p.maxBytes {
        ok := Record(w, token, Expired, at, resp.bytes, state.lastSnapshot, Some(ByteBudgetExhausted), 0);
        return if ok then Recorded else Stale;
      }
      if !resp.complete {
        ok := Record(w, token, BackingOff, at, resp.bytes, state.lastSnapshot, Some(SourceIncomplete), p.pollInterval * 2);
        return if ok then Recorded else Stale;
      }
      if !resp.frozen.complete {
        ok := Record(w, token, BackingOff, at, resp.bytes, state.lastSnapshot, Some(SnapshotIncomplete), p.pollInterval * 2);
        return if ok then Recorded else Stale;
      }
      var unseen := resp.frozen.versions - readSeen;
      var enqueued: bool;
      if unseen == {} {
        ok, enqueued := Commit(w, token, Active, at, resp.bytes, resp.frozen, None, p.pollInterval, p.cooldown);
        return if ok then NoChange else Stale;
      }
      var wake := Wake(w, resp.frozen.snapshot, state.lastSnapshot, unseen, at);
      if at < state.wakeAllowedAt {
        ok := Record(w, token, Triggered, at, resp.bytes, state.lastSnapshot, None, p.pollInterval);
        return if ok then Recorded else Stale;
      }
      ok, enqueued := Commit(w, token, Triggered, at, resp.bytes, resp.frozen, Some(wake), p.pollInterval, p.cooldown);
      return if !ok then Stale else if enqueued then Enqueued else Deduplicated;
    }

    method Cancel(w: WatchId, at: Time) returns (outcome: CancelOutcome)
      modifies this`rows
      ensures (View(), outcome) == CancelWatch(old(View()), w, at)
    {
      if w !in rows { return CancelUnknown; }
      if Terminal(rows[w].status) { return CancelNoop; }
      if at < rows[w].updatedAt { return CancelTooEarly; }
      rows := rows[w := Retire(rows[w], Cancelled, at, None)];
      outcome := CancelDone;
    }

    /** The UPDATE of `mark_wake_delivered`, whatever happened since its read. */
    method Stamp(wake: Wake, at: Time)
      modifies this`outbox
      ensures View() == StampDelivered(old(View()), wake, at)
    {
      var i := WakeIndex(outbox, wake);
      if i < |outbox| { outbox := outbox[i := outbox[i].(deliveredAt := Some(at))]; }
    }

    /** The read and the UPDATE with nothing in between. */
    method MarkWakeDelivered(wake: Wake, at: Time) returns (outcome: DeliverOutcome)
      modifies this`outbox
      ensures outcome == ReadDelivery(old(outbox), wake, at)
      ensures View() == if outcome.StillPending? then StampDelivered(old(View()), wake, at) else old(View())
    {
      var i := WakeIndex(outbox, wake);
      if i == |outbox| { return DeliverUnknown; }
      if at < wake.createdAt { return DeliverTooEarly; }
      if outbox[i].deliveredAt.Some? { return AlreadyDelivered; }
      Stamp(wake, at);
      outcome := StillPending;
    }

    /** `owner` is what the owner lookup finds, wherever the transaction reaches it. */
    method Rebaseline(req: RebaselineRequest, admissions: seq<Admission>)
      returns (outcome: RebaselineOutcome, ghost owner: Option<Owner>)
      modifies this`rows, this`seen, this`grants
      ensures (View(), outcome) == RebaselineWatch(old(View()), req, owner)
      ensures old(Linked(View())) ==> owner == old(OwnerFor(admissions, View(), req.original))
    {
      var w := req.original;
      owner := OwnerFor(admissions, View(), w);
      if w !in rows { return OriginalUnknown, owner; }
      var r := rows[w];
      if r.policy.scope.None? { return Unscoped, owner; }
      if req.cutoff > req.authorizedAt { return FutureReplacement, owner; }
      var existing := GrantOf(grants, w);
      if existing.Some? {
        var g := existing.value;
        if g.reason != req.reason || g.snapshot != req.snapshot || g.authorizedAt != req.authorizedAt {
          return AnotherGrant, owner;
        }
        var ok: bool;
        ok, owner := AssertRebaselineBinding(g, admissions);
        return if ok then Replayed(g) else BindingDiffers, owner;
      }
      if r.status != BackingOff || r.lastError != Some(SnapshotIncomplete) { return NotFailClosed, owner; }
      if req.authorizedAt < r.updatedAt { return PredatesState, owner; }
      if req.authorizedAt >= r.policy.expiresAt { return AfterExpiry, owner; }
      if OutOfBudget(r) { return NoAllowance, owner; }
      var found := TriageOwnerBinding(w, admissions);
      owner := found;
      if found.None? || found.value.parentRef != r.policy.origin { return NoOwner, owner; }
      if req.successor in rows || GrantIdTaken(grants, req.grantId) { return IdentityTaken, owner; }
      var g := Grant(req.grantId, w, r.policy, found.value, r.policy.scope.value, r.policy.collection,
                     req.reason, req.snapshot, req.authorizedAt, req.successor);
      rows := rows[w := r.(status := Rebaselined, updatedAt := req.authorizedAt, nextDueAt := req.authorizedAt,
                           token := None, leaseExpiresAt := None)];
      rows := rows[req.successor :=
                     FreshRow(SuccessorPolicy(r, req), req.authorizedAt, Max(req.authorizedAt, r.wakeAllowedAt))];
      seen := seen[req.successor := req.versions];
      grants := grants + [g];
      outcome := Granted(g);
    }

    /** From a successor back to the watch that was admitted, re-checking and collecting
        its grants. */
    method CallbackAuthorityLineage(w: WatchId, admissions: seq<Admission>) returns (res: Resolution)
      ensures Linked(View()) ==>
        res == if LineageConfirmed(admissions, View(), w)
               then Resolved(Root(grants, w), GrantIds(Ancestry(grants, w))) else BindingRefused
      ensures res.Resolved? ==> !IsSuccessor(grants, res.root)
    {
      var current, grantIds, visited := w, [], {};
      ghost var linked := Linked(View());
      while true
        invariant linked ==> Root(grants, current) == Root(grants, w)
        invariant linked ==> grantIds + GrantIds(Ancestry(grants, current)) == GrantIds(Ancestry(grants, w))
        invariant linked ==>
          (LineageConfirmed(admissions, View(), current) <==> LineageConfirmed(admissions, View(), w))
        invariant linked ==> VisitedLater(grants, visited, current)
        decreases (set g | g in grants :: g.successor) - visited
      {
        if linked { NeverVisitedTwice(grants, visited, current); }
        if current in visited { return Cycle; }
        var i := GrantForSuccessor(grants, current);
        if i == |grants| {
          assert !IsSuccessor(grants, current);
          AtTheRoot(grants, current);
          return Resolved(current, grantIds);
        }
        var g := grants[i];
        assert g in grants;
        if linked { WalkOn(admissions, View(), visited, current, i, grantIds); }
        var ok, _ := AssertRebaselineBinding(g, admissions);
        if !ok { return BindingRefused; }
        visited := visited + {current};
        grantIds := grantIds + [g.grantId];
        current := g.original;
      }
    }

    /** The re-check of one grant: its rows, and the owner of its lineage as it is now. */
    method AssertRebaselineBinding(g: Grant, admissions: seq<Admission>) returns (ok: bool, ghost owner: Option<Owner>)
      ensures ok <==>
        && g.original in rows && g.successor in rows
        && Rebinds(g, rows[g.original], rows[g.successor].policy) && owner == Some(g.owner)
      ensures Linked(View()) ==> owner == OwnerFor(admissions, View(), g.original)
      ensures Linked(View()) ==> ok == Confirmed(admissions, View(), g)
    {
      owner := OwnerFor(admissions, View(), g.original);
      if g.original !in rows || g.successor !in rows { return false, owner; }
      var found := TriageOwnerBinding(g.original, admissions);
      owner := found;
      ok := found == Some(g.owner) && Rebinds(g, rows[g.original], rows[g.successor].policy);
    }

    /** Along the policies to the root, then the query for its one owner row. */
    method TriageOwnerBinding(w: WatchId, admissions: seq<Admission>) returns (owner: Option<Owner>)
      requires w in rows
      ensures Linked(View()) ==> owner == OwnerFor(admissions, View(), w)
    {
      var res := OwningRoot(w);
      if !res.Resolved? { return None; }
      owner := OwnerOf(admissions, res.root, rows[res.root].policy);
    }

    /** One step of the owner walk: the grant that created the watch, if it is as recorded. */
    method FollowGrant(w: WatchId) returns (failure: Option<Resolution>, i: nat)
      requires w in rows && rows[w].policy.lineage.Some?
      ensures failure.None? ==> i < |grants| && grants[i].successor == w && grants[i].original in rows
      ensures failure.Some? ==> !failure.value.Resolved?
      ensures Bound(grants, rows) && LineageKnown(grants, rows) ==> failure.None?
    {
      if Bound(grants, rows) && LineageKnown(grants, rows) { LineageIsWhole(View(), w); }
      i := GrantForSuccessor(grants, w);
      if i == |grants| { return Some(GrantMissing), i; }
      var g, lineage := grants[i], rows[w].policy.lineage.value;
      if lineage.grantId != g.grantId || lineage.predecessor != g.original
         || rows[w].policy.collection != g.collection || rows[w].policy.scope != Some(g.scope) {
        return Some(GrantDiffers), i;
      }
      if g.original !in rows { return Some(PredecessorMissing), i; }
      if rows[g.original].policy != g.originalPolicy { return Some(GrantDiffers), i; }
      failure := None;
    }

    /** The same walk as the rebaseline owner lookup does it, along the policies. */
    method OwningRoot(w: WatchId) returns (res: Resolution)
      requires w in rows
      ensures Linked(View()) ==> res == Resolved(Root(grants, w), GrantIds(Ancestry(grants, w)))
      ensures res.Resolved? ==> res.root in rows
    {
      var current, grantIds, visited := w, [], {};
      ghost var whole := Ordered(grants) && Bound(grants, rows) && LineageKnown(grants, rows);
      while rows[current].policy.lineage.Some?
        invariant current in rows
        invariant whole ==> Root(grants, current) == Root(grants, w)
        invariant whole ==> grantIds + GrantIds(Ancestry(grants, current)) == GrantIds(Ancestry(grants, w))
        invariant whole ==> VisitedLater(grants, visited, current)
        decreases (set g | g in grants :: g.successor) - visited
      {
        if whole { NeverVisitedTwice(grants, visited, current); }
        if current in visited { return Cycle; }
        var failure, i := FollowGrant(current);
        if failure.Some? { return failure.value; }
        assert grants[i] in grants;
        if whole {
          WalkOn([], View(), visited, current, i, grantIds);
        }
        visited := visited + {current};
        grantIds := grantIds + [grants[i].grantId];
        current := grants[i].original;
      }
      if whole {
        RootIsNotASuccessor(View(), current);
        AtTheRoot(grants, current);
      }
      res := Resolved(current, grantIds);
    }
  }

  lemma {:induction false} RootIsNotASuccessor(db: Db, w: WatchId)
    requires Bound(db.grants, db.rows) && w in db.rows && db.rows[w].policy.lineage.None?
    ensures !IsSuccessor(db.grants, w)
  {
    forall i | 0 <= i < |db.grants| ensures db.grants[i].successor != w {
      assert BindingHolds(db.grants[i], db.rows[db.grants[i].original], db.rows[db.grants[i].successor].policy);
    }
  }
}
