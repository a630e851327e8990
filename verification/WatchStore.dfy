/** The durable tables of the Attention Watch service and the atomic steps on
    them. Every function from a `Db` to a `Db` is one transaction, or one fenced
    UPDATE; `PlanPoll` is the branching that a worker does between its claim and
    its commit. */
module WatchStore {
  import opened Base

  type WatchId = Id
  type SnapshotId = Id
  type Version = Id
  type Token = nat

  datatype Scope = Scope(scopeId: Id, planId: Id)

  /** A v1 policy has neither scope nor lineage, a v2 policy has a scope, and a
      v3 policy (a rebaselined successor) has both. */
  datatype Lineage = Lineage(predecessor: WatchId, grantId: Id)

  /** `baseline` is the set of versions matched in the initial snapshot and
      `pollInterval` belongs to the collection policy: both are fixed by the
      identifiers the policy carries. */
  datatype Policy = Policy(
    watchId: WatchId, origin: Id, collection: Id, scope: Option<Scope>, lineage: Option<Lineage>,
    startsAt: Time, expiresAt: Time, maxPolls: nat, maxBytes: nat, maxWakes: nat, cooldown: nat,
    pollInterval: nat, initialSnapshot: SnapshotId, baseline: set<Version>)

  datatype Status = Active | BackingOff | Triggered | Expired | Cancelled | Rebaselined

  predicate Terminal(s: Status) {
    s.Expired? || s.Cancelled? || s.Rebaselined?
  }

  datatype ErrorKind =
    | CollectorFailure | ExpiredDuringCollection | FutureCutoff | ByteBudgetExhausted
    | SourceIncomplete | SnapshotIncomplete | BudgetExhausted

  datatype Row = Row(
    policy: Policy, status: Status, createdAt: Time, updatedAt: Time, nextDueAt: Time,
    wakeAllowedAt: Time, polls: nat, bytes: nat, wakes: nat, lastSnapshot: SnapshotId,
    lastError: Option<ErrorKind>, token: Option<Token>, leaseExpiresAt: Option<Time>)

  datatype Wake = Wake(
    watchId: WatchId, snapshot: SnapshotId, prior: SnapshotId, versions: set<Version>, createdAt: Time)

  datatype OutboxRow = OutboxRow(wake: Wake, deliveredAt: Option<Time>)

  datatype Owner = Owner(parentRef: Id, authorityHash: Id)

  datatype Grant = Grant(
    grantId: Id, original: WatchId, originalPolicy: Policy, owner: Owner, scope: Scope,
    collection: Id, reason: Id, snapshot: SnapshotId, authorizedAt: Time, successor: WatchId)

  /** One applied poll, in commit order. The code keeps no such table: it is the
      history against which the counters of a row are checked. */
  datatype AppliedPoll = AppliedPoll(watch: WatchId, bytes: nat, frozen: Option<SnapshotId>, wake: Option<Wake>)

  datatype Db = Db(
    rows: map<WatchId, Row>, seen: map<WatchId, set<Version>>, outbox: seq<OutboxRow>,
    grants: seq<Grant>, polls: seq<AppliedPoll>)

  const EMPTY := Db(map[], map[], [], [], [])

  function SeenOf(db: Db, w: WatchId): set<Version> {
    if w in db.seen then db.seen[w] else {}
  }

  // ---- create ----------------------------------------------------------------

  datatype CreateOutcome =
    | Created | AlreadyPresent | AlreadyExpired | SuccessorWithoutGrant | FutureBaseline | ConflictingContent

  predicate IsSuccessor(grants: seq<Grant>, w: WatchId) {
    exists i :: 0 <= i < |grants| && grants[i].successor == w
  }

  predicate IsOriginal(grants: seq<Grant>, w: WatchId) {
    exists i :: 0 <= i < |grants| && grants[i].original == w
  }

  function FreshRow(p: Policy, createdAt: Time, wakeAllowedAt: Time): Row {
    Row(p, Active, createdAt, createdAt, p.startsAt, wakeAllowedAt, 0, 0, 0, p.initialSnapshot, None, None, None)
  }

  function CreateWatch(db: Db, p: Policy, createdAt: Time, cutoff: Time): (Db, CreateOutcome) {
    if createdAt >= p.expiresAt then (db, AlreadyExpired)
    else if p.lineage.Some? && !IsSuccessor(db.grants, p.watchId) then (db, SuccessorWithoutGrant)
    else if cutoff > createdAt then (db, FutureBaseline)
    else if p.watchId in db.rows then
      (db, if db.rows[p.watchId].policy == p then AlreadyPresent else ConflictingContent)
    else
      (db.(rows := db.rows[p.watchId := FreshRow(p, createdAt, p.startsAt)],
           seen := db.seen[p.watchId := p.baseline]), Created)
  }

  // ---- claim -----------------------------------------------------------------

  datatype ClaimOutcome =
    | UnknownWatch | AlreadyTerminal(status: Status) | ExpiredNow | NoBudget | LeaseExpiryMissing
    | InProgress | LeaseTokenMissing | NotDue | Claimed(state: Row)

  function Retire(r: Row, s: Status, at: Time, error: Option<ErrorKind>): Row {
    r.(status := s, updatedAt := at, nextDueAt := at, lastError := error, token := None, leaseExpiresAt := None)
  }

  predicate OutOfBudget(r: Row) {
    r.polls >= r.policy.maxPolls || r.bytes >= r.policy.maxBytes || r.wakes >= r.policy.maxWakes
  }

  function ClaimDue(db: Db, w: WatchId, now: Time, token: Token, timeout: nat): (Db, ClaimOutcome) {
    if w !in db.rows then (db, UnknownWatch) else
    var r := db.rows[w];
    if Terminal(r.status) then (db, AlreadyTerminal(r.status))
    else if now >= r.policy.expiresAt then
      (db.(rows := db.rows[w := Retire(r, Expired, now, None)]), ExpiredNow)
    else if OutOfBudget(r) then
      (db.(rows := db.rows[w := Retire(r, Expired, now, Some(BudgetExhausted))]), NoBudget)
    else if r.token.Some? && r.leaseExpiresAt.None? then (db, LeaseExpiryMissing)
    else if r.token.Some? && now < r.leaseExpiresAt.value then (db, InProgress)
    else if r.token.None? && r.leaseExpiresAt.Some? then (db, LeaseTokenMissing)
    else if now < r.nextDueAt then (db, NotDue)
    else
      (db.(rows := db.rows[w := r.(token := Some(token), leaseExpiresAt := Some(now + timeout), updatedAt := now)]),
       Claimed(r))
  }

  // ---- what one collected response means ---------------------------------------

  datatype Frozen = Frozen(snapshot: SnapshotId, complete: bool, versions: set<Version>)

  datatype Response =
    | CollectorRaised
    | Collected(completedAt: Time, bytes: nat, asOf: Time, complete: bool, frozen: Frozen)

  datatype Effect =
    | RecordPoll(status: Status, at: Time, bytes: nat, error: Option<ErrorKind>, delay: nat)
    | CommitSuccess(status: Status, at: Time, bytes: nat, frozen: Frozen, wake: Option<Wake>, delay: nat)

  /** `state` is the row as the worker read it at its claim and `seen` the set it
      read after its response was frozen. */
  function PlanPoll(state: Row, seen: set<Version>, now: Time, resp: Response): Effect {
    var p := state.policy;
    match resp
    case CollectorRaised => RecordPoll(BackingOff, now, 0, Some(CollectorFailure), 2 * p.pollInterval)
    case Collected(completedAt, bytes, asOf, complete, frozen) =>
      var at := Max(now, completedAt);
      if at >= p.expiresAt then RecordPoll(Expired, at, bytes, Some(ExpiredDuringCollection), 0)
      else if asOf > completedAt then RecordPoll(BackingOff, at, bytes, Some(FutureCutoff), 2 * p.pollInterval)
      else if state.bytes + bytes > p.maxBytes then RecordPoll(Expired, at, bytes, Some(ByteBudgetExhausted), 0)
      else if !complete then RecordPoll(BackingOff, at, bytes, Some(SourceIncomplete), 2 * p.pollInterval)
      else if !frozen.complete then RecordPoll(BackingOff, at, bytes, Some(SnapshotIncomplete), 2 * p.pollInterval)
      else
        var unseen := frozen.versions - seen;
        if unseen == {} then CommitSuccess(Active, at, bytes, frozen, None, p.pollInterval)
        else if at < state.wakeAllowedAt then RecordPoll(Triggered, at, bytes, None, p.pollInterval)
        else
          var wake := Wake(p.watchId, frozen.snapshot, state.lastSnapshot, unseen, at);
          CommitSuccess(Triggered, at, bytes, frozen, Some(wake), p.pollInterval)
  }

  // ---- the fenced commits --------------------------------------------------------

  /** The trigger key is a hash of the watch and the new versions. */
  predicate TriggerKeyTaken(outbox: seq<OutboxRow>, wake: Wake) {
    exists i :: 0 <= i < |outbox| && outbox[i].wake.watchId == wake.watchId && outbox[i].wake.versions == wake.versions
  }

  /** Whether the row still carries the worker's token. */
  predicate HoldsLease(db: Db, w: WatchId, token: Token) {
    w in db.rows && db.rows[w].token == Some(token)
  }

  datatype CommitOutcome = Stale | Recorded | NoChange | Enqueued | Deduplicated

  function ApplyEffect(db: Db, w: WatchId, token: Token, lastSnapshot: SnapshotId, cooldown: nat, e: Effect)
    : (Db, CommitOutcome)
  {
    if !HoldsLease(db, w, token) then (db, Stale) else
    var r := db.rows[w];
    match e
    case RecordPoll(status, at, bytes, error, delay) =>
      var r' := r.(status := status, updatedAt := at, nextDueAt := at + delay, polls := r.polls + 1,
                   bytes := r.bytes + bytes, lastSnapshot := lastSnapshot, lastError := error,
                   token := None, leaseExpiresAt := None);
      (db.(rows := db.rows[w := r'], polls := db.polls + [AppliedPoll(w, bytes, None, None)]), Recorded)
    case CommitSuccess(status, at, bytes, frozen, wake, delay) =>
      var enqueued := wake.Some? && !TriggerKeyTaken(db.outbox, wake.value);
      var r' := r.(status := status, updatedAt := at, nextDueAt := at + delay, polls := r.polls + 1,
                   bytes := r.bytes + bytes, wakes := r.wakes + (if enqueued then 1 else 0),
                   lastSnapshot := frozen.snapshot,
                   wakeAllowedAt := if wake.Some? then at + cooldown else r.wakeAllowedAt,
                   lastError := None, token := None, leaseExpiresAt := None);
      (db.(rows := db.rows[w := r'],
           seen := db.seen[w := SeenOf(db, w) + frozen.versions],
           outbox := if enqueued then db.outbox + [OutboxRow(wake.value, None)] else db.outbox,
           polls := db.polls + [AppliedPoll(w, bytes, Some(frozen.snapshot), if enqueued then wake else None)]),
       if wake.None? then NoChange else if enqueued then Enqueued else Deduplicated)
  }

  /** What a worker that claimed `state` under `token` does at its commit. */
  function FinishPoll(db: Db, w: WatchId, token: Token, state: Row, seen: set<Version>, now: Time, resp: Response)
    : (Db, CommitOutcome)
  {
    ApplyEffect(db, w, token, state.lastSnapshot, state.policy.cooldown, PlanPoll(state, seen, now, resp))
  }

  // ---- cancel, deliver -------------------------------------------------------------

  datatype CancelOutcome = CancelUnknown | CancelNoop | CancelTooEarly | CancelDone

  function CancelWatch(db: Db, w: WatchId, at: Time): (Db, CancelOutcome) {
    if w !in db.rows then (db, CancelUnknown)
    else if Terminal(db.rows[w].status) then (db, CancelNoop)
    else if at < db.rows[w].updatedAt then (db, CancelTooEarly)
    else (db.(rows := db.rows[w := Retire(db.rows[w], Cancelled, at, None)]), CancelDone)
  }

  function WakeIndex(outbox: seq<OutboxRow>, wake: Wake): (i: nat)
    ensures i <= |outbox|
    ensures i < |outbox| ==> outbox[i].wake == wake
    ensures forall j :: 0 <= j < i ==> outbox[j].wake != wake
  {
    if outbox == [] then 0
    else if outbox[0].wake == wake then 0
    else
      var k := WakeIndex(outbox[1..], wake);
      assert forall j :: 1 <= j < k + 1 ==> outbox[j] == outbox[1..][j - 1];
      k + 1
  }

  datatype DeliverOutcome = DeliverUnknown | DeliverTooEarly | AlreadyDelivered | StillPending

  /** What marking a wake reads first, outside any transaction. */
  function ReadDelivery(outbox: seq<OutboxRow>, wake: Wake, at: Time): DeliverOutcome {
    var i := WakeIndex(outbox, wake);
    if i == |outbox| then DeliverUnknown
    else if at < wake.createdAt then DeliverTooEarly
    else if outbox[i].deliveredAt.Some? then AlreadyDelivered
    else StillPending
  }

  /** The UPDATE that follows a pending read. It names the wake only, so it also
      overwrites a delivery that was written since that read. */
  function StampDelivered(db: Db, wake: Wake, at: Time): Db {
    var i := WakeIndex(db.outbox, wake);
    if i == |db.outbox| then db else db.(outbox := db.outbox[i := db.outbox[i].(deliveredAt := Some(at))])
  }

  // ---- rebaseline ------------------------------------------------------------------

  /** The new complete baseline and the identities the service derives from content. */
  datatype RebaselineRequest = RebaselineRequest(
    original: WatchId, reason: Id, snapshot: SnapshotId, versions: set<Version>, cutoff: Time,
    authorizedAt: Time, grantId: Id, successor: WatchId)

  datatype RebaselineOutcome =
    | OriginalUnknown | Unscoped | FutureReplacement | AnotherGrant | Replayed(grant: Grant)
    | BindingDiffers | NotFailClosed | PredatesState | AfterExpiry | NoAllowance | NoOwner | IdentityTaken
    | Granted(grant: Grant)

  function GrantOf(grants: seq<Grant>, original: WatchId): (g: Option<Grant>)
    ensures g.Some? ==> g.value in grants && g.value.original == original
    ensures g.None? ==> !IsOriginal(grants, original)
  {
    if grants == [] then None
    else if grants[|grants| - 1].original == original then Some(grants[|grants| - 1])
    else GrantOf(grants[..|grants| - 1], original)
  }

  function SuccessorPolicy(r: Row, req: RebaselineRequest): Policy
    requires !OutOfBudget(r)
  {
    var p := r.policy;
    p.(watchId := req.successor, lineage := Some(Lineage(req.original, req.grantId)),
       startsAt := req.authorizedAt, initialSnapshot := req.snapshot, baseline := req.versions,
       maxPolls := p.maxPolls - r.polls, maxBytes := p.maxBytes - r.bytes, maxWakes := p.maxWakes - r.wakes)
  }

  predicate GrantIdTaken(grants: seq<Grant>, id: Id) {
    exists i :: 0 <= i < |grants| && grants[i].grantId == id
  }

  /** The equalities between a grant, the row it retired and the policy it created that
      are checked again whenever the grant is followed or requested again. */
  predicate Rebinds(g: Grant, original: Row, successor: Policy) {
    && original.status == Rebaselined
    && g.originalPolicy == original.policy
    && successor.lineage == Some(Lineage(g.original, g.grantId))
    && successor.origin == g.owner.parentRef
    && successor.collection == g.collection
    && successor.scope == Some(g.scope)
    && successor.initialSnapshot == g.snapshot
    && successor.startsAt == g.authorizedAt
    && successor.expiresAt == original.policy.expiresAt
    && successor.maxPolls + original.polls == original.policy.maxPolls
    && successor.maxBytes + original.bytes == original.policy.maxBytes
    && successor.maxWakes + original.wakes == original.policy.maxWakes
  }

  /** `owner` is what the owner lookup over the admission table finds for the root of
      the lineage, for a new grant and for one requested again; the tables' primary
      keys refuse an identity already in use. */
  function RebaselineWatch(db: Db, req: RebaselineRequest, owner: Option<Owner>): (Db, RebaselineOutcome) {
    var w := req.original;
    if w !in db.rows then (db, OriginalUnknown)
    else if db.rows[w].policy.scope.None? then (db, Unscoped)
    else if req.cutoff > req.authorizedAt then (db, FutureReplacement)
    else if GrantOf(db.grants, w).Some? then
      var g := GrantOf(db.grants, w).value;
      (db, if g.reason != req.reason || g.snapshot != req.snapshot || g.authorizedAt != req.authorizedAt then AnotherGrant
           else if g.successor in db.rows && Rebinds(g, db.rows[w], db.rows[g.successor].policy) && owner == Some(g.owner)
           then Replayed(g) else BindingDiffers)
    else
      var r := db.rows[w];
      if !(r.status.BackingOff? && r.lastError == Some(SnapshotIncomplete)) then (db, NotFailClosed)
      else if req.authorizedAt < r.updatedAt then (db, PredatesState)
      else if req.authorizedAt >= r.policy.expiresAt then (db, AfterExpiry)
      else if OutOfBudget(r) then (db, NoAllowance)
      else if owner.None? || owner.value.parentRef != r.policy.origin then (db, NoOwner)
      else if req.successor in db.rows || GrantIdTaken(db.grants, req.grantId) then (db, IdentityTaken)
      else
        var p := SuccessorPolicy(r, req);
        var g := Grant(req.grantId, w, r.policy, owner.value, r.policy.scope.value, r.policy.collection,
                       req.reason, req.snapshot, req.authorizedAt, req.successor);
        var r' := r.(status := Rebaselined, updatedAt := req.authorizedAt, nextDueAt := req.authorizedAt,
                     token := None, leaseExpiresAt := None);
        (db.(rows := db.rows[w := r'][req.successor :=
                       FreshRow(p, req.authorizedAt, Max(req.authorizedAt, r.wakeAllowedAt))],
             seen := db.seen[req.successor := req.versions],
             grants := db.grants + [g]),
         Granted(g))
  }
}
