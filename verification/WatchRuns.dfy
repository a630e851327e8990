/** Runs of the Attention Watch service: a sequential machine whose polls are
    atomic, the concurrent machine whose workers carry what they read at their
    claim, and the refinement of the first by the second. */
module WatchRuns {
  import opened Base
  import opened WatchStore

  // ---- the sequential machine ----------------------------------------------------

  /** `Deliver` is the UPDATE of a deliverer that may have read the wake long before. */
  datatype Op =
    | Create(policy: Policy, createdAt: Time, cutoff: Time)
    | Claim(w: WatchId, now: Time, token: Token, timeout: nat)
    | Poll(w: WatchId, now: Time, resp: Response)
    | Cancel(w: WatchId, at: Time)
    | Deliver(wake: Wake, at: Time)
    | Rebaseline(req: RebaselineRequest, owner: Option<Owner>)

  /** A whole poll in one step, on the row and the seen set as they are now. */
  function AtomicPoll(db: Db, w: WatchId, now: Time, resp: Response): (Db, CommitOutcome) {
    if w in db.rows && db.rows[w].token.Some?
    then FinishPoll(db, w, db.rows[w].token.value, db.rows[w], SeenOf(db, w), now, resp)
    else (db, Stale)
  }

  function Apply(db: Db, op: Op): Db {
    match op
    case Create(p, createdAt, cutoff) => CreateWatch(db, p, createdAt, cutoff).0
    case Claim(w, now, token, timeout) => ClaimDue(db, w, now, token, timeout).0
    case Poll(w, now, resp) => AtomicPoll(db, w, now, resp).0
    case Cancel(w, at) => CancelWatch(db, w, at).0
    case Deliver(wake, at) => if at < wake.createdAt then db else StampDelivered(db, wake, at)
    case Rebaseline(req, owner) => RebaselineWatch(db, req, owner).0
  }

  function RunOps(db: Db, ops: seq<Op>): Db
    decreases |ops|
  {
    if ops == [] then db else RunOps(Apply(db, ops[0]), ops[1..])
  }

  // ---- the concurrent machine ------------------------------------------------------

  datatype Worker =
    | Fetching(w: WatchId, token: Token, state: Row, now: Time)
    | Ready(w: WatchId, token: Token, state: Row, now: Time, resp: Response, seen: set<Version>)

  /** `used` holds every token handed out so far: tokens are random and fresh. */
  datatype Sys = Sys(db: Db, workers: map<nat, Worker>, used: set<Token>)

  datatype Action =
    | Start(id: nat, w: WatchId, now: Time, token: Token, timeout: nat)
    | Collect(id: nat, resp: Response)
    | Finish(id: nat)
    | Crash(id: nat)
    | External(op: Op)

  predicate IsExternal(op: Op) {
    !op.Claim? && !op.Poll?
  }

  /** A disabled action leaves the system as it is. */
  function Next(s: Sys, a: Action): Sys {
    match a
    case Start(id, w, now, token, timeout) =>
      if id in s.workers || token in s.used then s else
      var (db', outcome) := ClaimDue(s.db, w, now, token, timeout);
      Sys(db', if outcome.Claimed? then s.workers[id := Fetching(w, token, outcome.state, now)] else s.workers,
          s.used + {token})
    case Collect(id, resp) =>
      if id in s.workers && s.workers[id].Fetching? then
        var k := s.workers[id];
        s.(workers := s.workers[id := Ready(k.w, k.token, k.state, k.now, resp, SeenOf(s.db, k.w))])
      else s
    case Finish(id) =>
      if id in s.workers && s.workers[id].Ready? then
        var k := s.workers[id];
        s.(db := FinishPoll(s.db, k.w, k.token, k.state, k.seen, k.now, k.resp).0, workers := s.workers - {id})
      else s
    case Crash(id) => s.(workers := s.workers - {id})
    case External(op) => if IsExternal(op) then s.(db := Apply(s.db, op)) else s
  }

  function Run(s: Sys, actions: seq<Action>): Sys
    decreases |actions|
  {
    if actions == [] then s else Run(Next(s, actions[0]), actions[1..])
  }

  const START := Sys(EMPTY, map[], {})

  // ---- lease fencing ---------------------------------------------------------------

  /** While the row still carries the worker's token, nothing the worker read has changed. */
  predicate Current(db: Db, k: Worker) {
    HoldsLease(db, k.w, k.token) ==>
      && db.rows[k.w] == k.state.(token := db.rows[k.w].token, leaseExpiresAt := db.rows[k.w].leaseExpiresAt,
                                  updatedAt := db.rows[k.w].updatedAt)
      && (k.Ready? ==> k.seen == SeenOf(db, k.w))
  }

  predicate TokensUsed(s: Sys) {
    && (forall w :: w in s.db.rows && s.db.rows[w].token.Some? ==> s.db.rows[w].token.value in s.used)
    && (forall id :: id in s.workers ==> s.workers[id].token in s.used)
  }

  predicate TokensDistinct(s: Sys) {
    forall i, j :: i in s.workers && j in s.workers && s.workers[i].token == s.workers[j].token ==> i == j
  }

  predicate Fenced(s: Sys) {
    && TokensUsed(s)
    && TokensDistinct(s)
    && (forall id :: id in s.workers ==> Current(s.db, s.workers[id]))
  }

  /** An external step gives no row a new token, and a row that keeps its token is untouched. */
  lemma {:induction false} ExternalKeepsLeases(db: Db, op: Op, w: WatchId)
    requires IsExternal(op)
    requires w in Apply(db, op).rows && Apply(db, op).rows[w].token.Some?
    ensures w in db.rows && Apply(db, op).rows[w] == db.rows[w]
    ensures SeenOf(Apply(db, op), w) == SeenOf(db, w)
  {
  }

  /** A claim only ever touches the row it names, and the seen sets not at all. */
  lemma {:induction false} ClaimTouchesOneRow(db: Db, w: WatchId, now: Time, token: Token, timeout: nat, v: WatchId)
    ensures var db' := ClaimDue(db, w, now, token, timeout).0;
      && db'.seen == db.seen && db'.rows.Keys == db.rows.Keys
      && (v in db.rows && v != w ==> db'.rows[v] == db.rows[v])
      && (v in db.rows && db'.rows[v].token.Some? ==>
            db'.rows[v] == db.rows[v] || (db'.rows[v].token == Some(token) && ClaimDue(db, w, now, token, timeout).1 == Claimed(db.rows[v])))
  {
  }

  lemma {:induction false} FinishTouchesOneRow(db: Db, k: Worker, v: WatchId)
    requires k.Ready?
    ensures var db' := FinishPoll(db, k.w, k.token, k.state, k.seen, k.now, k.resp).0;
      && db'.rows.Keys == db.rows.Keys
      && (v != k.w || !HoldsLease(db, k.w, k.token) ==> SeenOf(db', v) == SeenOf(db, v) && (v in db.rows ==> db'.rows[v] == db.rows[v]))
      && (v == k.w && HoldsLease(db, k.w, k.token) ==> db'.rows[v].token == None)
  {
  }

  lemma {:induction false} StartStaysFenced(s: Sys, a: Action)
    requires Fenced(s) && a.Start?
    ensures Fenced(Next(s, a))
  {
    var s' := Next(s, a);
    if a.id !in s.workers && a.token !in s.used {
      forall v | v in s'.db.rows && s'.db.rows[v].token.Some? ensures s'.db.rows[v].token.value in s'.used {
        ClaimTouchesOneRow(s.db, a.w, a.now, a.token, a.timeout, v);
      }
      forall id | id in s'.workers ensures Current(s'.db, s'.workers[id]) {
        ClaimTouchesOneRow(s.db, a.w, a.now, a.token, a.timeout, s'.workers[id].w);
        if id in s.workers && id != a.id {
          assert Current(s.db, s.workers[id]);
        }
      }
    }
  }

  lemma {:induction false} FinishStaysFenced(s: Sys, a: Action)
    requires Fenced(s) && a.Finish?
    ensures Fenced(Next(s, a))
  {
    if a.id in s.workers && s.workers[a.id].Ready? {
      var s', k := Next(s, a), s.workers[a.id];
      forall v | v in s'.db.rows && s'.db.rows[v].token.Some? ensures s'.db.rows[v].token.value in s'.used {
        FinishTouchesOneRow(s.db, k, v);
      }
      forall id | id in s'.workers ensures Current(s'.db, s'.workers[id]) {
        FinishTouchesOneRow(s.db, k, s.workers[id].w);
        assert Current(s.db, s.workers[id]);
      }
    }
  }

  lemma {:induction false} StepStaysFenced(s: Sys, a: Action)
    requires Fenced(s)
    ensures Fenced(Next(s, a))
  {
    match a
    case Start(_, _, _, _, _) => StartStaysFenced(s, a);
    case Collect(id, resp) =>
    case Finish(_) => FinishStaysFenced(s, a);
    case Crash(id) =>
    case External(op) =>
      if IsExternal(op) {
        forall v | v in Apply(s.db, op).rows && Apply(s.db, op).rows[v].token.Some?
          ensures v in s.db.rows && Apply(s.db, op).rows[v] == s.db.rows[v] && SeenOf(Apply(s.db, op), v) == SeenOf(s.db, v)
        {
          ExternalKeepsLeases(s.db, op, v);
        }
        forall id | id in s.workers ensures Current(Apply(s.db, op), s.workers[id]) {
          assert Current(s.db, s.workers[id]);
        }
      }
  }

  // ---- the refinement ----------------------------------------------------------------

  /** The sequential steps that one concurrent action stands for: a poll is placed
      at its commit, a worker that lost its lease stands for nothing. */
  function Abstract(s: Sys, a: Action): seq<Op> {
    match a
    case Start(id, w, now, token, timeout) =>
      if id in s.workers || token in s.used then [] else [Claim(w, now, token, timeout)]
    case Collect(_, _) => []
    case Finish(id) =>
      if id in s.workers && s.workers[id].Ready? && HoldsLease(s.db, s.workers[id].w, s.workers[id].token)
      then [Poll(s.workers[id].w, s.workers[id].now, s.workers[id].resp)] else []
    case Crash(_) => []
    case External(op) => if IsExternal(op) then [op] else []
  }

  function AbstractRun(s: Sys, actions: seq<Action>): seq<Op>
    decreases |actions|
  {
    if actions == [] then [] else Abstract(s, actions[0]) + AbstractRun(Next(s, actions[0]), actions[1..])
  }

  /** A worker that still holds its lease does at its commit exactly what a poll
      that read everything at that moment would do. */
  lemma {:induction false} CommitIsAtomic(s: Sys, id: nat)
    requires Fenced(s) && id in s.workers && s.workers[id].Ready?
    requires HoldsLease(s.db, s.workers[id].w, s.workers[id].token)
    ensures var k := s.workers[id];
      FinishPoll(s.db, k.w, k.token, k.state, k.seen, k.now, k.resp) == AtomicPoll(s.db, k.w, k.now, k.resp)
  {
    var k := s.workers[id];
    assert Current(s.db, k);
    assert PlanPoll(k.state, k.seen, k.now, k.resp) == PlanPoll(s.db.rows[k.w], SeenOf(s.db, k.w), k.now, k.resp);
  }

  lemma {:induction false} StepIsSequential(s: Sys, a: Action)
    requires Fenced(s)
    ensures RunOps(s.db, Abstract(s, a)) == Next(s, a).db
  {
    match a
    case Finish(id) =>
      if id in s.workers && s.workers[id].Ready? && HoldsLease(s.db, s.workers[id].w, s.workers[id].token) {
        CommitIsAtomic(s, id);
        var k := s.workers[id];
        assert RunOps(s.db, [Poll(k.w, k.now, k.resp)]) == RunOps(Apply(s.db, Poll(k.w, k.now, k.resp)), []);
      }
    case Start(id, w, now, token, timeout) =>
      assert RunOps(s.db, [Claim(w, now, token, timeout)]) == RunOps(Apply(s.db, Claim(w, now, token, timeout)), []);
    case External(op) =>
      assert RunOps(s.db, [op]) == RunOps(Apply(s.db, op), []);
    case Collect(_, _) =>
    case Crash(_) =>
  }

  lemma {:induction false} RunOpsConcat(db: Db, a: seq<Op>, b: seq<Op>)
    ensures RunOps(db, a + b) == RunOps(RunOps(db, a), b)
    decreases |a|
  {
    if a == [] {
      assert a + b == b;
    } else {
      assert (a + b)[0] == a[0] && (a + b)[1..] == a[1..] + b;
      RunOpsConcat(Apply(db, a[0]), a[1..], b);
    }
  }

  /** Every concurrent run, with whatever crashes, takeovers, cancels and
      rebaselines it contains, leaves the tables that its sequential image leaves. */
  lemma {:induction false} ConcurrentRunIsSequential(s: Sys, actions: seq<Action>)
    requires Fenced(s)
    ensures Fenced(Run(s, actions))
    ensures RunOps(s.db, AbstractRun(s, actions)) == Run(s, actions).db
    decreases |actions|
  {
    if actions != [] {
      var s' := Next(s, actions[0]);
      StepStaysFenced(s, actions[0]);
      StepIsSequential(s, actions[0]);
      ConcurrentRunIsSequential(s', actions[1..]);
      RunOpsConcat(s.db, Abstract(s, actions[0]), AbstractRun(s', actions[1..]));
    }
  }

  /** In particular from the start, where nothing is stored and nobody is at work. */
  lemma {:induction false} RunsFromStartAreSequential(actions: seq<Action>)
    ensures Fenced(Run(START, actions))
    ensures Run(START, actions).db == RunOps(EMPTY, AbstractRun(START, actions))
  {
    ConcurrentRunIsSequential(START, actions);
  }

  /** A worker whose token was replaced or cleared never gets it back, so whenever
      it finishes it changes no row, no seen set and no outbox entry. */
  lemma {:induction false} LostLeaseIsInertForever(s: Sys, id: nat, actions: seq<Action>)
    requires Fenced(s) && id in s.workers && !HoldsLease(s.db, s.workers[id].w, s.workers[id].token)
    ensures var k := s.workers[id];
      forall seen, resp :: FinishPoll(Run(s, actions).db, k.w, k.token, k.state, seen, k.now, resp).0 == Run(s, actions).db
    decreases |actions|
  {
    LostTokenStaysLost(s, s.workers[id].w, s.workers[id].token, actions);
  }

  lemma {:induction false} LostTokenStaysLost(s: Sys, w: WatchId, token: Token, actions: seq<Action>)
    requires Fenced(s) && token in s.used && !HoldsLease(s.db, w, token)
    ensures !HoldsLease(Run(s, actions).db, w, token)
    decreases |actions|
  {
    if actions != [] {
      var s' := Next(s, actions[0]);
      StepStaysFenced(s, actions[0]);
      LostTokenStaysLostOnce(s, w, token, actions[0]);
      LostTokenStaysLost(s', w, token, actions[1..]);
    }
  }

  lemma {:induction false} LostTokenStaysLostOnce(s: Sys, w: WatchId, token: Token, a: Action)
    requires Fenced(s) && token in s.used && !HoldsLease(s.db, w, token)
    ensures token in Next(s, a).used && !HoldsLease(Next(s, a).db, w, token)
  {
    match a
    case Start(_, v, now, t, timeout) => ClaimTouchesOneRow(s.db, v, now, t, timeout, w);
    case Finish(id) =>
      if id in s.workers && s.workers[id].Ready? { FinishTouchesOneRow(s.db, s.workers[id], w); }
    case External(op) =>
      if IsExternal(op) && HoldsLease(Apply(s.db, op), w, token) { ExternalKeepsLeases(s.db, op, w); }
    case Collect(_, _) =>
    case Crash(_) =>
  }
}
