/** When a claim is granted: what a lease keeps others from, when it ends, and how soon
    a watch is polled again. Stated over runs, from the claims that were granted. */
module WatchLeases {
  import opened Base
  import opened WatchStore
  import opened WatchRuns
  import opened WatchAccounting
  import opened WatchAllowance

  /** A worker sets out on its poll. */
  predicate Granted(s: Sys, a: Action) {
    a.Start? && a.id !in s.workers && a.id in Next(s, a).workers
  }

  /** A claim that nobody else's identity or token stands in the way of. */
  predicate Fresh(s: Sys, a: Action) {
    a.Start? && a.id !in s.workers && a.token !in s.used
  }

  lemma {:induction false} RunJoins(s: Sys, a: seq<Action>, b: seq<Action>)
    ensures Run(s, a + b) == Run(Run(s, a), b)
    decreases |a|
  {
    if a == [] {
      assert a + b == b;
    } else {
      assert (a + b)[0] == a[0] && (a + b)[1..] == a[1..] + b;
      RunJoins(Next(s, a[0]), a[1..], b);
    }
  }

  lemma {:induction false} RunThen(s: Sys, a: seq<Action>, x: Action)
    ensures Run(s, a + [x]) == Next(Run(s, a), x)
  {
    RunJoins(s, a, [x]);
    assert [x][1..] == [];
  }

  lemma {:induction false} RunPrefix(s: Sys, actions: seq<Action>, i: nat)
    requires i < |actions|
    ensures Run(s, actions[..i + 1]) == Next(Run(s, actions[..i]), actions[i])
    ensures Run(s, actions) == Run(Run(s, actions[..i + 1]), actions[i + 1..])
  {
    TakeNext(actions, i);
    RunThen(s, actions[..i], actions[i]);
    assert actions == actions[..i + 1] + actions[i + 1..];
    RunJoins(s, actions[..i + 1], actions[i + 1..]);
  }

  // ---- the decision on one claim -----------------------------------------------------------

  lemma {:induction false} GrantedMeans(s: Sys, a: Action)
    requires Granted(s, a)
    ensures a.w in s.db.rows && a.token !in s.used && a.token in Next(s, a).used
    ensures var r := s.db.rows[a.w];
      && !Terminal(r.status) && r.nextDueAt <= a.now < r.policy.expiresAt
      && Next(s, a).db.rows == s.db.rows[a.w :=
           r.(token := Some(a.token), leaseExpiresAt := Some(a.now + a.timeout), updatedAt := a.now)]
      && Next(s, a).workers == s.workers[a.id := Fetching(a.w, a.token, r, a.now)]
  {
  }

  lemma {:induction false} GrantedIff(s: Sys, a: Action)
    requires Fresh(s, a) && (a.w in s.db.rows ==> SaneRow(a.w, s.db.rows[a.w]))
    ensures Granted(s, a) <==>
      && a.w in s.db.rows
      && var r := s.db.rows[a.w];
         && r.status in {Active, BackingOff, Triggered}
         && r.polls < r.policy.maxPolls && r.bytes < r.policy.maxBytes && r.wakes < r.policy.maxWakes
         && r.nextDueAt <= a.now < r.policy.expiresAt
         && (r.token.Some? ==> r.leaseExpiresAt.Some? && r.leaseExpiresAt.value <= a.now)
  {
  }

  /** In every reachable state a claim is granted exactly on a live, due, unexpired watch
      with budget left whose lease, if it carries one, has ended. */
  lemma {:induction false} ClaimGrantedIff(actions: seq<Action>, a: Action)
    requires Fresh(Run(START, actions), a)
    ensures var s := Run(START, actions);
      Granted(s, a) <==>
        && a.w in s.db.rows
        && var r := s.db.rows[a.w];
           && r.status in {Active, BackingOff, Triggered}
           && r.polls < r.policy.maxPolls && r.bytes < r.policy.maxBytes && r.wakes < r.policy.maxWakes
           && r.nextDueAt <= a.now < r.policy.expiresAt
           && (r.token.Some? ==> r.leaseExpiresAt.Some? && r.leaseExpiresAt.value <= a.now)
  {
    EveryRunIsSound(actions);
    GrantedIff(Run(START, actions), a);
  }

  // ---- a lease ------------------------------------------------------------------------------

  /** As long as the row carries the token, it is the row that the claim left. */
  predicate LeasedAs(db: Db, w: WatchId, token: Token, row: Row) {
    HoldsLease(db, w, token) ==> db.rows[w] == row
  }

  lemma {:induction false} LeaseStepStays(s: Sys, a: Action, w: WatchId, token: Token, row: Row)
    requires Fenced(s) && token in s.used && LeasedAs(s.db, w, token, row)
    ensures token in Next(s, a).used && LeasedAs(Next(s, a).db, w, token, row)
  {
    if !HoldsLease(s.db, w, token) {
      LostTokenStaysLostOnce(s, w, token, a);
    } else {
      match a
      case Start(_, v, now, t, timeout) => ClaimTouchesOneRow(s.db, v, now, t, timeout, w);
      case Finish(id) =>
        if id in s.workers && s.workers[id].Ready? { FinishTouchesOneRow(s.db, s.workers[id], w); }
      case External(op) =>
        if IsExternal(op) && HoldsLease(Apply(s.db, op), w, token) { ExternalKeepsLeases(s.db, op, w); }
      case Collect(_, _) =>
      case Crash(_) =>
    }
  }

  lemma {:induction false} LeaseStays(s: Sys, actions: seq<Action>, w: WatchId, token: Token, row: Row)
    requires Fenced(s) && token in s.used && LeasedAs(s.db, w, token, row)
    ensures LeasedAs(Run(s, actions).db, w, token, row)
    decreases |actions|
  {
    if actions != [] {
      StepStaysFenced(s, actions[0]);
      LeaseStepStays(s, actions[0], w, token, row);
      LeaseStays(Next(s, actions[0]), actions[1..], w, token, row);
    }
  }

  /** What the row was when step `i` claimed it, with its lease. */
  function ClaimedRow(r: Row, a: Action): Row
    requires a.Start?
  {
    r.(token := Some(a.token), leaseExpiresAt := Some(a.now + a.timeout), updatedAt := a.now)
  }

  lemma {:induction false} LeaseSince(actions: seq<Action>, i: nat, n: nat)
    requires i < n <= |actions| && Granted(Run(START, actions[..i]), actions[i])
    ensures var s, a := Run(START, actions[..i]), actions[i];
      && a.w in s.db.rows && a.token in Run(START, actions[..n]).used
      && LeasedAs(Run(START, actions[..n]).db, a.w, a.token, ClaimedRow(s.db.rows[a.w], a))
  {
    var upTo := actions[..n];
    var s, a := Run(START, actions[..i]), actions[i];
    assert upTo[..i] == actions[..i] && upTo[i] == a;
    RunPrefix(START, upTo, i);
    RunsFromStartAreSequential(upTo[..i]);
    GrantedMeans(s, a);
    StepStaysFenced(s, a);
    LeaseStays(Next(s, a), upTo[i + 1..], a.w, a.token, ClaimedRow(s.db.rows[a.w], a));
    UsedStays(Next(s, a), upTo[i + 1..], a.token);
  }

  lemma {:induction false} UsedStays(s: Sys, actions: seq<Action>, token: Token)
    requires token in s.used
    ensures token in Run(s, actions).used
    decreases |actions|
  {
    if actions != [] { UsedStays(Next(s, actions[0]), actions[1..], token); }
  }

  /** While the row still carries a worker's token, whatever became of the worker, the
      next claim is granted exactly from the end of that lease to the expiry of the
      watch: a live lease is never taken, and a crash delays by no more than the lease. */
  lemma {:induction false} LeaseDecides(actions: seq<Action>, i: nat, a: Action)
    requires i < |actions| && Granted(Run(START, actions[..i]), actions[i])
    requires var s := Run(START, actions);
      Fresh(s, a) && a.w == actions[i].w && HoldsLease(s.db, a.w, actions[i].token)
    ensures var s := Run(START, actions);
      Granted(s, a) <==> actions[i].now + actions[i].timeout <= a.now < s.db.rows[a.w].policy.expiresAt
  {
    LeaseSince(actions, i, |actions|);
    assert actions[..|actions|] == actions;
    GrantedMeans(Run(START, actions[..i]), actions[i]);
    EveryRunIsSound(actions);
    assert SaneRow(a.w, Run(START, actions).db.rows[a.w]);
    GrantedIff(Run(START, actions), a);
  }

  // ---- exclusion -----------------------------------------------------------------------------

  /** The poll of the worker that holds the lease is applied. */
  predicate AppliesPoll(s: Sys, a: Action, w: WatchId) {
    && a.Finish? && a.id in s.workers && s.workers[a.id].Ready?
    && s.workers[a.id].w == w && HoldsLease(s.db, w, s.workers[a.id].token)
  }

  /** A lease that runs until `until` ends: its poll is applied, an outside step releases
      it, or another claim is granted after its end. */
  predicate LeaseEnds(s: Sys, a: Action, w: WatchId, token: Token, until: Time) {
    && HoldsLease(s.db, w, token) && !HoldsLease(Next(s, a).db, w, token)
    && (AppliesPoll(s, a, w)
        || (a.External? && IsExternal(a.op))
        || (Granted(s, a) && a.w == w && until <= a.now))
  }

  lemma {:induction false} HowLeasesEnd(s: Sys, a: Action, w: WatchId, token: Token, until: Time)
    requires Fenced(s) && HoldsLease(s.db, w, token) && !HoldsLease(Next(s, a).db, w, token)
    requires s.db.rows[w].leaseExpiresAt == Some(until)
    ensures LeaseEnds(s, a, w, token, until) || Terminal(Next(s, a).db.rows[w].status)
    ensures w in Next(s, a).db.rows
  {
    match a
    case Start(id, v, now, t, timeout) => ClaimTouchesOneRow(s.db, v, now, t, timeout, w);
    case Finish(id) =>
      if id in s.workers && s.workers[id].Ready? {
        FinishTouchesOneRow(s.db, s.workers[id], w);
        assert AppliesPoll(s, a, w);
      }
    case External(op) => ExternalKeepsRows(s.db, op, w);
    case Collect(_, _) =>
    case Crash(_) =>
  }

  lemma {:induction false} ExternalKeepsRows(db: Db, op: Op, w: WatchId)
    requires w in db.rows && IsExternal(op)
    ensures w in Apply(db, op).rows
  {
  }

  /** The step at which a lease that is gone in the end is lost. */
  lemma {:induction false} LosingStep(s: Sys, actions: seq<Action>, w: WatchId, token: Token) returns (k: nat)
    requires HoldsLease(s.db, w, token) && !HoldsLease(Run(s, actions).db, w, token)
    ensures k < |actions| && HoldsLease(Run(s, actions[..k]).db, w, token) && !HoldsLease(Run(s, actions[..k + 1]).db, w, token)
    decreases |actions|
  {
    if !HoldsLease(Next(s, actions[0]).db, w, token) {
      k := 0;
      assert actions[..1] == [actions[0]] && actions[..1][1..] == [];
    } else {
      k := LosingStep(Next(s, actions[0]), actions[1..], w, token);
      assert actions[..k + 1][1..] == actions[1..][..k] && actions[..k + 2][1..] == actions[1..][..k + 1];
      k := k + 1;
    }
  }

  lemma {:induction false} SliceJoins<T>(s: seq<T>, i: nat, j: nat, m: nat)
    requires i <= j <= |s| && m <= j - i
    ensures s[..i] + s[i..j][..m] == s[..i + m]
  {
  }

  /** The same between two places of one run. */
  lemma {:induction false} LosingStepBetween(actions: seq<Action>, i: nat, j: nat, w: WatchId, token: Token) returns (k: nat)
    requires i <= j <= |actions|
    requires HoldsLease(Run(START, actions[..i]).db, w, token) && !HoldsLease(Run(START, actions[..j]).db, w, token)
    ensures i <= k < j
    ensures HoldsLease(Run(START, actions[..k]).db, w, token) && !HoldsLease(Run(START, actions[..k + 1]).db, w, token)
  {
    var rest := actions[i..j];
    SliceJoins(actions, i, j, j - i);
    RunJoins(START, actions[..i], rest);
    assert rest[..j - i] == rest;
    k := LosingStep(Run(START, actions[..i]), rest, w, token);
    SliceJoins(actions, i, j, k);
    SliceJoins(actions, i, j, k + 1);
    RunJoins(START, actions[..i], rest[..k]);
    RunJoins(START, actions[..i], rest[..k + 1]);
    k := i + k;
  }

  lemma {:induction false} LosingStepEnds(actions: seq<Action>, i: nat, k: nat)
    requires i < k < |actions| && Granted(Run(START, actions[..i]), actions[i])
    requires HoldsLease(Run(START, actions[..k]).db, actions[i].w, actions[i].token)
    requires !HoldsLease(Run(START, actions[..k + 1]).db, actions[i].w, actions[i].token)
    ensures var a, db := actions[i], Run(START, actions[..k + 1]).db;
      LeaseEnds(Run(START, actions[..k]), actions[k], a.w, a.token, a.now + a.timeout)
      || (a.w in db.rows && Terminal(db.rows[a.w].status))
  {
    var a := actions[i];
    RunPrefix(START, actions, k);
    LeaseSince(actions, i, k);
    RunsFromStartAreSequential(actions[..k]);
    HowLeasesEnd(Run(START, actions[..k]), actions[k], a.w, a.token, a.now + a.timeout);
  }

  lemma {:induction false} LeasedAfterGrant(actions: seq<Action>, i: nat)
    requires i < |actions| && Granted(Run(START, actions[..i]), actions[i])
    ensures HoldsLease(Run(START, actions[..i + 1]).db, actions[i].w, actions[i].token)
    ensures actions[i].token !in Run(START, actions[..i]).used
  {
    RunPrefix(START, actions, i);
    GrantedMeans(Run(START, actions[..i]), actions[i]);
  }

  /** Between two granted claims of one watch the lease of the first ended: its poll was
      applied, an outside step released it, or a claim was granted after its end. */
  lemma {:induction false} LeaseExclusion(actions: seq<Action>, i: nat, j: nat) returns (k: nat)
    requires i < j < |actions| && actions[i].Start? && actions[j].Start? && actions[i].w == actions[j].w
    requires Granted(Run(START, actions[..i]), actions[i]) && Granted(Run(START, actions[..j]), actions[j])
    ensures i < k <= j
    ensures LeaseEnds(Run(START, actions[..k]), actions[k], actions[i].w, actions[i].token, actions[i].now + actions[i].timeout)
  {
    LeasedAfterGrant(actions, i);
    LeasedAfterGrant(actions, j);
    LeaseSince(actions, i, j);
    k := LosingStepBetween(actions, i + 1, j + 1, actions[i].w, actions[i].token);
    LosingStepEnds(actions, i, k);
    if k < j {
      RetiredUnlessEnded(actions, k + 1, j);
    } else {
      GrantedIsLive(actions, j);
    }
  }

  lemma {:induction false} GrantedIsLive(actions: seq<Action>, j: nat)
    requires j < |actions| && Granted(Run(START, actions[..j]), actions[j])
    ensures var db := Run(START, actions[..j + 1]).db; actions[j].w in db.rows && !Terminal(db.rows[actions[j].w].status)
  {
    RunPrefix(START, actions, j);
    GrantedMeans(Run(START, actions[..j]), actions[j]);
  }

  lemma {:induction false} RetiredUnlessEnded(actions: seq<Action>, k: nat, j: nat)
    requires k <= j < |actions| && Granted(Run(START, actions[..j]), actions[j])
    ensures var db := Run(START, actions[..k]).db; actions[j].w in db.rows ==> !Terminal(db.rows[actions[j].w].status)
  {
    var db := Run(START, actions[..k]).db;
    if actions[j].w in db.rows && Terminal(db.rows[actions[j].w].status) { RetiredIsNotClaimed(actions, k, j); }
  }

  lemma {:induction false} RetiredIsNotClaimed(actions: seq<Action>, k: nat, j: nat)
    requires k <= j < |actions| && actions[j].Start? && actions[j].w in Run(START, actions[..k]).db.rows
    requires Terminal(Run(START, actions[..k]).db.rows[actions[j].w].status)
    ensures !Granted(Run(START, actions[..j]), actions[j])
  {
    EveryRunIsSound(actions[..k]);
    RunsFromStartAreSequential(actions[..k]);
    assert actions[..j] == actions[..k] + actions[k..j];
    RunJoins(START, actions[..k], actions[k..j]);
    TerminalIsForever(Run(START, actions[..k]), actions[k..j], actions[j].w);
    if Granted(Run(START, actions[..j]), actions[j]) { GrantedMeans(Run(START, actions[..j]), actions[j]); }
  }

  // ---- pacing ---------------------------------------------------------------------------------

  /** Whoever holds a lease claimed it when the watch was due. */
  predicate Timely(s: Sys) {
    forall id :: id in s.workers && HoldsLease(s.db, s.workers[id].w, s.workers[id].token) ==>
      s.db.rows[s.workers[id].w].nextDueAt <= s.workers[id].now
  }

  /** The watch is retired, or not due before `due`. */
  predicate RestsUntil(db: Db, w: WatchId, due: Time) {
    w in db.rows && (Terminal(db.rows[w].status) || due <= db.rows[w].nextDueAt)
  }

  lemma {:induction false} ExternalRests(db: Db, op: Op, w: WatchId, due: Time)
    requires IsExternal(op) && RestsUntil(db, w, due)
    ensures RestsUntil(Apply(db, op), w, due)
  {
  }

  lemma {:induction false} ClaimRests(db: Db, v: WatchId, now: Time, token: Token, timeout: nat, w: WatchId, due: Time)
    requires RestsUntil(db, w, due)
    ensures RestsUntil(ClaimDue(db, v, now, token, timeout).0, w, due)
  {
  }

  /** When a poll was over, and how long the watch rests after it. */
  function PollTime(k: Worker): Time
    requires k.Ready?
  {
    if k.resp.CollectorRaised? then k.now else Max(k.now, k.resp.completedAt)
  }

  function Rest(r: Row): nat {
    if r.status == BackingOff then 2 * r.policy.pollInterval else r.policy.pollInterval
  }

  lemma {:induction false} FinishSetsDue(db: Db, k: Worker)
    requires k.Ready? && HoldsLease(db, k.w, k.token) && k.state.policy == db.rows[k.w].policy
    ensures var db' := FinishPoll(db, k.w, k.token, k.state, k.seen, k.now, k.resp).0;
      && k.w in db'.rows && db'.rows[k.w].policy == db.rows[k.w].policy
      && (Terminal(db'.rows[k.w].status) || db'.rows[k.w].nextDueAt == PollTime(k) + Rest(db'.rows[k.w]))
  {
  }

  lemma {:induction false} FinishRests(s: Sys, id: nat, w: WatchId, due: Time)
    requires Fenced(s) && Timely(s) && RestsUntil(s.db, w, due) && SaneRow(w, s.db.rows[w])
    ensures RestsUntil(Next(s, Finish(id)).db, w, due)
  {
    if id in s.workers && s.workers[id].Ready? {
      var k := s.workers[id];
      FinishTouchesOneRow(s.db, k, w);
      if k.w == w && HoldsLease(s.db, w, k.token) {
        assert Current(s.db, k);
        FinishSetsDue(s.db, k);
      }
    }
  }

  lemma {:induction false} StepRests(s: Sys, a: Action, w: WatchId, due: Time)
    requires Fenced(s) && Timely(s) && RestsUntil(s.db, w, due) && SaneRow(w, s.db.rows[w])
    ensures RestsUntil(Next(s, a).db, w, due)
  {
    match a
    case Start(id, v, now, t, timeout) => ClaimRests(s.db, v, now, t, timeout, w, due);
    case Finish(id) => FinishRests(s, id, w, due);
    case External(op) => if IsExternal(op) { ExternalRests(s.db, op, w, due); }
    case Collect(_, _) =>
    case Crash(_) =>
  }

  lemma {:induction false} ClaimStaysTimely(s: Sys, a: Action)
    requires Fenced(s) && Timely(s) && a.Start?
    ensures Timely(Next(s, a))
  {
    var s' := Next(s, a);
    if a.id !in s.workers && a.token !in s.used {
      forall id | id in s'.workers && HoldsLease(s'.db, s'.workers[id].w, s'.workers[id].token)
        ensures s'.db.rows[s'.workers[id].w].nextDueAt <= s'.workers[id].now
      {
        ClaimTouchesOneRow(s.db, a.w, a.now, a.token, a.timeout, s'.workers[id].w);
        if id == a.id { GrantedMeans(s, a); } else { assert s.workers[id].token in s.used; }
      }
    }
  }

  lemma {:induction false} FinishStaysTimely(s: Sys, a: Action)
    requires Fenced(s) && Timely(s) && a.Finish?
    ensures Timely(Next(s, a))
  {
    if a.id in s.workers && s.workers[a.id].Ready? {
      var s' := Next(s, a);
      forall id | id in s'.workers && HoldsLease(s'.db, s'.workers[id].w, s'.workers[id].token)
        ensures s'.db.rows[s'.workers[id].w].nextDueAt <= s'.workers[id].now
      {
        FinishTouchesOneRow(s.db, s.workers[a.id], s'.workers[id].w);
      }
    }
  }

  lemma {:induction false} ExternalStaysTimely(s: Sys, op: Op)
    requires Timely(s) && IsExternal(op)
    ensures Timely(s.(db := Apply(s.db, op)))
  {
    forall id | id in s.workers && HoldsLease(Apply(s.db, op), s.workers[id].w, s.workers[id].token)
      ensures Apply(s.db, op).rows[s.workers[id].w] == s.db.rows[s.workers[id].w]
      ensures HoldsLease(s.db, s.workers[id].w, s.workers[id].token)
    {
      ExternalKeepsLeases(s.db, op, s.workers[id].w);
    }
  }

  lemma {:induction false} StepStaysTimely(s: Sys, a: Action)
    requires Fenced(s) && Timely(s)
    ensures Timely(Next(s, a))
  {
    match a
    case Start(_, _, _, _, _) => ClaimStaysTimely(s, a);
    case Finish(_) => FinishStaysTimely(s, a);
    case External(op) => if IsExternal(op) { ExternalStaysTimely(s, op); }
    case Collect(_, _) =>
    case Crash(_) =>
  }

  lemma {:induction false} EveryRunIsTimely(s: Sys, actions: seq<Action>)
    requires Fenced(s) && Timely(s)
    ensures Timely(Run(s, actions))
    decreases |actions|
  {
    if actions != [] {
      StepStaysFenced(s, actions[0]);
      StepStaysTimely(s, actions[0]);
      EveryRunIsTimely(Next(s, actions[0]), actions[1..]);
    }
  }

  lemma {:induction false} RunRests(actions: seq<Action>, i: nat, j: nat, w: WatchId, due: Time)
    requires i <= j <= |actions| && RestsUntil(Run(START, actions[..i]).db, w, due)
    ensures RestsUntil(Run(START, actions[..j]).db, w, due)
    decreases j - i
  {
    if i < j {
      EveryRunIsSound(actions[..i]);
      RunsFromStartAreSequential(actions[..i]);
      EveryRunIsTimely(START, actions[..i]);
      RunPrefix(START, actions, i);
      assert SaneRow(w, Run(START, actions[..i]).db.rows[w]);
      StepRests(Run(START, actions[..i]), actions[i], w, due);
      RunRests(actions, i + 1, j, w, due);
    }
  }

  /** After an applied poll the watch rests for its interval, twice that when the poll
      failed: no later claim is granted before. */
  lemma {:induction false} PollsArePaced(actions: seq<Action>, i: nat, j: nat)
    requires i < j < |actions| && actions[i].Finish? && actions[j].Start?
    requires AppliesPoll(Run(START, actions[..i]), actions[i], actions[j].w)
    requires Granted(Run(START, actions[..j]), actions[j])
    ensures var k := Run(START, actions[..i]).workers[actions[i].id];
      var db := Run(START, actions[..i + 1]).db;
      k.Ready? && k.w in db.rows && PollTime(k) + Rest(db.rows[k.w]) <= actions[j].now
  {
    var s := Run(START, actions[..i]);
    var k := s.workers[actions[i].id];
    RunsFromStartAreSequential(actions[..i]);
    assert Current(s.db, k);
    FinishSetsDue(s.db, k);
    RunPrefix(START, actions, i);
    var db := Run(START, actions[..i + 1]).db;
    RunRests(actions, i + 1, j, k.w, PollTime(k) + Rest(db.rows[k.w]));
    GrantedMeans(Run(START, actions[..j]), actions[j]);
  }

  // ---- a worker on its own -----------------------------------------------------------------

  lemma {:induction false} ThreeSteps(s: Sys, a: Action, b: Action, c: Action)
    ensures Run(s, [a, b, c]) == Next(Next(Next(s, a), b), c)
  {
    var one, two := Next(s, a), Next(Next(s, a), b);
    assert [c][1..] == [] && Run(two, [c]) == Next(two, c);
    assert [b, c][1..] == [c] && Run(one, [b, c]) == Run(two, [c]);
    assert [a, b, c][1..] == [b, c];
  }

  /** A granted claim that nobody interferes with ends in the poll of its response, and
      the worker is gone. */
  lemma {:induction false} UndisturbedPoll(s: Sys, id: nat, w: WatchId, now: Time, token: Token, timeout: nat, resp: Response)
    requires id !in s.workers && token !in s.used && ClaimDue(s.db, w, now, token, timeout).1.Claimed?
    ensures var claimed := ClaimDue(s.db, w, now, token, timeout).0;
      && w in claimed.rows && claimed.rows[w].token == Some(token)
      && Run(s, [Start(id, w, now, token, timeout), Collect(id, resp), Finish(id)]) ==
           Sys(AtomicPoll(claimed, w, now, resp).0, s.workers, s.used + {token})
  {
    ThreeSteps(s, Start(id, w, now, token, timeout), Collect(id, resp), Finish(id));
    var claimed := ClaimDue(s.db, w, now, token, timeout).0;
    var k := Ready(w, token, s.db.rows[w], now, resp, SeenOf(claimed, w));
    assert Next(Next(s, Start(id, w, now, token, timeout)), Collect(id, resp)) == Sys(claimed, s.workers[id := k], s.used + {token});
    assert s.workers[id := k] - {id} == s.workers;
  }
}
