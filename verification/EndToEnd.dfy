/** From a frozen version to a research run, exactly once: the invariants of the
    composed system and the end-to-end statements about every one of its runs. */
module EndToEnd {
  import opened Base
  import opened WatchStore
  import opened WatchRuns
  import opened WatchAccounting
  import opened WatchLineage
  import opened WatchAllowance
  import opened Admission
  import opened WatchAuthority
  import opened Dispatch

  // ---- the invariant, part by part -------------------------------------------------------

  predicate IdsAreKnown(t: seq<Admission>, root: WatchId, ids: seq<Id>) {
    forall id :: id in ids ==>
      ById(t, id).Some? && Accepted(ById(t, id).value) && ById(t, id).value.watch == Some(root)
  }

  predicate SetSound(t: seq<Admission>, db: Db, wake: Wake, ids: seq<Id>) {
    && wake.watchId in db.rows && WakeIndex(db.outbox, wake) < |db.outbox|
    && ids != [] && Distinct(ids)
    && IdsAreKnown(t, Root(db.grants, wake.watchId), ids)
  }

  predicate SetsSound(t: seq<Admission>, db: Db, sets: map<Wake, seq<Id>>) {
    forall w {:trigger SetSound(t, db, w, sets[w])} :: w in sets ==> SetSound(t, db, w, sets[w])
  }

  /** A run belongs to a frozen set, is configured with its own binding, and starts with its binding event. */
  predicate RunSound(t: seq<Admission>, sets: map<Wake, seq<Id>>, r: RunId, run: RunRec) {
    && r.wake in sets && r.admission in sets[r.wake] && ById(t, r.admission).Some?
    && run.config == RunBinding(r.wake, ById(t, r.admission).value)
    && (run.events != [] ==> run.events[0] == Bound(run.config))
    && (forall i :: 1 <= i < |run.events| ==> run.events[i].Judgment?)
    && (run.finished ==> run.events != [])
  }

  predicate RunsSound(t: seq<Admission>, sets: map<Wake, seq<Id>>, runs: map<RunId, RunRec>) {
    forall r {:trigger RunSound(t, sets, r, runs[r])} :: r in runs ==> RunSound(t, sets, r, runs[r])
  }

  predicate BindingsMatch(t: seq<Admission>, sets: map<Wake, seq<Id>>, wake: Wake, bs: seq<Binding>) {
    && wake in sets && |bs| == |sets[wake]|
    && forall i :: 0 <= i < |bs| ==>
         && ById(t, sets[wake][i]).Some?
         && bs[i] == RunBinding(wake, ById(t, sets[wake][i]).value)
  }

  predicate DispatcherSound(t: seq<Admission>, sets: map<Wake, seq<Id>>, runs: map<RunId, RunRec>, d: Dispatcher) {
    && BindingsMatch(t, sets, d.wake, d.bindings)
    && d.done <= |d.bindings|
    && (forall i :: 0 <= i < d.done ==> Durable(runs, d.bindings[i]))
    && (d.phase.Delivering? ==> d.done == |d.bindings|)
  }

  predicate DispatchersSound(t: seq<Admission>, sets: map<Wake, seq<Id>>, runs: map<RunId, RunRec>, ds: map<nat, Dispatcher>) {
    forall id {:trigger DispatcherSound(t, sets, runs, ds[id])} :: id in ds ==> DispatcherSound(t, sets, runs, ds[id])
  }

  predicate FullyDispatched(t: seq<Admission>, sets: map<Wake, seq<Id>>, runs: map<RunId, RunRec>, wake: Wake) {
    && wake in sets
    && forall id :: id in sets[wake] ==> ById(t, id).Some? && Durable(runs, RunBinding(wake, ById(t, id).value))
  }

  predicate DeliveriesSound(t: seq<Admission>, sets: map<Wake, seq<Id>>, runs: map<RunId, RunRec>, outbox: seq<OutboxRow>) {
    forall i {:trigger outbox[i].deliveredAt} :: 0 <= i < |outbox| && outbox[i].deliveredAt.Some? ==>
      FullyDispatched(t, sets, runs, outbox[i].wake)
  }

  /** The owner that a grant names is still an owner row of the grant's root. */
  predicate GrantOwned(t: seq<Admission>, db: Db, g: Grant) {
    var root := Root(db.grants, g.original);
    && g.original in db.rows && root in db.rows
    && exists a :: a in OwnerRows(t, root) && SpeaksFor(a, db.rows[root].policy) && OwnerIn(a) == g.owner
  }

  predicate GrantsOwned(t: seq<Admission>, db: Db) {
    forall i {:trigger db.grants[i]} :: 0 <= i < |db.grants| ==> GrantOwned(t, db, db.grants[i])
  }

  predicate NetSound(n: Net) {
    && Fenced(n.sys) && Sound(n.sys.db) && SoundTable(n.table) && GrantsOwned(n.table, n.sys.db)
    && SetsSound(n.table, n.sys.db, n.sets)
    && RunsSound(n.table, n.sets, n.runs)
    && DispatchersSound(n.table, n.sets, n.runs, n.dispatchers)
    && DeliveriesSound(n.table, n.sets, n.runs, n.sys.db.outbox)
  }

  // ---- what the watch service may do underneath ---------------------------------------------

  /** Watches stay, keep policy and root, and the outbox only grows by undelivered wakes. */
  predicate Grows(db: Db, db': Db) {
    && db.rows.Keys <= db'.rows.Keys
    && (forall w :: w in db.rows ==> db'.rows[w].policy == db.rows[w].policy)
    && (forall w :: w in db.rows ==> Root(db'.grants, w) == Root(db.grants, w))
    && |db.outbox| <= |db'.outbox| && db'.outbox[..|db.outbox|] == db.outbox
    && (forall i :: |db.outbox| <= i < |db'.outbox| ==> db'.outbox[i].deliveredAt.None?)
  }

  lemma {:induction false} PollGrows(db: Db, w: WatchId, now: Time, resp: Response)
    ensures Grows(db, AtomicPoll(db, w, now, resp).0)
  {
  }

  lemma {:induction false} RebaselineGrows(db: Db, req: RebaselineRequest, owner: Option<Owner>)
    requires RowsExact(db.rows, db.seen, Wakes(db.outbox), db.polls)
    ensures Grows(db, RebaselineWatch(db, req, owner).0)
  {
    RebaselineShape(db, req, owner);
    var (db', outcome) := RebaselineWatch(db, req, owner);
    if outcome.Granted? {
      forall w | w in db.rows ensures Root(db'.grants, w) == Root(db.grants, w) {
        RootGrows(db.grants, outcome.grant, w);
      }
    }
  }

  lemma {:induction false} OpGrows(db: Db, op: Op)
    requires RowsExact(db.rows, db.seen, Wakes(db.outbox), db.polls) && !op.Deliver?
    ensures Grows(db, Apply(db, op))
  {
    match op
    case Create(_, _, _) =>
    case Claim(w, now, token, timeout) => ClaimShape(db, w, now, token, timeout);
    case Poll(w, now, resp) => PollGrows(db, w, now, resp);
    case Cancel(w, at) => CancelShape(db, w, at);
    case Rebaseline(req, owner) => RebaselineGrows(db, req, owner);
  }

  lemma {:induction false} ActionGrows(s: Sys, a: Action)
    requires Fenced(s) && Sound(s.db) && (a.External? ==> !a.op.Deliver?)
    ensures Fenced(Next(s, a)) && Sound(Next(s, a).db) && Grows(s.db, Next(s, a).db)
  {
    StepStaysFenced(s, a);
    StepIsSequential(s, a);
    var ops := Abstract(s, a);
    if ops != [] {
      assert ops[1..] == [];
      StepStaysSound(s.db, ops[0]);
      OpGrows(s.db, ops[0]);
      assert RunOps(s.db, ops) == Apply(s.db, ops[0]);
    }
  }

  /** A step adds no grant, or one whose owner the owner lookup has just found. */
  predicate OneGrantMore(t: seq<Admission>, db: Db, db': Db) {
    db'.grants != db.grants ==>
      && |db'.grants| == |db.grants| + 1 && db'.grants[..|db.grants|] == db.grants
      && var g := db'.grants[|db.grants|];
         g.original in db.rows && OwnerFor(t, db, g.original) == Some(g.owner)
  }

  /** The owner of a rebaseline, wherever there is one, is what the lookup finds. */
  predicate OwnerLookedUp(t: seq<Admission>, db: Db, op: Op) {
    op.Rebaseline? ==> op.owner == OwnerFor(t, db, op.req.original)
  }

  lemma {:induction false} OpGrants(t: seq<Admission>, db: Db, op: Op)
    requires Sound(db) && OwnerLookedUp(t, db, op)
    ensures OneGrantMore(t, db, Apply(db, op))
  {
    match op
    case Create(p, createdAt, cutoff) =>
    case Claim(w, now, token, timeout) => ClaimShape(db, w, now, token, timeout);
    case Poll(w, now, resp) => PollShape(db, w, now, resp);
    case Cancel(w, at) => CancelShape(db, w, at);
    case Deliver(wake, at) => DeliverShape(db, wake, at);
    case Rebaseline(req, owner) => RebaselineGrants(t, db, req, owner);
  }

  lemma {:induction false} RebaselineGrants(t: seq<Admission>, db: Db, req: RebaselineRequest, owner: Option<Owner>)
    requires owner == OwnerFor(t, db, req.original)
    ensures OneGrantMore(t, db, RebaselineWatch(db, req, owner).0)
  {
    var (db', outcome) := RebaselineWatch(db, req, owner);
    if outcome.Granted? {
      assert OwnerFor(t, db, outcome.grant.original) == Some(outcome.grant.owner);
    }
  }

  lemma {:induction false} ActionGrants(t: seq<Admission>, s: Sys, a: Action)
    requires Fenced(s) && Sound(s.db) && (a.External? ==> OwnerLookedUp(t, s.db, a.op))
    ensures OneGrantMore(t, s.db, Next(s, a).db)
  {
    StepIsSequential(s, a);
    var ops := Abstract(s, a);
    if ops != [] {
      assert ops[1..] == [];
      OpGrants(t, s.db, ops[0]);
      assert RunOps(s.db, ops) == Apply(s.db, ops[0]);
    }
  }

  /** An owner that the lookup finds is an owner row, and stays one. */
  lemma {:induction false} FoundOwnerIsOwner(t: seq<Admission>, db: Db, g: Grant)
    requires g.original in db.rows && OwnerFor(t, db, g.original) == Some(g.owner)
    ensures GrantOwned(t, db, g)
  {
    var root := Root(db.grants, g.original);
    var first := Earliest(t, (a: Admission) => Owns(a, root));
    assert first.value in OwnerRows(t, root);
  }

  lemma {:induction false} GrantsStayOwned(t: seq<Admission>, db: Db, db': Db)
    requires GrantsOwned(t, db) && Grows(db, db') && OneGrantMore(t, db, db')
    ensures GrantsOwned(t, db')
  {
    forall i | 0 <= i < |db'.grants| ensures GrantOwned(t, db', db'.grants[i]) {
      var g := db'.grants[i];
      if i < |db.grants| {
        assert g == db'.grants[..|db.grants|][i];
      } else {
        FoundOwnerIsOwner(t, db, g);
      }
      assert GrantOwned(t, db, g);
    }
  }

  lemma {:induction false} WakeIndexGrows(a: seq<OutboxRow>, b: seq<OutboxRow>, wake: Wake)
    requires |a| <= |b| && forall i :: 0 <= i < |a| ==> b[i].wake == a[i].wake
    requires WakeIndex(a, wake) < |a|
    ensures WakeIndex(b, wake) < |b|
  {
  }

  lemma {:induction false} SetsSurvive(t: seq<Admission>, db: Db, db': Db, sets: map<Wake, seq<Id>>)
    requires SetsSound(t, db, sets) && db.rows.Keys <= db'.rows.Keys
    requires forall w :: w in db.rows ==> Root(db'.grants, w) == Root(db.grants, w)
    requires |db.outbox| <= |db'.outbox| && forall i :: 0 <= i < |db.outbox| ==> db'.outbox[i].wake == db.outbox[i].wake
    ensures SetsSound(t, db', sets)
  {
    forall w | w in sets ensures SetSound(t, db', w, sets[w]) {
      assert SetSound(t, db, w, sets[w]);
      WakeIndexGrows(db.outbox, db'.outbox, w);
    }
  }

  lemma {:induction false} DeliveriesOutlive(
      t: seq<Admission>, sets: map<Wake, seq<Id>>, runs: map<RunId, RunRec>, box: seq<OutboxRow>, box': seq<OutboxRow>)
    requires DeliveriesSound(t, sets, runs, box)
    requires |box| <= |box'| && box'[..|box|] == box
    requires forall i :: |box| <= i < |box'| ==> box'[i].deliveredAt.None?
    ensures DeliveriesSound(t, sets, runs, box')
  {
    forall i | 0 <= i < |box'| && box'[i].deliveredAt.Some? ensures FullyDispatched(t, sets, runs, box'[i].wake) {
      assert box'[i] == box'[..|box|][i] && box[i].deliveredAt.Some?;
    }
  }

  lemma {:induction false} SysStepStaysSound(n: Net, sys: Sys)
    requires NetSound(n) && Fenced(sys) && Sound(sys.db) && Grows(n.sys.db, sys.db)
    requires OneGrantMore(n.table, n.sys.db, sys.db)
    ensures NetSound(n.(sys := sys))
  {
    GrantsStayOwned(n.table, n.sys.db, sys.db);
    GrownDbKeepsSets(n.table, n.sets, n.runs, n.sys.db, sys.db);
  }

  lemma {:induction false} GrownDbKeepsSets(t: seq<Admission>, sets: map<Wake, seq<Id>>, runs: map<RunId, RunRec>, db: Db, db': Db)
    requires SetsSound(t, db, sets) && DeliveriesSound(t, sets, runs, db.outbox) && Grows(db, db')
    ensures SetsSound(t, db', sets) && DeliveriesSound(t, sets, runs, db'.outbox)
  {
    forall i | 0 <= i < |db.outbox| ensures db'.outbox[i].wake == db.outbox[i].wake {
      assert db'.outbox[i] == db'.outbox[..|db.outbox|][i];
    }
    SetsSurvive(t, db, db', sets);
    DeliveriesOutlive(t, sets, runs, db.outbox, db'.outbox);
  }

  // ---- the table grows ---------------------------------------------------------------------

  lemma {:induction false} ByIdGrows(t: seq<Admission>, a: Admission, id: Id)
    requires ById(t, id).Some?
    ensures ById(t + [a], id) == ById(t, id)
  {
    assert (t + [a])[0] == t[0] && (t + [a])[1..] == t[1..] + [a];
    if t[0].id != id {
      ByIdGrows(t[1..], a, id);
    }
  }

  lemma {:induction false} TableGrowthStaysSound(n: Net, a: Admission)
    requires NetSound(n) && SoundTable(n.table + [a])
    ensures NetSound(n.(table := n.table + [a]))
  {
    var t, t' := n.table, n.table + [a];
    forall id | ById(t, id).Some? ensures ById(t', id) == ById(t, id) {
      ByIdGrows(t, a, id);
    }
    GrantsKeepOwners(t, a, n.sys.db);
    SetsKeepIds(t, t', n.sys.db, n.sets);
    RunsKeepIds(t, t', n.sets, n.runs);
    DispatchersKeepIds(t, t', n.sets, n.runs, n.dispatchers);
    DeliveriesKeepIds(t, t', n.sets, n.runs, n.sys.db.outbox);
  }

  lemma {:induction false} GrantsKeepOwners(t: seq<Admission>, a: Admission, db: Db)
    requires GrantsOwned(t, db)
    ensures GrantsOwned(t + [a], db)
  {
    forall i | 0 <= i < |db.grants| ensures GrantOwned(t + [a], db, db.grants[i]) {
      var g := db.grants[i];
      assert GrantOwned(t, db, g);
      var root := Root(db.grants, g.original);
      var o :| o in OwnerRows(t, root) && SpeaksFor(o, db.rows[root].policy) && OwnerIn(o) == g.owner;
      assert o in OwnerRows(t + [a], root);
    }
  }

  ghost predicate KeepsIds(t: seq<Admission>, t': seq<Admission>) {
    forall id {:trigger ById(t, id)} {:trigger ById(t', id)} :: ById(t, id).Some? ==> ById(t', id) == ById(t, id)
  }

  lemma {:induction false} SetsKeepIds(t: seq<Admission>, t': seq<Admission>, db: Db, sets: map<Wake, seq<Id>>)
    requires KeepsIds(t, t') && SetsSound(t, db, sets)
    ensures SetsSound(t', db, sets)
  {
    forall w | w in sets ensures SetSound(t', db, w, sets[w]) {
      assert SetSound(t, db, w, sets[w]);
    }
  }

  lemma {:induction false} RunsKeepIds(t: seq<Admission>, t': seq<Admission>, sets: map<Wake, seq<Id>>, runs: map<RunId, RunRec>)
    requires KeepsIds(t, t') && RunsSound(t, sets, runs)
    ensures RunsSound(t', sets, runs)
  {
    forall r | r in runs ensures RunSound(t', sets, r, runs[r]) {
      assert RunSound(t, sets, r, runs[r]);
    }
  }

  lemma {:induction false} DispatchersKeepIds(t: seq<Admission>, t': seq<Admission>, sets: map<Wake, seq<Id>>, runs: map<RunId, RunRec>,
                           ds: map<nat, Dispatcher>)
    requires KeepsIds(t, t') && DispatchersSound(t, sets, runs, ds)
    ensures DispatchersSound(t', sets, runs, ds)
  {
    forall id | id in ds ensures DispatcherSound(t', sets, runs, ds[id]) {
      assert DispatcherSound(t, sets, runs, ds[id]);
    }
  }

  lemma {:induction false} DeliveriesKeepIds(t: seq<Admission>, t': seq<Admission>, sets: map<Wake, seq<Id>>, runs: map<RunId, RunRec>,
                          outbox: seq<OutboxRow>)
    requires KeepsIds(t, t') && DeliveriesSound(t, sets, runs, outbox)
    ensures DeliveriesSound(t', sets, runs, outbox)
  {
  }

  /** An admission leaves the table as it is or adds one row, and keeps it sound. */
  lemma {:induction false} AdmitAddsOneRow(n: Net, c: Candidate, precheck: Option<nat>) returns (a: Admission)
    requires SoundTable(n.table) && Offered(c)
    ensures var n' := NetStep(n, Admit(c, precheck));
      n' == n || (n' == n.(table := n.table + [a]) && SoundTable(n.table + [a]))
  {
    a := if precheck.Some? then Reject(c, Precheck(precheck.value)) else Decide(n.table, n.sys.db.rows, c);
    if precheck.None? { DecisionIsSane(n.table, n.sys.db.rows, c); }
    InsertStaysSound(n.table, a);
  }

  lemma {:induction false} AdmitStaysSound(n: Net, c: Candidate, precheck: Option<nat>)
    requires NetSound(n) && Offered(c)
    ensures NetSound(NetStep(n, Admit(c, precheck)))
  {
    var a := AdmitAddsOneRow(n, c, precheck);
    if NetStep(n, Admit(c, precheck)) != n { TableGrowthStaysSound(n, a); }
  }

  /** An activation is a creation by the watch service, or nothing at all. */
  lemma {:induction false} ActivationIsCreation(n: Net, i: nat, cutoff: Time) returns (op: Option<Op>)
    requires i < |n.table|
    ensures var n' := NetStep(n, ActivateWatch(i, cutoff));
      if op.None? then n' == n
      else op.value.Create? && n' == n.(sys := Next(n.sys, External(op.value)))
  {
    var db, a := n.sys.db, n.table[i];
    op := None;
    if a.outcome.Rejected? || a.watch.None? || a.watch.value in db.rows { return; }
    var owner := Earliest(n.table, (o: Admission) => Owns(o, a.watch.value));
    if owner.Some? {
      op := Some(Create(owner.value.policy.value, owner.value.admittedAt, cutoff));
    }
  }

  lemma {:induction false} ActivateStaysSound(n: Net, i: nat, cutoff: Time)
    requires NetSound(n) && i < |n.table|
    ensures NetSound(NetStep(n, ActivateWatch(i, cutoff)))
  {
    var op := ActivationIsCreation(n, i, cutoff);
    if op.Some? {
      ActionGrows(n.sys, External(op.value));
      ActionGrants(n.table, n.sys, External(op.value));
      SysStepStaysSound(n, Next(n.sys, External(op.value)));
    }
  }

  // ---- dispatch ------------------------------------------------------------------------------

  /** Runs are never removed or reconfigured, and their first event never changes. */
  predicate RunsGrow(runs: map<RunId, RunRec>, runs': map<RunId, RunRec>) {
    forall r :: r in runs ==>
      && r in runs' && runs'[r].config == runs[r].config
      && (runs[r].events != [] ==> runs'[r].events != [] && runs'[r].events[0] == runs[r].events[0])
  }

  lemma {:induction false} RunsGrowthStaysSound(n: Net, runs: map<RunId, RunRec>)
    requires NetSound(n) && RunsGrow(n.runs, runs) && RunsSound(n.table, n.sets, runs)
    ensures NetSound(n.(runs := runs))
  {
    DispatchersSurvive(n.table, n.sets, n.runs, runs, n.dispatchers);
    DeliveriesSurvive(n.table, n.sets, n.runs, runs, n.sys.db.outbox);
  }

  lemma {:induction false} DispatchersSurvive(t: seq<Admission>, sets: map<Wake, seq<Id>>, runs: map<RunId, RunRec>,
                           runs': map<RunId, RunRec>, ds: map<nat, Dispatcher>)
    requires DispatchersSound(t, sets, runs, ds) && RunsGrow(runs, runs')
    ensures DispatchersSound(t, sets, runs', ds)
  {
    forall id | id in ds ensures DispatcherSound(t, sets, runs', ds[id]) {
      assert DispatcherSound(t, sets, runs, ds[id]);
    }
  }

  lemma {:induction false} DeliveriesSurvive(t: seq<Admission>, sets: map<Wake, seq<Id>>, runs: map<RunId, RunRec>,
                          runs': map<RunId, RunRec>, outbox: seq<OutboxRow>)
    requires DeliveriesSound(t, sets, runs, outbox) && RunsGrow(runs, runs')
    ensures DeliveriesSound(t, sets, runs', outbox)
  {
    forall i | 0 <= i < |outbox| && outbox[i].deliveredAt.Some? ensures FullyDispatched(t, sets, runs', outbox[i].wake) {
      assert FullyDispatched(t, sets, runs, outbox[i].wake);
    }
  }

  lemma {:induction false} RunUpdateStaysSound(t: seq<Admission>, sets: map<Wake, seq<Id>>, runs: map<RunId, RunRec>, r: RunId, run: RunRec)
    requires RunsSound(t, sets, runs) && RunSound(t, sets, r, run)
    ensures RunsSound(t, sets, runs[r := run])
  {
    var runs' := runs[r := run];
    forall q | q in runs' ensures RunSound(t, sets, q, runs'[q]) {
      if q != r { assert RunSound(t, sets, q, runs[q]); }
    }
  }

  lemma {:induction false} DispatcherUpdateStaysSound(n: Net, id: nat, d: Dispatcher, locks: map<RunId, nat>)
    requires NetSound(n) && DispatcherSound(n.table, n.sets, n.runs, d)
    ensures NetSound(n.(dispatchers := n.dispatchers[id := d], locks := locks))
  {
    var ds := n.dispatchers[id := d];
    forall k | k in ds ensures DispatcherSound(n.table, n.sets, n.runs, ds[k]) {
      if k != id { assert DispatcherSound(n.table, n.sets, n.runs, n.dispatchers[k]); }
    }
  }

  lemma {:induction false} AbandonStaysSound(n: Net, id: nat)
    requires NetSound(n)
    ensures NetSound(Abandon(n, id))
  {
    var ds := n.dispatchers - {id};
    forall k | k in ds ensures DispatcherSound(n.table, n.sets, n.runs, ds[k]) {
      assert DispatcherSound(n.table, n.sets, n.runs, n.dispatchers[k]);
    }
  }

  lemma {:induction false} AdvanceStaysSound(n: Net, id: nat)
    requires NetSound(n) && id in n.dispatchers && n.dispatchers[id].done < |n.dispatchers[id].bindings|
    requires Durable(n.runs, n.dispatchers[id].bindings[n.dispatchers[id].done])
    ensures NetSound(Advance(n, id))
  {
    var d := n.dispatchers[id];
    assert DispatcherSound(n.table, n.sets, n.runs, d);
    DispatcherUpdateStaysSound(n, id, d.(done := d.done + 1, phase := Idle), Unlock(n.locks, id));
  }

  /** The admissions that a lookup finds for a watch, all of them and each once. */
  lemma {:induction false} CallbacksAreTheAccepted(t: seq<Admission>, root: WatchId, a: Admission)
    ensures a in Callbacks(t, root) <==> a in t && Accepted(a) && a.watch == Some(root)
  {
    InOrderSelects(t, (x: Admission) => Accepted(x) && x.watch == Some(root), a);
  }

  lemma {:induction false} SelectedOnce(t: seq<Admission>, p: Admission -> bool, a: Admission)
    requires OneDecisionPerKey(t)
    ensures multiset(InOrder(t, p))[a] <= 1
  {
    if t != [] {
      var last, rest := t[|t| - 1], t[..|t| - 1];
      SelectedOnce(rest, p, a);
      InOrderSelects(rest, p, last);
      assert last !in rest;
    }
  }

  lemma {:induction false} CallbacksAppearOnce(t: seq<Admission>, root: WatchId, a: Admission)
    requires OneDecisionPerKey(t)
    ensures multiset(Callbacks(t, root))[a] <= 1
  {
    SelectedOnce(t, (x: Admission) => Accepted(x) && x.watch == Some(root), a);
  }

  lemma {:induction false} TwiceCounts<T>(s: seq<T>, i: int, j: int)
    requires 0 <= i < j < |s| && s[i] == s[j]
    ensures multiset(s)[s[i]] >= 2
  {
    assert s == s[..j] + s[j..];
    assert s[i] in s[..j] && s[j..][0] == s[i];
    assert s[i] in multiset(s[..j]) && s[i] in multiset(s[j..]);
    assert multiset(s) == multiset(s[..j]) + multiset(s[j..]);
  }

  lemma {:induction false} LookupIsSound(t: seq<Admission>, root: WatchId)
    requires OneDecisionPerKey(t)
    ensures var ids := Ids(Callbacks(t, root)); Distinct(ids) && IdsAreKnown(t, root, ids)
  {
    var as', ids := Callbacks(t, root), Ids(Callbacks(t, root));
    forall i | 0 <= i < |as'|
      ensures ById(t, ids[i]) == Some(as'[i]) && Accepted(as'[i]) && as'[i].watch == Some(root)
    {
      CallbacksAreTheAccepted(t, root, as'[i]);
      var k :| 0 <= k < |t| && t[k] == as'[i];
      var found := ById(t, ids[i]).value;
      var m :| 0 <= m < |t| && t[m] == found;
      assert t[k].id == t[m].id;
    }
    forall i, j | 0 <= i < j < |ids| ensures ids[i] != ids[j] {
      if ids[i] == ids[j] {
        assert as'[i] == as'[j];
        TwiceCounts(as', i, j);
        CallbacksAppearOnce(t, root, as'[i]);
        assert false;
      }
    }
  }

  /** Reopening a frozen set never misses an admission, however many came later. */
  lemma {:induction false} ReopenNeverFails(t: seq<Admission>, db: Db, wake: Wake, ids: seq<Id>)
    requires SetSound(t, db, wake, ids)
    ensures forall id :: id in ids ==> id in Ids(Callbacks(t, Root(db.grants, wake.watchId)))
  {
    var root := Root(db.grants, wake.watchId);
    var as' := Callbacks(t, root);
    forall id | id in ids ensures id in Ids(as') {
      var a := ById(t, id).value;
      CallbacksAreTheAccepted(t, root, a);
      var k :| 0 <= k < |as'| && as'[k] == a;
      assert Ids(as')[k] == id;
    }
  }

  lemma {:induction false} FreezeKeepsSets(t: seq<Admission>, db: Db, sets: map<Wake, seq<Id>>, wake: Wake, ids: seq<Id>)
    requires SetsSound(t, db, sets) && SetSound(t, db, wake, ids)
    ensures SetsSound(t, db, sets[wake := ids])
  {
    var sets' := sets[wake := ids];
    forall w | w in sets' ensures SetSound(t, db, w, sets'[w]) {
      if w != wake { assert SetSound(t, db, w, sets[w]); }
    }
  }

  lemma {:induction false} FreezeKeepsRuns(
      t: seq<Admission>, sets: map<Wake, seq<Id>>, runs: map<RunId, RunRec>, wake: Wake, ids: seq<Id>)
    requires wake !in sets && RunsSound(t, sets, runs)
    ensures RunsSound(t, sets[wake := ids], runs)
  {
    forall r | r in runs ensures RunSound(t, sets[wake := ids], r, runs[r]) { assert RunSound(t, sets, r, runs[r]); }
  }

  lemma {:induction false} FreezeKeepsDispatchers(
      t: seq<Admission>, sets: map<Wake, seq<Id>>, runs: map<RunId, RunRec>, ds: map<nat, Dispatcher>, wake: Wake,
      ids: seq<Id>)
    requires wake !in sets && DispatchersSound(t, sets, runs, ds)
    ensures DispatchersSound(t, sets[wake := ids], runs, ds)
  {
    forall k | k in ds ensures DispatcherSound(t, sets[wake := ids], runs, ds[k]) {
      assert DispatcherSound(t, sets, runs, ds[k]);
    }
  }

  lemma {:induction false} FreezeKeepsDeliveries(
      t: seq<Admission>, sets: map<Wake, seq<Id>>, runs: map<RunId, RunRec>, box: seq<OutboxRow>, wake: Wake,
      ids: seq<Id>)
    requires wake !in sets && DeliveriesSound(t, sets, runs, box)
    ensures DeliveriesSound(t, sets[wake := ids], runs, box)
  {
    forall i | 0 <= i < |box| && box[i].deliveredAt.Some?
      ensures FullyDispatched(t, sets[wake := ids], runs, box[i].wake)
    {
      assert FullyDispatched(t, sets, runs, box[i].wake);
    }
  }

  lemma {:induction false} FreezeStaysSound(n: Net, wake: Wake, ids: seq<Id>)
    requires NetSound(n) && wake !in n.sets && SetSound(n.table, n.sys.db, wake, ids)
    ensures NetSound(n.(sets := n.sets[wake := ids]))
  {
    FreezeKeepsSets(n.table, n.sys.db, n.sets, wake, ids);
    FreezeKeepsRuns(n.table, n.sets, n.runs, wake, ids);
    FreezeKeepsDispatchers(n.table, n.sets, n.runs, n.dispatchers, wake, ids);
    FreezeKeepsDeliveries(n.table, n.sets, n.runs, n.sys.db.outbox, wake, ids);
  }

  lemma {:induction false} LookupSetSound(n: Net, wake: Wake)
    requires NetSound(n) && WakeIndex(n.sys.db.outbox, wake) < |n.sys.db.outbox|
    ensures var available := Ids(Callbacks(n.table, Root(n.sys.db.grants, wake.watchId)));
      var ids := if wake in n.sets then n.sets[wake] else available;
      ids != [] ==> SetSound(n.table, n.sys.db, wake, ids)
  {
    var db := n.sys.db;
    if wake in n.sets {
      assert SetSound(n.table, db, wake, n.sets[wake]);
    } else {
      LookupIsSound(n.table, Root(db.grants, wake.watchId));
      assert SaneWake(Wakes(db.outbox)[WakeIndex(db.outbox, wake)], db.rows);
    }
  }

  lemma {:induction false} ResolveStaysSound(n: Net, id: nat, wake: Wake)
    requires NetSound(n)
    ensures NetSound(Resolve(n, id, wake))
  {
    assert NetSound(n.(resolved := n.resolved[id := wake]));
  }

  lemma {:induction false} ForgetStaysSound(n: Net, id: nat)
    requires NetSound(n)
    ensures NetSound(n.(resolved := n.resolved - {id}))
  {
  }

  lemma {:induction false} FrozenDispatcherIsSound(n: Net, id: nat, wake: Wake, ids: seq<Id>, at: Time)
    requires NetSound(n) && SetSound(n.table, n.sys.db, wake, ids) && (wake in n.sets ==> n.sets[wake] == ids)
    ensures NetSound(n.(sets := n.sets[wake := ids],
                        dispatchers := n.dispatchers[id := Dispatcher(wake, BindingsFor(n.table, wake, ids), 0, Idle, at)]))
  {
    ReopenOrFreezeStaysSound(n, wake, ids);
    var mid := n.(sets := n.sets[wake := ids]);
    NewDispatcherIsSound(mid, wake, ids, at);
    DispatcherUpdateStaysSound(mid, id, Dispatcher(wake, BindingsFor(n.table, wake, ids), 0, Idle, at), n.locks);
  }

  lemma {:induction false} BeginStaysSound(n: Net, id: nat, wake: Wake, at: Time)
    requires NetSound(n)
    ensures NetSound(Begin(n, id, wake, at))
  {
    var n0 := n.(resolved := n.resolved - {id});
    ForgetStaysSound(n, id);
    var n' := Begin(n, id, wake, at);
    if n' != n && n' != n0 {
      var available := Ids(Callbacks(n.table, Root(n.sys.db.grants, wake.watchId)));
      var ids := if wake in n.sets then n.sets[wake] else available;
      LookupSetSound(n, wake);
      FrozenDispatcherIsSound(n0, id, wake, ids, at);
    }
  }

  lemma {:induction false} ReopenOrFreezeStaysSound(n: Net, wake: Wake, ids: seq<Id>)
    requires NetSound(n) && SetSound(n.table, n.sys.db, wake, ids) && (wake in n.sets ==> n.sets[wake] == ids)
    ensures NetSound(n.(sets := n.sets[wake := ids]))
  {
    if wake in n.sets {
      assert n.sets[wake := ids] == n.sets;
    } else {
      FreezeStaysSound(n, wake, ids);
    }
  }

  lemma {:induction false} NewDispatcherIsSound(n: Net, wake: Wake, ids: seq<Id>, at: Time)
    requires SetSound(n.table, n.sys.db, wake, ids) && wake in n.sets && n.sets[wake] == ids
    ensures DispatcherSound(n.table, n.sets, n.runs, Dispatcher(wake, BindingsFor(n.table, wake, ids), 0, Idle, at))
  {
  }

  lemma {:induction false} StartStaysSound(n: Net, id: nat)
    requires NetSound(n) && id in n.dispatchers
    ensures NetSound(StartRun(n, id))
  {
    var d := n.dispatchers[id];
    assert DispatcherSound(n.table, n.sets, n.runs, d);
    if !d.phase.Locked? || d.done >= |d.bindings| { return; }
    var b := d.bindings[d.done];
    var r := RunIdOf(b);
    if r !in n.runs {
      assert n.sets[d.wake][d.done] in n.sets[d.wake];
      var run := RunRec(b, false, []);
      RunUpdateStaysSound(n.table, n.sets, n.runs, r, run);
      RunsGrowthStaysSound(n, n.runs[r := run]);
      DispatcherUpdateStaysSound(n.(runs := n.runs[r := run]), id, d.(phase := Started), n.locks);
      assert DispatcherSound(n.table, n.sets, n.runs[r := run], d);
    } else {
      assert RunSound(n.table, n.sets, r, n.runs[r]);
      if !n.runs[r].finished {
        DispatcherUpdateStaysSound(n, id, d.(phase := Started), n.locks);
      } else {
        AdvanceStaysSound(n, id);
      }
    }
  }

  lemma {:induction false} AppendStaysSound(n: Net, id: nat)
    requires NetSound(n) && id in n.dispatchers
    ensures NetSound(AppendBinding(n, id))
  {
    var d := n.dispatchers[id];
    assert DispatcherSound(n.table, n.sets, n.runs, d);
    if !d.phase.Started? || d.done >= |d.bindings| { return; }
    var b := d.bindings[d.done];
    var r := RunIdOf(b);
    if r !in n.runs || n.runs[r].finished {
      AbandonStaysSound(n, id);
    } else {
      var run := n.runs[r];
      assert RunSound(n.table, n.sets, r, run);
      if !HasBindingEvent(run.events) {
        assert run.events == [];
        var runs := n.runs[r := run.(events := run.events + [Bound(b)])];
        RunUpdateStaysSound(n.table, n.sets, n.runs, r, runs[r]);
        RunsGrowthStaysSound(n, runs);
        AdvanceStaysSound(n.(runs := runs), id);
      } else {
        assert run.events[0] == Bound(b);
        AdvanceStaysSound(n, id);
      }
    }
  }

  lemma {:induction false} AwaitStaysSound(n: Net, id: nat)
    requires NetSound(n) && id in n.dispatchers
    ensures NetSound(AwaitRun(n, id))
  {
    var d := n.dispatchers[id];
    assert DispatcherSound(n.table, n.sets, n.runs, d);
    if !d.phase.Waiting? || d.done >= |d.bindings| { return; }
    var b := d.bindings[d.done];
    var r := RunIdOf(b);
    if r in n.runs && HasBindingEvent(n.runs[r].events) {
      assert RunSound(n.table, n.sets, r, n.runs[r]);
      AdvanceStaysSound(n, id);
    }
  }

  lemma {:induction false} ClaimingStaysSound(n: Net, id: nat)
    requires NetSound(n) && id in n.dispatchers
    ensures NetSound(TryClaim(n, id))
  {
    var d := n.dispatchers[id];
    assert DispatcherSound(n.table, n.sets, n.runs, d);
    if d.phase.Idle? && d.done < |d.bindings| {
      var r := RunIdOf(d.bindings[d.done]);
      if r in n.locks {
        DispatcherUpdateStaysSound(n, id, d.(phase := Waiting), n.locks);
      } else {
        DispatcherUpdateStaysSound(n, id, d.(phase := Locked), n.locks[r := id]);
      }
    }
  }

  lemma {:induction false} DeliveryStaysSound(n: Net, wake: Wake, at: Time)
    requires NetSound(n) && FullyDispatched(n.table, n.sets, n.runs, wake)
    ensures NetSound(n.(sys := n.sys.(db := StampDelivered(n.sys.db, wake, at))))
  {
    var db, db' := n.sys.db, StampDelivered(n.sys.db, wake, at);
    DeliveryKeepsBooks(db, wake, at, db');
    DeliverKeepsWakes(db, wake, at);
    SameRowsStayFenced(n.sys, db');
    GrantsStayOwned(n.table, db, db.(outbox := db.outbox));
    SetsSurvive(n.table, db, db', n.sets);
    forall i | 0 <= i < |db'.outbox| && db'.outbox[i].deliveredAt.Some?
      ensures FullyDispatched(n.table, n.sets, n.runs, db'.outbox[i].wake)
    {
      if db'.outbox[i].wake != wake { assert db'.outbox[i] == db.outbox[i]; }
    }
  }

  lemma {:induction false} SameRowsStayFenced(s: Sys, db: Db)
    requires Fenced(s) && db.rows == s.db.rows && db.seen == s.db.seen
    ensures Fenced(s.(db := db))
  {
    forall id | id in s.workers ensures Current(db, s.workers[id]) {
      assert Current(s.db, s.workers[id]);
    }
  }

  lemma {:induction false} DeliveryKeepsBooks(db: Db, wake: Wake, at: Time, db': Db)
    requires Sound(db) && db' == StampDelivered(db, wake, at)
    ensures Sound(db')
  {
    DeliverStaysExact(db, wake, at);
    DeliverStaysLinked(db, wake, at);
    DeliverShape(db, wake, at);
    QuietStepStaysTallied(db, db');
  }

  lemma {:induction false} DeliverKeepsWakes(db: Db, wake: Wake, at: Time)
    ensures var db' := StampDelivered(db, wake, at);
      && db'.rows == db.rows && db'.seen == db.seen && db'.grants == db.grants && |db'.outbox| == |db.outbox|
      && forall i :: 0 <= i < |db.outbox| ==>
           db'.outbox[i].wake == db.outbox[i].wake && (db.outbox[i].wake != wake ==> db'.outbox[i] == db.outbox[i])
  {
  }

  lemma {:induction false} MarkingStaysSound(n: Net, id: nat)
    requires NetSound(n) && id in n.dispatchers
    ensures NetSound(MarkDone(n, id))
  {
    var d := n.dispatchers[id];
    assert DispatcherSound(n.table, n.sets, n.runs, d);
    if d.phase.Idle? && d.done >= |d.bindings| {
      if ReadDelivery(n.sys.db.outbox, d.wake, d.at).StillPending? {
        DispatcherUpdateStaysSound(n, id, d.(phase := Delivering), n.locks);
      } else {
        AbandonStaysSound(n, id);
      }
    }
  }

  lemma {:induction false} WritingStaysSound(n: Net, id: nat)
    requires NetSound(n) && id in n.dispatchers
    ensures NetSound(WriteDelivery(n, id))
  {
    var d := n.dispatchers[id];
    assert DispatcherSound(n.table, n.sets, n.runs, d);
    if d.phase.Delivering? {
      forall x | x in n.sets[d.wake]
        ensures ById(n.table, x).Some? && Durable(n.runs, RunBinding(d.wake, ById(n.table, x).value))
      {
        var i :| 0 <= i < |n.sets[d.wake]| && n.sets[d.wake][i] == x;
        assert Durable(n.runs, d.bindings[i]);
      }
      DeliveryStaysSound(n, d.wake, d.at);
      AbandonStaysSound(n.(sys := n.sys.(db := StampDelivered(n.sys.db, d.wake, d.at))), id);
    }
  }

  lemma {:induction false} RunEventStaysSound(n: Net, a: NetAction)
    requires NetSound(n) && (a.JudgmentEvent? || a.FinishRun?)
    ensures NetSound(NetStep(n, a))
  {
    if Reopenable(n, a.r) {
      var run := n.runs[a.r];
      assert RunSound(n.table, n.sets, a.r, run);
      var run' := if a.JudgmentEvent? then run.(events := run.events + [Judgment(a.note)]) else run.(finished := true);
      RunUpdateStaysSound(n.table, n.sets, n.runs, a.r, run');
      RunsGrowthStaysSound(n, n.runs[a.r := run']);
    }
  }

  predicate OfDispatcher(a: NetAction) {
    a.Claiming? || a.Starting? || a.Appending? || a.Awaiting? || a.Marking? || a.Writing? || a.Dropping?
  }

  lemma {:induction false} RunStepStaysSound(n: Net, a: NetAction)
    requires NetSound(n) && (a.Starting? || a.Appending? || a.Marking? || a.Writing?)
    ensures NetSound(NetStep(n, a))
  {
    if a.id in n.dispatchers {
      match a
      case Starting(id) => StartStaysSound(n, id);
      case Appending(id) => AppendStaysSound(n, id);
      case Marking(id) => MarkingStaysSound(n, id);
      case Writing(id) => WritingStaysSound(n, id);
    }
  }

  lemma {:induction false} ClaimStepStaysSound(n: Net, a: NetAction)
    requires NetSound(n) && (a.Claiming? || a.Awaiting? || a.Dropping?)
    ensures NetSound(NetStep(n, a))
  {
    if a.Dropping? {
      AbandonStaysSound(n, a.id);
    } else if a.id in n.dispatchers {
      match a
      case Claiming(id) => ClaimingStaysSound(n, id);
      case Awaiting(id) => AwaitStaysSound(n, id);
    }
  }

  lemma {:induction false} WatchStepStaysSound(n: Net, w: Action)
    requires NetSound(n)
    ensures NetSound(NetStep(n, WatchStep(w)))
  {
    if Permitted(n, w) {
      ActionGrows(n.sys, w);
      ActionGrants(n.table, n.sys, w);
      SysStepStaysSound(n, Next(n.sys, w));
    }
  }

  lemma {:induction false} NetStepStaysSound(n: Net, a: NetAction)
    requires NetSound(n)
    ensures NetSound(NetStep(n, a))
  {
    if a.Claiming? || a.Awaiting? || a.Dropping? {
      ClaimStepStaysSound(n, a);
    } else if OfDispatcher(a) {
      RunStepStaysSound(n, a);
    } else {
      match a
      case WatchStep(w) => WatchStepStaysSound(n, w);
      case Admit(c, precheck) => if Offered(c) { AdmitStaysSound(n, c, precheck); }
      case ActivateWatch(i, cutoff) => if i < |n.table| { ActivateStaysSound(n, i, cutoff); }
      case ResolveLineage(id, wake) => ResolveStaysSound(n, id, wake);
      case BeginDispatch(id, wake, at) => BeginStaysSound(n, id, wake, at);
      case JudgmentEvent(_, _) => RunEventStaysSound(n, a);
      case FinishRun(_) => RunEventStaysSound(n, a);
    }
  }

  lemma {:induction false} EveryNetRunIsSound(n: Net, actions: seq<NetAction>)
    requires NetSound(n)
    ensures NetSound(NetRun(n, actions))
    decreases |actions|
  {
    if actions != [] {
      NetStepStaysSound(n, actions[0]);
      EveryNetRunIsSound(NetStep(n, actions[0]), actions[1..]);
    }
  }

  // ---- the end-to-end statements ---------------------------------------------------------------

  lemma {:induction false} NetStartsSound()
    ensures NetSound(NET)
  {
  }

  /** What stays once it is there: frozen callback sets, runs, their configuration
      and the event that begins them. */
  predicate Keeps(n: Net, n': Net) {
    && (forall w :: w in n.sets ==> w in n'.sets && n'.sets[w] == n.sets[w])
    && RunsGrow(n.runs, n'.runs)
  }

  lemma {:induction false} BeginKeeps(n: Net, id: nat, wake: Wake, at: Time)
    ensures Keeps(n, Begin(n, id, wake, at))
  {
  }

  lemma {:induction false} StartKeeps(n: Net, id: nat)
    requires id in n.dispatchers
    ensures Keeps(n, StartRun(n, id))
  {
  }

  lemma {:induction false} AppendKeeps(n: Net, id: nat)
    requires id in n.dispatchers
    ensures Keeps(n, AppendBinding(n, id))
  {
  }

  lemma {:induction false} QuietStepKeeps(n: Net, a: NetAction)
    requires a.Claiming? || a.Awaiting? || a.Marking? || a.Writing? || a.Dropping?
    ensures NetStep(n, a).sets == n.sets && NetStep(n, a).runs == n.runs
  {
  }

  lemma {:induction false} OutsideStepKeeps(n: Net, a: NetAction)
    requires a.WatchStep? || a.Admit? || a.ActivateWatch? || a.ResolveLineage?
    ensures NetStep(n, a).sets == n.sets && NetStep(n, a).runs == n.runs
  {
  }

  lemma {:induction false} DispatcherStepKeeps(n: Net, a: NetAction)
    requires OfDispatcher(a)
    ensures Keeps(n, NetStep(n, a))
  {
    if a.id in n.dispatchers {
      if a.Starting? { StartKeeps(n, a.id); }
      if a.Appending? { AppendKeeps(n, a.id); }
    }
    if !a.Starting? && !a.Appending? { QuietStepKeeps(n, a); }
  }

  lemma {:induction false} RunEventKeeps(n: Net, a: NetAction)
    requires a.JudgmentEvent? || a.FinishRun?
    ensures Keeps(n, NetStep(n, a))
  {
  }

  lemma {:induction false} NetStepKeeps(n: Net, a: NetAction)
    ensures Keeps(n, NetStep(n, a))
  {
    if OfDispatcher(a) {
      DispatcherStepKeeps(n, a);
    } else if a.JudgmentEvent? || a.FinishRun? {
      RunEventKeeps(n, a);
    } else if a.BeginDispatch? {
      BeginKeeps(n, a.id, a.wake, a.at);
    } else {
      OutsideStepKeeps(n, a);
    }
  }

  /** Later admissions, retries and crashes never change a frozen set or a run's binding. */
  lemma {:induction false} FrozenStaysFrozen(n: Net, actions: seq<NetAction>)
    ensures Keeps(n, NetRun(n, actions))
    decreases |actions|
  {
    if actions != [] {
      NetStepKeeps(n, actions[0]);
      FrozenStaysFrozen(NetStep(n, actions[0]), actions[1..]);
    }
  }

  /** A delivered wake has exactly one durable run, with its binding event, for each
      admission of its frozen set, and no other run. */
  lemma {:induction false} DeliveredMeansDispatched(actions: seq<NetAction>, i: nat)
    requires var n := NetRun(NET, actions); i < |n.sys.db.outbox| && n.sys.db.outbox[i].deliveredAt.Some?
    ensures var n := NetRun(NET, actions); var wake := n.sys.db.outbox[i].wake;
      && wake in n.sets && n.sets[wake] != [] && Distinct(n.sets[wake])
      && (set r | r in n.runs && r.wake == wake) == (set id | id in n.sets[wake] :: RunId(wake, id))
      && forall id :: id in n.sets[wake] ==>
           ById(n.table, id).Some? && Accepted(ById(n.table, id).value)
           && Durable(n.runs, RunBinding(wake, ById(n.table, id).value))
  {
    NetStartsSound();
    EveryNetRunIsSound(NET, actions);
    var n := NetRun(NET, actions);
    var wake := n.sys.db.outbox[i].wake;
    assert FullyDispatched(n.table, n.sets, n.runs, wake);
    assert SetSound(n.table, n.sys.db, wake, n.sets[wake]);
    forall r | r in n.runs && r.wake == wake ensures r.admission in n.sets[wake] && r == RunId(wake, r.admission) {
      assert RunSound(n.table, n.sets, r, n.runs[r]);
    }
    forall id | id in n.sets[wake] ensures RunId(wake, id) in n.runs {
      assert Durable(n.runs, RunBinding(wake, ById(n.table, id).value));
    }
  }

  lemma {:induction false} WakeOfVersion(ws: seq<Wake>, w: WatchId, v: Version) returns (i: nat)
    requires v in VersionsOf(ws, w)
    ensures i < |ws| && ws[i].watchId == w && v in ws[i].versions
  {
    var last := ws[|ws| - 1];
    if last.watchId == w && v in last.versions {
      i := |ws| - 1;
    } else {
      i := WakeOfVersion(ws[..|ws| - 1], w, v);
    }
  }

  /** A version a watch has seen since its baseline is in exactly one of its wakes;
      every run it ever causes belongs to that wake and to that wake's frozen set,
      and once the wake is delivered each admission of the set has its run. */
  lemma {:induction false} VersionReachesEachCallbackOnce(actions: seq<NetAction>, w: WatchId, v: Version) returns (i: nat)
    requires var db := NetRun(NET, actions).sys.db;
      w in db.rows && w in db.seen && v in db.seen[w] && v !in db.rows[w].policy.baseline
    ensures var n := NetRun(NET, actions); var box := n.sys.db.outbox;
      && i < |box| && box[i].wake.watchId == w && v in box[i].wake.versions
      && (forall j :: 0 <= j < |box| && box[j].wake.watchId == w && v in box[j].wake.versions ==> j == i)
      && (forall r :: r in n.runs && r.wake.watchId == w && v in r.wake.versions ==>
            r.wake == box[i].wake && r.wake in n.sets && r.admission in n.sets[r.wake])
      && (box[i].deliveredAt.Some? ==>
            && box[i].wake in n.sets
            && forall id :: id in n.sets[box[i].wake] ==> RunId(box[i].wake, id) in n.runs)
  {
    NetStartsSound();
    EveryNetRunIsSound(NET, actions);
    var n := NetRun(NET, actions);
    var db := n.sys.db;
    var ws := Wakes(db.outbox);
    assert Accounted(w, db.rows[w], db.seen[w], ws, db.polls);
    i := WakeOfVersion(ws, w, v);
    forall j | 0 <= j < |ws| && ws[j].watchId == w && v in ws[j].versions ensures j == i {
    }
    forall r | r in n.runs && r.wake.watchId == w && v in r.wake.versions
      ensures r.wake == ws[i] && r.wake in n.sets && r.admission in n.sets[r.wake]
    {
      assert RunSound(n.table, n.sets, r, n.runs[r]);
      assert SetSound(n.table, db, r.wake, n.sets[r.wake]);
      assert ws[WakeIndex(db.outbox, r.wake)] == r.wake;
    }
    if db.outbox[i].deliveredAt.Some? {
      DeliveredMeansDispatched(actions, i);
      assert forall id :: id in n.sets[ws[i]] ==> RunId(ws[i], id) in (set r | r in n.runs && r.wake == ws[i]);
    }
  }

  /** A dispatcher never finds a run of its binding under another configuration. */
  lemma {:induction false} RunsNeverConflict(actions: seq<NetAction>, k: nat)
    requires var n := NetRun(NET, actions);
      && k in n.dispatchers && n.dispatchers[k].done < |n.dispatchers[k].bindings|
      && RunIdOf(n.dispatchers[k].bindings[n.dispatchers[k].done]) in n.runs
    ensures var n := NetRun(NET, actions); var d := n.dispatchers[k]; var b := d.bindings[d.done];
      var run := n.runs[RunIdOf(b)];
      && run.config == b
      && (run.events != [] ==> run.events[0] == Bound(b))
      && (run.finished ==> Durable(n.runs, b))
  {
    NetStartsSound();
    EveryNetRunIsSound(NET, actions);
    var n := NetRun(NET, actions);
    var d := n.dispatchers[k];
    assert DispatcherSound(n.table, n.sets, n.runs, d);
    var r := RunIdOf(d.bindings[d.done]);
    assert RunSound(n.table, n.sets, r, n.runs[r]);
  }
}
