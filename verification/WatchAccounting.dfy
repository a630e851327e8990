/** What the tables of the watch service count, and that every run keeps the
    counts exact: versions, wakes, polls, bytes and the chain of snapshots. */
module WatchAccounting {
  import opened Base
  import opened WatchStore
  import opened WatchRuns

  // ---- what is counted, read off the outbox and the poll history -------------------

  function Wakes(outbox: seq<OutboxRow>): (ws: seq<Wake>)
    ensures |ws| == |outbox| && forall i :: 0 <= i < |ws| ==> ws[i] == outbox[i].wake
  {
    seq(|outbox|, i requires 0 <= i < |outbox| => outbox[i].wake)
  }

  function VersionsOf(ws: seq<Wake>, w: WatchId): set<Version> {
    if ws == [] then {}
    else
      var last := ws[|ws| - 1];
      VersionsOf(ws[..|ws| - 1], w) + if last.watchId == w then last.versions else {}
  }

  function WakesOf(ws: seq<Wake>, w: WatchId): nat {
    if ws == [] then 0
    else WakesOf(ws[..|ws| - 1], w) + if ws[|ws| - 1].watchId == w then 1 else 0
  }

  function PollsOf(ps: seq<AppliedPoll>, w: WatchId): nat {
    if ps == [] then 0
    else PollsOf(ps[..|ps| - 1], w) + if ps[|ps| - 1].watch == w then 1 else 0
  }

  function BytesOf(ps: seq<AppliedPoll>, w: WatchId): nat {
    if ps == [] then 0
    else BytesOf(ps[..|ps| - 1], w) + if ps[|ps| - 1].watch == w then ps[|ps| - 1].bytes else 0
  }

  /** The snapshot frozen by the last committed poll of `w`, or its baseline. */
  function LastFrozen(ps: seq<AppliedPoll>, w: WatchId, initial: SnapshotId): SnapshotId {
    if ps == [] then initial
    else
      var last := ps[|ps| - 1];
      if last.watch == w && last.frozen.Some? then last.frozen.value
      else LastFrozen(ps[..|ps| - 1], w, initial)
  }

  function Enqueues(ps: seq<AppliedPoll>): seq<Wake> {
    if ps == [] then []
    else
      var last := ps[|ps| - 1];
      Enqueues(ps[..|ps| - 1]) + if last.wake.Some? then [last.wake.value] else []
  }

  // ---- the invariant -----------------------------------------------------------------

  predicate SaneRow(w: WatchId, r: Row) {
    && r.policy.watchId == w
    && (r.token.Some? <==> r.leaseExpiresAt.Some?)
    && (r.token.Some? ==> !Terminal(r.status) && !OutOfBudget(r))
    && r.polls <= r.policy.maxPolls && r.wakes <= r.policy.maxWakes
    && r.wakeAllowedAt >= r.policy.startsAt
  }

  /** The row and the seen set of `w` say exactly what its wakes and polls say. */
  predicate Accounted(w: WatchId, r: Row, seen: set<Version>, ws: seq<Wake>, ps: seq<AppliedPoll>) {
    && seen == r.policy.baseline + VersionsOf(ws, w)
    && r.wakes == WakesOf(ws, w)
    && r.polls == PollsOf(ps, w)
    && r.bytes == BytesOf(ps, w)
    && r.lastSnapshot == LastFrozen(ps, w, r.policy.initialSnapshot)
  }

  predicate SaneWake(wake: Wake, rows: map<WatchId, Row>) {
    && wake.watchId in rows
    && wake.versions != {}
    && wake.versions !! rows[wake.watchId].policy.baseline
    && rows[wake.watchId].policy.startsAt <= wake.createdAt < rows[wake.watchId].policy.expiresAt
  }

  /** No version wakes a watch twice. */
  predicate PairwiseDisjoint(ws: seq<Wake>) {
    forall i, j :: 0 <= i < j < |ws| && ws[i].watchId == ws[j].watchId ==> ws[i].versions !! ws[j].versions
  }

  /** Each wake names the snapshot its poll froze and, as prior, the one frozen before it. */
  predicate Chained(ps: seq<AppliedPoll>, rows: map<WatchId, Row>) {
    forall i :: 0 <= i < |ps| ==>
      && ps[i].watch in rows
      && (ps[i].wake.Some? ==>
            && ps[i].wake.value.watchId == ps[i].watch
            && ps[i].frozen == Some(ps[i].wake.value.snapshot)
            && ps[i].wake.value.prior == LastFrozen(ps[..i], ps[i].watch, rows[ps[i].watch].policy.initialSnapshot))
  }

  predicate RowsExact(rows: map<WatchId, Row>, seen: map<WatchId, set<Version>>, ws: seq<Wake>, ps: seq<AppliedPoll>) {
    && rows.Keys == seen.Keys
    && (forall w :: w in rows ==> SaneRow(w, rows[w]) && Accounted(w, rows[w], seen[w], ws, ps))
  }

  predicate WakesExact(rows: map<WatchId, Row>, ws: seq<Wake>) {
    && (forall i :: 0 <= i < |ws| ==> SaneWake(ws[i], rows))
    && PairwiseDisjoint(ws)
  }

  predicate Exact(db: Db) {
    var ws := Wakes(db.outbox);
    && RowsExact(db.rows, db.seen, ws, db.polls)
    && WakesExact(db.rows, ws)
    && Chained(db.polls, db.rows)
    && Enqueues(db.polls) == ws
  }

  // ---- folds over an extended history -------------------------------------------------

  lemma {:induction false} WakeAppended(ws: seq<Wake>, x: Wake, w: WatchId)
    ensures VersionsOf(ws + [x], w) == VersionsOf(ws, w) + if x.watchId == w then x.versions else {}
    ensures WakesOf(ws + [x], w) == WakesOf(ws, w) + if x.watchId == w then 1 else 0
  {
    assert (ws + [x])[..|ws|] == ws;
  }

  lemma {:induction false} PollAppended(ps: seq<AppliedPoll>, x: AppliedPoll, w: WatchId, initial: SnapshotId)
    ensures PollsOf(ps + [x], w) == PollsOf(ps, w) + if x.watch == w then 1 else 0
    ensures BytesOf(ps + [x], w) == BytesOf(ps, w) + if x.watch == w then x.bytes else 0
    ensures LastFrozen(ps + [x], w, initial) ==
            if x.watch == w && x.frozen.Some? then x.frozen.value else LastFrozen(ps, w, initial)
    ensures Enqueues(ps + [x]) == Enqueues(ps) + if x.wake.Some? then [x.wake.value] else []
  {
    assert (ps + [x])[..|ps|] == ps;
  }

  lemma {:induction false} NothingFor(ws: seq<Wake>, ps: seq<AppliedPoll>, w: WatchId, initial: SnapshotId)
    requires forall i :: 0 <= i < |ws| ==> ws[i].watchId != w
    requires forall i :: 0 <= i < |ps| ==> ps[i].watch != w
    ensures VersionsOf(ws, w) == {} && WakesOf(ws, w) == 0
    ensures PollsOf(ps, w) == 0 && BytesOf(ps, w) == 0 && LastFrozen(ps, w, initial) == initial
    decreases |ws| + |ps|
  {
    if ws != [] {
      NothingFor(ws[..|ws| - 1], ps, w, initial);
    } else if ps != [] {
      NothingFor(ws, ps[..|ps| - 1], w, initial);
    }
  }

  lemma {:induction false} WakeVersionsCounted(ws: seq<Wake>, i: nat, w: WatchId)
    requires i < |ws| && ws[i].watchId == w
    ensures ws[i].versions <= VersionsOf(ws, w)
  {
    if i < |ws| - 1 {
      WakeVersionsCounted(ws[..|ws| - 1], i, w);
    }
  }

  // ---- every step keeps the books exact ------------------------------------------------

  /** No trigger key is ever reused, since its versions were not yet seen. */
  lemma {:induction false} UnseenVersionsAreNew(db: Db, wake: Wake)
    requires Exact(db) && wake.watchId in db.rows
    requires wake.versions != {} && wake.versions !! db.seen[wake.watchId]
    ensures !TriggerKeyTaken(db.outbox, wake)
    ensures forall i :: 0 <= i < |db.outbox| && db.outbox[i].wake.watchId == wake.watchId ==>
              db.outbox[i].wake.versions !! wake.versions
  {
    forall i | 0 <= i < |db.outbox| && db.outbox[i].wake.watchId == wake.watchId
      ensures db.outbox[i].wake.versions !! wake.versions && db.outbox[i].wake.versions != {}
    {
      WakeVersionsCounted(Wakes(db.outbox), i, wake.watchId);
      assert SaneWake(db.outbox[i].wake, db.rows);
    }
  }

  /** The parts of `Exact` that look only at the policies of the watches. */
  lemma {:induction false} SamePolicies(rows: map<WatchId, Row>, rows': map<WatchId, Row>, ws: seq<Wake>, ps: seq<AppliedPoll>)
    requires WakesExact(rows, ws) && Chained(ps, rows)
    requires forall w :: w in rows ==> w in rows' && rows'[w].policy == rows[w].policy
    ensures WakesExact(rows', ws) && Chained(ps, rows')
  {
    forall i | 0 <= i < |ws| ensures SaneWake(ws[i], rows') {
      assert SaneWake(ws[i], rows);
    }
  }

  lemma {:induction false} NewWatchStaysExact(db: Db, p: Policy, createdAt: Time, wakeAllowedAt: Time)
    requires Exact(db) && p.watchId !in db.rows && wakeAllowedAt >= p.startsAt
    ensures Exact(db.(rows := db.rows[p.watchId := FreshRow(p, createdAt, wakeAllowedAt)],
                      seen := db.seen[p.watchId := p.baseline]))
  {
    var rows', seen' := db.rows[p.watchId := FreshRow(p, createdAt, wakeAllowedAt)], db.seen[p.watchId := p.baseline];
    var ws := Wakes(db.outbox);
    SamePolicies(db.rows, rows', ws, db.polls);
    forall i | 0 <= i < |ws| ensures ws[i].watchId != p.watchId {
      assert SaneWake(ws[i], db.rows);
    }
    NothingFor(ws, db.polls, p.watchId, p.initialSnapshot);
    assert RowsExact(rows', seen', ws, db.polls);
  }

  /** Replacing a row by one with the same policy and the same counters. */
  lemma {:induction false} RowUpdateStaysExact(db: Db, w: WatchId, r: Row)
    requires Exact(db) && w in db.rows && SaneRow(w, r)
    requires r == db.rows[w].(status := r.status, updatedAt := r.updatedAt, nextDueAt := r.nextDueAt,
                              lastError := r.lastError, token := r.token, leaseExpiresAt := r.leaseExpiresAt)
    ensures Exact(db.(rows := db.rows[w := r]))
  {
    var ws := Wakes(db.outbox);
    SamePolicies(db.rows, db.rows[w := r], ws, db.polls);
    assert RowsExact(db.rows[w := r], db.seen, ws, db.polls);
  }

  /** The row of `w` after a poll that enqueued nothing. */
  predicate AfterQuietPoll(r: Row, r': Row, x: AppliedPoll) {
    && SaneRow(x.watch, r') && r'.policy == r.policy && r'.wakes == r.wakes
    && r'.polls == r.polls + 1 && r'.bytes == r.bytes + x.bytes
    && r'.lastSnapshot == (if x.frozen.Some? then x.frozen.value else r.lastSnapshot)
  }

  lemma {:induction false} RowsAfterQuietPoll(
      rows: map<WatchId, Row>, seen: map<WatchId, set<Version>>, ws: seq<Wake>, ps: seq<AppliedPoll>, x: AppliedPoll, r': Row)
    requires RowsExact(rows, seen, ws, ps) && x.watch in rows && AfterQuietPoll(rows[x.watch], r', x)
    ensures RowsExact(rows[x.watch := r'], seen, ws, ps + [x])
  {
    var rows' := rows[x.watch := r'];
    forall v | v in rows' ensures SaneRow(v, rows'[v]) && Accounted(v, rows'[v], seen[v], ws, ps + [x]) {
      PollAppended(ps, x, v, rows[v].policy.initialSnapshot);
      assert SaneRow(v, rows[v]) && Accounted(v, rows[v], seen[v], ws, ps);
    }
  }

  /** A poll that enqueued nothing, whatever else it recorded. */
  lemma {:induction false} QuietPollStaysExact(db: Db, db': Db, x: AppliedPoll)
    requires Exact(db) && x.watch in db.rows && x.wake.None?
    requires x.watch in db'.rows && db'.rows == db.rows[x.watch := db'.rows[x.watch]]
    requires AfterQuietPoll(db.rows[x.watch], db'.rows[x.watch], x)
    requires db'.seen == db.seen && db'.outbox == db.outbox && db'.polls == db.polls + [x]
    ensures Exact(db')
  {
    var ws := Wakes(db.outbox);
    RowsAfterQuietPoll(db.rows, db.seen, ws, db.polls, x, db'.rows[x.watch]);
    SamePolicies(db.rows, db'.rows, ws, db.polls);
    PollAppended(db.polls, x, x.watch, 0);
    ChainGrows(db.polls, db.rows, x, db'.rows);
  }

  lemma {:induction false} RecordStaysExact(db: Db, w: WatchId, e: Effect, cooldown: nat)
    requires Exact(db) && w in db.rows && db.rows[w].token.Some? && e.RecordPoll?
    ensures Exact(ApplyEffect(db, w, db.rows[w].token.value, db.rows[w].lastSnapshot, cooldown, e).0)
  {
    var db' := ApplyEffect(db, w, db.rows[w].token.value, db.rows[w].lastSnapshot, cooldown, e).0;
    assert SaneRow(w, db.rows[w]);
    QuietPollStaysExact(db, db', AppliedPoll(w, e.bytes, None, None));
  }

  lemma {:induction false} ChainGrows(ps: seq<AppliedPoll>, rows: map<WatchId, Row>, x: AppliedPoll, rows': map<WatchId, Row>)
    requires Chained(ps, rows) && rows'.Keys == rows.Keys
    requires forall v :: v in rows' ==> rows'[v].policy == rows[v].policy
    requires x.watch in rows'
    requires x.wake.Some? ==>
      && x.wake.value.watchId == x.watch && x.frozen == Some(x.wake.value.snapshot)
      && x.wake.value.prior == LastFrozen(ps, x.watch, rows'[x.watch].policy.initialSnapshot)
    ensures Chained(ps + [x], rows')
  {
    var all := ps + [x];
    forall i | 0 <= i < |all| ensures all[..i] == if i < |ps| then ps[..i] else ps {
    }
  }

  lemma {:induction false} WakesGrow(rows: map<WatchId, Row>, ws: seq<Wake>, wake: Wake)
    requires WakesExact(rows, ws) && SaneWake(wake, rows)
    requires forall i :: 0 <= i < |ws| && ws[i].watchId == wake.watchId ==> ws[i].versions !! wake.versions
    ensures WakesExact(rows, ws + [wake])
  {
  }

  lemma {:induction false} RowsAfterWake(db: Db, w: WatchId, wake: Wake, x: AppliedPoll, rows': map<WatchId, Row>, seen': map<WatchId, set<Version>>)
    requires RowsExact(db.rows, db.seen, Wakes(db.outbox), db.polls) && w in db.rows
    requires x.watch == w == wake.watchId && x.frozen.Some?
    requires w in rows' && rows' == db.rows[w := rows'[w]] && SaneRow(w, rows'[w])
    requires seen' == db.seen[w := db.seen[w] + wake.versions]
    requires rows'[w].policy == db.rows[w].policy && rows'[w].wakes == db.rows[w].wakes + 1
    requires rows'[w].polls == db.rows[w].polls + 1 && rows'[w].bytes == db.rows[w].bytes + x.bytes
    requires rows'[w].lastSnapshot == x.frozen.value
    ensures RowsExact(rows', seen', Wakes(db.outbox) + [wake], db.polls + [x])
  {
    var ws := Wakes(db.outbox);
    forall v | v in rows' ensures Accounted(v, rows'[v], seen'[v], ws + [wake], db.polls + [x]) {
      PollAppended(db.polls, x, v, db.rows[v].policy.initialSnapshot);
      WakeAppended(ws, wake, v);
      assert Accounted(v, db.rows[v], db.seen[v], ws, db.polls);
    }
  }

  /** What the new wake of a commit may rely on. */
  predicate WakeReady(db: Db, w: WatchId, e: Effect) {
    && w in db.rows && w in db.seen && db.rows[w].token.Some? && e.CommitSuccess? && e.wake.Some?
    && e.wake.value == Wake(w, e.frozen.snapshot, db.rows[w].lastSnapshot, e.frozen.versions - db.seen[w], e.at)
    && e.wake.value.versions != {}
    && db.rows[w].wakeAllowedAt <= e.at < db.rows[w].policy.expiresAt
  }

  lemma {:induction false} WakeCommitShape(db: Db, w: WatchId, e: Effect, cooldown: nat)
    requires WakeReady(db, w, e) && !TriggerKeyTaken(db.outbox, e.wake.value)
    ensures var (db', outcome) := ApplyEffect(db, w, db.rows[w].token.value, db.rows[w].lastSnapshot, cooldown, e);
      && outcome == Enqueued
      && w in db'.rows && db'.rows == db.rows[w := db'.rows[w]]
      && db'.rows[w] == db.rows[w].(status := e.status, updatedAt := e.at, nextDueAt := e.at + e.delay,
           polls := db.rows[w].polls + 1, bytes := db.rows[w].bytes + e.bytes, wakes := db.rows[w].wakes + 1,
           lastSnapshot := e.frozen.snapshot, wakeAllowedAt := e.at + cooldown, lastError := None, token := None,
           leaseExpiresAt := None)
      && db'.seen == db.seen[w := db.seen[w] + e.wake.value.versions]
      && Wakes(db'.outbox) == Wakes(db.outbox) + [e.wake.value]
      && db'.polls == db.polls + [AppliedPoll(w, e.bytes, Some(e.frozen.snapshot), e.wake)]
  {
    var db' := ApplyEffect(db, w, db.rows[w].token.value, db.rows[w].lastSnapshot, cooldown, e).0;
    assert db'.outbox == db.outbox + [OutboxRow(e.wake.value, None)];
    assert db.seen[w] + e.frozen.versions == db.seen[w] + e.wake.value.versions;
  }

  lemma {:induction false} NewWakeIsSane(db: Db, w: WatchId, e: Effect)
    requires RowsExact(db.rows, db.seen, Wakes(db.outbox), db.polls) && WakeReady(db, w, e)
    ensures SaneWake(e.wake.value, db.rows)
    ensures e.wake.value.prior == LastFrozen(db.polls, w, db.rows[w].policy.initialSnapshot)
  {
    assert SaneRow(w, db.rows[w]) && Accounted(w, db.rows[w], db.seen[w], Wakes(db.outbox), db.polls);
  }

  /** The commit of a poll whose frozen snapshot holds versions that were not yet seen. */
  lemma {:induction false} WakeCommitStaysExact(db: Db, w: WatchId, e: Effect, cooldown: nat)
    requires Exact(db) && WakeReady(db, w, e)
    ensures Exact(ApplyEffect(db, w, db.rows[w].token.value, db.rows[w].lastSnapshot, cooldown, e).0)
    ensures ApplyEffect(db, w, db.rows[w].token.value, db.rows[w].lastSnapshot, cooldown, e).1 == Enqueued
  {
    var wake, ws := e.wake.value, Wakes(db.outbox);
    UnseenVersionsAreNew(db, wake);
    WakeCommitShape(db, w, e, cooldown);
    var db' := ApplyEffect(db, w, db.rows[w].token.value, db.rows[w].lastSnapshot, cooldown, e).0;
    var x := AppliedPoll(w, e.bytes, Some(e.frozen.snapshot), e.wake);
    NewWakeIsSane(db, w, e);
    assert SaneRow(w, db.rows[w]);
    RowsAfterWake(db, w, wake, x, db'.rows, db'.seen);
    WakesAfterWake(db.rows, db'.rows, ws, wake);
    PollAppended(db.polls, x, w, 0);
    ChainGrows(db.polls, db.rows, x, db'.rows);
  }

  lemma {:induction false} WakesAfterWake(rows: map<WatchId, Row>, rows': map<WatchId, Row>, ws: seq<Wake>, wake: Wake)
    requires WakesExact(rows, ws) && SaneWake(wake, rows)
    requires forall i :: 0 <= i < |ws| && ws[i].watchId == wake.watchId ==> ws[i].versions !! wake.versions
    requires rows'.Keys == rows.Keys && forall v :: v in rows ==> rows'[v].policy == rows[v].policy
    ensures WakesExact(rows', ws + [wake])
  {
    WakesGrow(rows, ws, wake);
    SamePolicies(rows, rows', ws + [wake], []);
  }

  /** The commit of a poll that brought nothing new. */
  lemma {:induction false} QuietCommitStaysExact(db: Db, w: WatchId, e: Effect, cooldown: nat)
    requires Exact(db) && w in db.rows && db.rows[w].token.Some? && e.CommitSuccess? && e.wake.None?
    requires e.frozen.versions <= db.seen[w]
    ensures Exact(ApplyEffect(db, w, db.rows[w].token.value, db.rows[w].lastSnapshot, cooldown, e).0)
  {
    var db' := ApplyEffect(db, w, db.rows[w].token.value, db.rows[w].lastSnapshot, cooldown, e).0;
    assert SaneRow(w, db.rows[w]);
    assert db.seen[w] + e.frozen.versions == db.seen[w];
    QuietPollStaysExact(db, db', AppliedPoll(w, e.bytes, Some(e.frozen.snapshot), None));
  }

  /** A poll at its commit: the outcome "deduplicated" never occurs. */
  lemma {:induction false} PollStaysExact(db: Db, w: WatchId, now: Time, resp: Response)
    requires Exact(db)
    ensures Exact(AtomicPoll(db, w, now, resp).0)
    ensures !AtomicPoll(db, w, now, resp).1.Deduplicated?
  {
    if w in db.rows && db.rows[w].token.Some? {
      var r := db.rows[w];
      assert SaneRow(w, r);
      var e := PlanPoll(r, SeenOf(db, w), now, resp);
      match e
      case RecordPoll(_, _, _, _, _) => RecordStaysExact(db, w, e, r.policy.cooldown);
      case CommitSuccess(_, _, _, _, wake, _) =>
        if wake.Some? {
          WakeCommitStaysExact(db, w, e, r.policy.cooldown);
        } else {
          assert forall v :: v in e.frozen.versions && v !in db.seen[w] ==> v in e.frozen.versions - SeenOf(db, w);
          QuietCommitStaysExact(db, w, e, r.policy.cooldown);
        }
    }
  }

  /** Deliveries and grants are no part of the books. */
  lemma {:induction false} SameBooksStayExact(db: Db, db': Db)
    requires Exact(db) && db'.rows == db.rows && db'.seen == db.seen && db'.polls == db.polls
    requires Wakes(db'.outbox) == Wakes(db.outbox)
    ensures Exact(db')
  {
    var ws := Wakes(db.outbox);
    SamePolicies(db.rows, db'.rows, ws, db.polls);
  }

  function Retired(r: Row, at: Time): Row {
    r.(status := Rebaselined, updatedAt := at, nextDueAt := at, token := None, leaseExpiresAt := None)
  }

  /** A granted rebaseline retires one row and adds one watch. */
  lemma {:induction false} RebaselineIsTwoSteps(db: Db, req: RebaselineRequest, owner: Option<Owner>)
    requires RebaselineWatch(db, req, owner).1.Granted?
    ensures var db' := RebaselineWatch(db, req, owner).0;
      && req.original in db.rows && !OutOfBudget(db.rows[req.original])
      && !Terminal(db.rows[req.original].status)
      && var r := db.rows[req.original]; var p := SuccessorPolicy(r, req);
         && p.watchId == req.successor && p.watchId !in db.rows && p.startsAt == req.authorizedAt
         && db'.rows == db.rows[req.original := Retired(r, req.authorizedAt)][
              p.watchId := FreshRow(p, req.authorizedAt, Max(req.authorizedAt, r.wakeAllowedAt))]
         && db'.seen == db.seen[p.watchId := p.baseline] && db'.outbox == db.outbox && db'.polls == db.polls
  {
  }

  lemma {:induction false} RebaselineStaysExact(db: Db, req: RebaselineRequest, owner: Option<Owner>)
    requires Exact(db)
    ensures Exact(RebaselineWatch(db, req, owner).0)
  {
    var (db', outcome) := RebaselineWatch(db, req, owner);
    if outcome.Granted? {
      RebaselineIsTwoSteps(db, req, owner);
      var r := db.rows[req.original];
      assert SaneRow(req.original, r);
      RowUpdateStaysExact(db, req.original, Retired(r, req.authorizedAt));
      var mid := db.(rows := db.rows[req.original := Retired(r, req.authorizedAt)]);
      var p := SuccessorPolicy(r, req);
      NewWatchStaysExact(mid, p, req.authorizedAt, Max(req.authorizedAt, r.wakeAllowedAt));
      SameBooksStayExact(db'.(grants := db.grants), db');
    } else {
      assert db' == db;
    }
  }

  lemma {:induction false} DeliverKeepsOutbox(db: Db, wake: Wake, at: Time)
    ensures var db' := StampDelivered(db, wake, at);
      db'.rows == db.rows && db'.seen == db.seen && db'.polls == db.polls && Wakes(db'.outbox) == Wakes(db.outbox)
  {
  }

  lemma {:induction false} DeliverStaysExact(db: Db, wake: Wake, at: Time)
    requires Exact(db)
    ensures Exact(StampDelivered(db, wake, at))
  {
    DeliverKeepsOutbox(db, wake, at);
    SameBooksStayExact(db, StampDelivered(db, wake, at));
  }

  lemma {:induction false} ClaimStaysExact(db: Db, w: WatchId, now: Time, token: Token, timeout: nat)
    requires Exact(db)
    ensures Exact(ClaimDue(db, w, now, token, timeout).0)
  {
    var (db', outcome) := ClaimDue(db, w, now, token, timeout);
    if outcome.ExpiredNow? || outcome.NoBudget? || outcome.Claimed? {
      assert SaneRow(w, db.rows[w]);
      RowUpdateStaysExact(db, w, db'.rows[w]);
    }
  }

  lemma {:induction false} StepStaysExact(db: Db, op: Op)
    requires Exact(db)
    ensures Exact(Apply(db, op))
  {
    match op
    case Create(p, createdAt, cutoff) =>
      if CreateWatch(db, p, createdAt, cutoff).1.Created? { NewWatchStaysExact(db, p, createdAt, p.startsAt); }
    case Claim(w, now, token, timeout) => ClaimStaysExact(db, w, now, token, timeout);
    case Poll(w, now, resp) => PollStaysExact(db, w, now, resp);
    case Cancel(w, at) =>
      if CancelWatch(db, w, at).1.CancelDone? { RowUpdateStaysExact(db, w, Retire(db.rows[w], Cancelled, at, None)); }
    case Deliver(wake, at) => DeliverStaysExact(db, wake, at);
    case Rebaseline(req, owner) => RebaselineStaysExact(db, req, owner);
  }

  lemma {:induction false} SequentialRunsAreExact(db: Db, ops: seq<Op>)
    requires Exact(db)
    ensures Exact(RunOps(db, ops))
    decreases |ops|
  {
    if ops != [] {
      StepStaysExact(db, ops[0]);
      SequentialRunsAreExact(Apply(db, ops[0]), ops[1..]);
    }
  }

  /** In every interleaving of workers, crashes, takeovers, cancels and rebaselines. */
  lemma {:induction false} EveryRunIsExact(actions: seq<Action>)
    ensures Exact(Run(START, actions).db)
  {
    RunsFromStartAreSequential(actions);
    SequentialRunsAreExact(EMPTY, AbstractRun(START, actions));
  }
}
