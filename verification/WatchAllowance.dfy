/** What a whole lineage consumes, summed over the history of applied polls, and
    the statements about every run that follow from the lineage invariant. */
module WatchAllowance {
  import opened Base
  import opened WatchStore
  import opened WatchRuns
  import opened WatchAccounting
  import opened WatchLineage

  function UsageOf(x: AppliedPoll): Usage {
    Usage(1, x.bytes, if x.wake.Some? then 1 else 0)
  }

  /** Everything that the polls of all members of the lineage of `root` consumed. */
  function LineageUsage(ps: seq<AppliedPoll>, grants: seq<Grant>, root: WatchId): Usage {
    if ps == [] then Usage(0, 0, 0)
    else
      var last, rest := ps[|ps| - 1], LineageUsage(ps[..|ps| - 1], grants, root);
      if Root(grants, last.watch) == root then Plus(rest, UsageOf(last)) else rest
  }

  /** The newest member of a lineage answers for the consumption of all of it. */
  predicate TalliedFor(grants: seq<Grant>, rows: map<WatchId, Row>, ps: seq<AppliedPoll>, w: WatchId)
    requires w in rows
  {
    !IsOriginal(grants, w) ==>
      LineageUsage(ps, grants, Root(grants, w)) == Plus(SpentBefore(grants, rows, w), UsedBy(rows[w]))
  }

  /** When poll `i` was applied, its lineage still had bytes left. */
  predicate BytesLeftAt(grants: seq<Grant>, rows: map<WatchId, Row>, ps: seq<AppliedPoll>, i: nat)
    requires i < |ps|
  {
    var root := Root(grants, ps[i].watch);
    root in rows && LineageUsage(ps[..i], grants, root).bytes < rows[root].policy.maxBytes
  }

  predicate BytesLeftBefore(grants: seq<Grant>, rows: map<WatchId, Row>, ps: seq<AppliedPoll>) {
    forall i {:trigger BytesLeftAt(grants, rows, ps, i)} :: 0 <= i < |ps| ==> BytesLeftAt(grants, rows, ps, i)
  }

  predicate Tallied(db: Db) {
    && (forall w {:trigger TalliedFor(db.grants, db.rows, db.polls, w)} :: w in db.rows ==>
          TalliedFor(db.grants, db.rows, db.polls, w))
    && BytesLeftBefore(db.grants, db.rows, db.polls)
  }

  // ---- histories ------------------------------------------------------------------------

  lemma {:induction false} UsageGrows(ps: seq<AppliedPoll>, x: AppliedPoll, grants: seq<Grant>, root: WatchId)
    ensures LineageUsage(ps + [x], grants, root) ==
      if Root(grants, x.watch) == root then Plus(LineageUsage(ps, grants, root), UsageOf(x))
      else LineageUsage(ps, grants, root)
  {
    assert (ps + [x])[..|ps|] == ps;
  }

  /** A grant for a watch that never polled changes no lineage's history. */
  lemma {:induction false} UsageFrame(ps: seq<AppliedPoll>, grants: seq<Grant>, g: Grant, root: WatchId)
    requires forall i :: 0 <= i < |ps| ==> ps[i].watch != g.successor
    ensures LineageUsage(ps, grants + [g], root) == LineageUsage(ps, grants, root)
  {
    if ps != [] {
      UsageFrame(ps[..|ps| - 1], grants, g, root);
      RootGrows(grants, g, ps[|ps| - 1].watch);
    }
  }

  lemma {:induction false} NoUsage(ps: seq<AppliedPoll>, grants: seq<Grant>, root: WatchId)
    requires forall i :: 0 <= i < |ps| ==> Root(grants, ps[i].watch) != root
    ensures LineageUsage(ps, grants, root) == Usage(0, 0, 0)
  {
    if ps != [] {
      NoUsage(ps[..|ps| - 1], grants, root);
    }
  }

  lemma {:induction false} PollRootsKnown(grants: seq<Grant>, rows: map<WatchId, Row>, ps: seq<AppliedPoll>)
    requires Chained(ps, rows) && Conserved(grants, rows)
    ensures forall i :: 0 <= i < |ps| ==> ps[i].watch in rows && Root(grants, ps[i].watch) in rows
  {
    forall i | 0 <= i < |ps| ensures ps[i].watch in rows && Root(grants, ps[i].watch) in rows {
      assert ConservedFor(grants, rows, ps[i].watch);
    }
  }

  lemma {:induction false} BytesFrame(grants: seq<Grant>, rows: map<WatchId, Row>, rows': map<WatchId, Row>, ps: seq<AppliedPoll>)
    requires BytesLeftBefore(grants, rows, ps) && Extends(rows, rows')
    ensures BytesLeftBefore(grants, rows', ps)
  {
    forall i | 0 <= i < |ps| ensures BytesLeftAt(grants, rows', ps, i) {
      assert BytesLeftAt(grants, rows, ps, i);
    }
  }

  lemma {:induction false} BytesAppended(grants: seq<Grant>, rows: map<WatchId, Row>, ps: seq<AppliedPoll>, x: AppliedPoll)
    requires BytesLeftBefore(grants, rows, ps)
    requires var root := Root(grants, x.watch);
      root in rows && LineageUsage(ps, grants, root).bytes < rows[root].policy.maxBytes
    ensures BytesLeftBefore(grants, rows, ps + [x])
  {
    forall i | 0 <= i < |ps + [x]| ensures BytesLeftAt(grants, rows, ps + [x], i) {
      assert (ps + [x])[..i] == if i < |ps| then ps[..i] else ps;
      if i < |ps| { assert BytesLeftAt(grants, rows, ps, i); }
    }
  }

  lemma {:induction false} BytesGranted(grants: seq<Grant>, rows: map<WatchId, Row>, ps: seq<AppliedPoll>, g: Grant)
    requires BytesLeftBefore(grants, rows, ps)
    requires forall i :: 0 <= i < |ps| ==> ps[i].watch != g.successor
    ensures BytesLeftBefore(grants + [g], rows, ps)
  {
    forall i | 0 <= i < |ps| ensures BytesLeftAt(grants + [g], rows, ps, i) {
      RootGrows(grants, g, ps[i].watch);
      UsageFrame(ps[..i], grants, g, Root(grants, ps[i].watch));
      assert BytesLeftAt(grants, rows, ps, i);
    }
  }

  lemma {:induction false} SpentUnchanged(grants: seq<Grant>, rows: map<WatchId, Row>, rows': map<WatchId, Row>, w: WatchId)
    requires Bound(grants, rows) && Extends(rows, rows')
    ensures SpentBefore(grants, rows', w) == SpentBefore(grants, rows, w)
  {
    forall i | 0 <= i < |grants|
      ensures grants[i].original in rows && grants[i].original in rows'
      ensures UsedBy(rows[grants[i].original]) == UsedBy(rows'[grants[i].original])
    {
      assert BindingHolds(grants[i], rows[grants[i].original], rows[grants[i].successor].policy);
    }
    SpentFrame(grants, rows, rows', w);
  }

  // ---- the steps --------------------------------------------------------------------------

  /** Steps that apply no poll and grant nothing; a new row is its own lineage. */
  lemma {:induction false} QuietStepStaysTallied(db: Db, db': Db)
    requires Tallied(db) && Bound(db.grants, db.rows) && Conserved(db.grants, db.rows) && Chained(db.polls, db.rows)
    requires db'.grants == db.grants && db'.polls == db.polls && Extends(db.rows, db'.rows)
    requires forall v :: v in db.rows ==> UsedBy(db'.rows[v]) == UsedBy(db.rows[v])
    requires forall v :: v in db'.rows && v !in db.rows ==>
               Root(db.grants, v) == v && !IsSuccessor(db.grants, v) && UsedBy(db'.rows[v]) == Usage(0, 0, 0)
    ensures Tallied(db')
  {
    BytesFrame(db.grants, db.rows, db'.rows, db.polls);
    PollRootsKnown(db.grants, db.rows, db.polls);
    forall w | w in db'.rows ensures TalliedFor(db'.grants, db'.rows, db'.polls, w) {
      SpentUnchanged(db.grants, db.rows, db'.rows, w);
      if w in db.rows {
        assert TalliedFor(db.grants, db.rows, db.polls, w);
      } else {
        NoUsage(db.polls, db.grants, w);
        SpentNothing(db.grants, db'.rows, w);
      }
    }
  }

  lemma {:induction false} PollTalliedFor(grants: seq<Grant>, rows: map<WatchId, Row>, rows': map<WatchId, Row>, ps: seq<AppliedPoll>,
                       x: AppliedPoll, v: WatchId)
    requires Ordered(grants) && Bound(grants, rows) && Extends(rows, rows') && v in rows && x.watch in rows
    requires rows' == rows[x.watch := rows'[x.watch]] && !IsOriginal(grants, x.watch)
    requires UsedBy(rows'[x.watch]) == Plus(UsedBy(rows[x.watch]), UsageOf(x))
    requires TalliedFor(grants, rows, ps, v)
    ensures TalliedFor(grants, rows', ps + [x], v)
  {
    SpentUnchanged(grants, rows, rows', v);
    UsageGrows(ps, x, grants, Root(grants, v));
    if !IsOriginal(grants, v) && Root(grants, v) == Root(grants, x.watch) { OneTip(grants, v, x.watch); }
  }

  lemma {:induction false} PollStaysTallied(db: Db, db': Db, x: AppliedPoll)
    requires Tallied(db) && Ordered(db.grants) && Bound(db.grants, db.rows) && Conserved(db.grants, db.rows)
    requires db'.grants == db.grants && db'.polls == db.polls + [x] && Extends(db.rows, db'.rows)
    requires x.watch in db.rows && !Terminal(db.rows[x.watch].status) && db.rows[x.watch].bytes < db.rows[x.watch].policy.maxBytes
    requires db'.rows == db.rows[x.watch := db'.rows[x.watch]]
    requires UsedBy(db'.rows[x.watch]) == Plus(UsedBy(db.rows[x.watch]), UsageOf(x))
    ensures Tallied(db')
  {
    LiveIsNotOriginal(db.grants, db.rows, x.watch);
    forall v | v in db'.rows ensures TalliedFor(db'.grants, db'.rows, db'.polls, v) {
      assert TalliedFor(db.grants, db.rows, db.polls, v);
      PollTalliedFor(db.grants, db.rows, db'.rows, db.polls, x, v);
    }
    BytesFrame(db.grants, db.rows, db'.rows, db.polls);
    assert TalliedFor(db.grants, db.rows, db.polls, x.watch) && ConservedFor(db.grants, db.rows, x.watch);
    BytesAppended(db.grants, db'.rows, db.polls, x);
  }

  lemma {:induction false} GrantTalliedFor(grants: seq<Grant>, rows: map<WatchId, Row>, rows': map<WatchId, Row>, ps: seq<AppliedPoll>,
                        g: Grant, w: WatchId)
    requires Bound(grants, rows) && Grants(grants, rows, rows', g) && w in rows'
    requires forall i :: 0 <= i < |ps| ==> ps[i].watch != g.successor
    requires UsedBy(rows'[g.successor]) == Usage(0, 0, 0)
    requires TalliedFor(grants, rows, ps, if w == g.successor then g.original else w)
    ensures TalliedFor(grants + [g], rows', ps, w)
  {
    var gs, v := grants + [g], if w == g.successor then g.original else w;
    assert Extends(rows, rows');
    RootGrows(grants, g, w);
    SpentGrows(grants, g, rows', w);
    UsageFrame(ps, grants, g, Root(grants, v));
    SpentUnchanged(grants, rows, rows', v);
    if !IsOriginal(gs, w) {
      forall i | 0 <= i < |grants| ensures grants[i].original != v {
        assert gs[i] == grants[i];
      }
      assert gs[|grants|].original == g.original;
    }
  }

  lemma {:induction false} GrantStaysTallied(db: Db, db': Db, g: Grant)
    requires Tallied(db) && Bound(db.grants, db.rows) && Chained(db.polls, db.rows)
    requires Grants(db.grants, db.rows, db'.rows, g) && db'.grants == db.grants + [g] && db'.polls == db.polls
    requires UsedBy(db'.rows[g.successor]) == Usage(0, 0, 0)
    ensures Tallied(db')
  {
    forall w | w in db'.rows ensures TalliedFor(db'.grants, db'.rows, db'.polls, w) {
      assert TalliedFor(db.grants, db.rows, db.polls, if w == g.successor then g.original else w);
      GrantTalliedFor(db.grants, db.rows, db'.rows, db.polls, g, w);
    }
    BytesFrame(db.grants, db.rows, db'.rows, db.polls);
    BytesGranted(db.grants, db'.rows, db.polls, g);
  }

  /** What an applied poll writes, whatever branch it took. */
  lemma {:induction false} PollTallies(db: Db, w: WatchId, now: Time, resp: Response)
    requires w in db.rows ==> SaneRow(w, db.rows[w])
    requires !AtomicPoll(db, w, now, resp).1.Deduplicated?
    ensures var (db', outcome) := AtomicPoll(db, w, now, resp);
      if outcome.Stale? then db' == db
      else
        && w in db.rows && !Terminal(db.rows[w].status) && db.rows[w].bytes < db.rows[w].policy.maxBytes
        && db'.rows == db.rows[w := db'.rows[w]] && db'.grants == db.grants && Extends(db.rows, db'.rows)
        && |db'.polls| == |db.polls| + 1 && db'.polls == db.polls + [db'.polls[|db.polls|]]
        && db'.polls[|db.polls|].watch == w
        && UsedBy(db'.rows[w]) == Plus(UsedBy(db.rows[w]), UsageOf(db'.polls[|db.polls|]))
  {
  }

  /** The three invariants of the watch tables. */
  predicate Sound(db: Db) {
    Exact(db) && Linked(db) && Tallied(db)
  }

  lemma {:induction false} QuietOpStaysTallied(db: Db, op: Op)
    requires Sound(db) && (op.Claim? || op.Cancel? || op.Deliver?)
    ensures Tallied(Apply(db, op))
  {
    QuietOpShape(db, op);
    QuietStepStaysTallied(db, Apply(db, op));
  }

  lemma {:induction false} QuietOpShape(db: Db, op: Op)
    requires op.Claim? || op.Cancel? || op.Deliver?
    ensures var db' := Apply(db, op);
      && db'.grants == db.grants && db'.polls == db.polls && db'.rows.Keys == db.rows.Keys && Extends(db.rows, db'.rows)
      && forall v :: v in db.rows ==> UsedBy(db'.rows[v]) == UsedBy(db.rows[v])
  {
    match op
    case Claim(w, now, token, timeout) => ClaimShape(db, w, now, token, timeout);
    case Cancel(w, at) => CancelShape(db, w, at);
    case Deliver(wake, at) => DeliverShape(db, wake, at);
  }

  lemma {:induction false} CreatedStartsAfresh(db: Db, p: Policy, createdAt: Time, cutoff: Time)
    requires CreateWatch(db, p, createdAt, cutoff).1.Created?
    ensures var db' := CreateWatch(db, p, createdAt, cutoff).0;
      && db'.polls == db.polls && p.watchId in db'.rows && UsedBy(db'.rows[p.watchId]) == Usage(0, 0, 0)
      && Extends(db.rows, db'.rows)
      && forall v :: v in db.rows ==> UsedBy(db'.rows[v]) == UsedBy(db.rows[v])
  {
  }

  lemma {:induction false} CreateStaysTallied(db: Db, p: Policy, createdAt: Time, cutoff: Time)
    requires Tallied(db) && Ordered(db.grants) && Bound(db.grants, db.rows) && Conserved(db.grants, db.rows)
    requires Chained(db.polls, db.rows)
    ensures Tallied(CreateWatch(db, p, createdAt, cutoff).0)
  {
    var (db', outcome) := CreateWatch(db, p, createdAt, cutoff);
    if outcome.Created? {
      CreateShape(db, p, createdAt, cutoff);
      CreatedStartsAfresh(db, p, createdAt, cutoff);
      NewIsNoMember(db.grants, db.rows, p.watchId);
      RootOfRoot(db.grants, p.watchId);
      QuietStepStaysTallied(db, db');
    }
  }

  lemma {:induction false} SuccessorStartsAfresh(db: Db, req: RebaselineRequest, owner: Option<Owner>)
    ensures var (db', outcome) := RebaselineWatch(db, req, owner);
      && db'.polls == db.polls
      && (outcome.Granted? ==>
            outcome.grant.successor in db'.rows && UsedBy(db'.rows[outcome.grant.successor]) == Usage(0, 0, 0))
  {
  }

  lemma {:induction false} RebaselineStaysTallied(db: Db, req: RebaselineRequest, owner: Option<Owner>)
    requires RowsExact(db.rows, db.seen, Wakes(db.outbox), db.polls) && Chained(db.polls, db.rows)
    requires Bound(db.grants, db.rows) && Tallied(db)
    ensures Tallied(RebaselineWatch(db, req, owner).0)
  {
    var (db', outcome) := RebaselineWatch(db, req, owner);
    RebaselineShape(db, req, owner);
    SuccessorStartsAfresh(db, req, owner);
    if outcome.Granted? { GrantStaysTallied(db, db', outcome.grant); }
  }

  lemma {:induction false} AppliedPollStaysTallied(db: Db, w: WatchId, now: Time, resp: Response)
    requires Sound(db)
    ensures Tallied(AtomicPoll(db, w, now, resp).0)
  {
    var (db', outcome) := AtomicPoll(db, w, now, resp);
    PollStaysExact(db, w, now, resp);
    if w in db.rows { assert Accounted(w, db.rows[w], db.seen[w], Wakes(db.outbox), db.polls); }
    PollTallies(db, w, now, resp);
    if !outcome.Stale? { PollStaysTallied(db, db', db'.polls[|db.polls|]); }
  }

  lemma {:induction false} StepStaysSound(db: Db, op: Op)
    requires Sound(db)
    ensures Sound(Apply(db, op))
  {
    StepStaysExact(db, op);
    StepStaysLinked(db, op);
    match op
    case Create(p, createdAt, cutoff) => CreateStaysTallied(db, p, createdAt, cutoff);
    case Poll(w, now, resp) => AppliedPollStaysTallied(db, w, now, resp);
    case Rebaseline(req, owner) => RebaselineStaysTallied(db, req, owner);
    case _ => QuietOpStaysTallied(db, op);
  }

  lemma {:induction false} SequentialRunsAreSound(db: Db, ops: seq<Op>)
    requires Sound(db)
    ensures Sound(RunOps(db, ops))
    decreases |ops|
  {
    if ops != [] {
      StepStaysSound(db, ops[0]);
      SequentialRunsAreSound(Apply(db, ops[0]), ops[1..]);
    }
  }

  // ---- what holds after every concurrent run -------------------------------------------------

  lemma {:induction false} NothingIsSound()
    ensures Sound(EMPTY)
  {
    assert Wakes(EMPTY.outbox) == [];
  }

  lemma {:induction false} EveryRunIsSound(actions: seq<Action>)
    ensures Sound(Run(START, actions).db)
  {
    NothingIsSound();
    RunsFromStartAreSequential(actions);
    SequentialRunsAreSound(EMPTY, AbstractRun(START, actions));
  }

  /** The seen set of a watch is its baseline plus the disjoint union of its wakes'
      versions, and its wake count is the number of its outbox rows. */
  lemma {:induction false} VersionsAccountedFor(actions: seq<Action>, w: WatchId)
    requires w in Run(START, actions).db.rows
    ensures var db := Run(START, actions).db; var ws := Wakes(db.outbox);
      && w in db.seen
      && db.seen[w] == db.rows[w].policy.baseline + VersionsOf(ws, w)
      && PairwiseDisjoint(ws)
      && (forall i :: 0 <= i < |ws| && ws[i].watchId == w ==>
            ws[i].versions != {} && ws[i].versions !! db.rows[w].policy.baseline)
      && db.rows[w].wakes == WakesOf(ws, w)
      && db.rows[w].polls == PollsOf(db.polls, w) && db.rows[w].bytes == BytesOf(db.polls, w)
  {
    EveryRunIsSound(actions);
    var db := Run(START, actions).db;
    assert Accounted(w, db.rows[w], db.seen[w], Wakes(db.outbox), db.polls);
    forall i | 0 <= i < |Wakes(db.outbox)| && Wakes(db.outbox)[i].watchId == w
      ensures Wakes(db.outbox)[i].versions != {} && Wakes(db.outbox)[i].versions !! db.rows[w].policy.baseline
    {
      assert SaneWake(Wakes(db.outbox)[i], db.rows);
    }
  }

  /** Polls and wakes of all members, plus what the newest member has left, are the
      root's maxima; bytes pass the root's maximum by at most the last poll's response. */
  lemma {:induction false} LineageSpendsItsAllowance(actions: seq<Action>, w: WatchId)
    requires w in Run(START, actions).db.rows && !IsOriginal(Run(START, actions).db.grants, w)
    ensures var db := Run(START, actions).db; var root := Root(db.grants, w); var r := db.rows[w];
      && root in db.rows
      && r.polls <= r.policy.maxPolls && r.wakes <= r.policy.maxWakes
      && var used := LineageUsage(db.polls, db.grants, root); var most := Allowance(db.rows[root].policy);
         && used.polls + (r.policy.maxPolls - r.polls) == most.polls
         && used.wakes + (r.policy.maxWakes - r.wakes) == most.wakes
         && used.bytes + (r.policy.maxBytes - r.bytes) == most.bytes
         && (forall i :: 0 <= i < |db.polls| && Root(db.grants, db.polls[i].watch) == root ==>
               LineageUsage(db.polls[..i], db.grants, root).bytes < most.bytes)
  {
    EveryRunIsSound(actions);
    var db := Run(START, actions).db;
    assert ConservedFor(db.grants, db.rows, w) && TalliedFor(db.grants, db.rows, db.polls, w) && SaneRow(w, db.rows[w]);
    forall i | 0 <= i < |db.polls| && Root(db.grants, db.polls[i].watch) == Root(db.grants, w)
      ensures LineageUsage(db.polls[..i], db.grants, Root(db.grants, w)).bytes < db.rows[Root(db.grants, w)].policy.maxBytes
    {
      assert BytesLeftAt(db.grants, db.rows, db.polls, i);
    }
  }

  /** At most one member of a lineage is not in a terminal state. */
  lemma {:induction false} OneLiveMember(actions: seq<Action>, a: WatchId, b: WatchId)
    requires var db := Run(START, actions).db;
      && a in db.rows && b in db.rows && Root(db.grants, a) == Root(db.grants, b)
      && !Terminal(db.rows[a].status) && !Terminal(db.rows[b].status)
    ensures a == b
  {
    EveryRunIsSound(actions);
    var db := Run(START, actions).db;
    LiveIsNotOriginal(db.grants, db.rows, a);
    LiveIsNotOriginal(db.grants, db.rows, b);
    OneTip(db.grants, a, b);
  }

  /** Every equality between grant, retired row and successor policy that following a
      grant re-checks does hold; its owner query is `LineageOwners`. */
  lemma {:induction false} BindingEqualitiesHold(actions: seq<Action>, i: nat)
    requires i < |Run(START, actions).db.grants|
    ensures var db := Run(START, actions).db; var g := db.grants[i];
      && g.original in db.rows && g.successor in db.rows
      && BindingHolds(g, db.rows[g.original], db.rows[g.successor].policy)
  {
    EveryRunIsSound(actions);
  }

  /** Wakes of one lineage are at least its cooldown apart, lie inside their watch's
      interval, and each carries the snapshot that its watch froze just before. */
  lemma {:induction false} WakesAreSpacedAndChained(actions: seq<Action>)
    ensures var db := Run(START, actions).db; var ws := Wakes(db.outbox);
      && PairsSpaced(db.grants, db.rows, ws)
      && (forall i :: 0 <= i < |ws| ==>
            && ws[i].watchId in db.rows
            && db.rows[ws[i].watchId].policy.startsAt <= ws[i].createdAt < db.rows[ws[i].watchId].policy.expiresAt)
      && Enqueues(db.polls) == ws
      && Chained(db.polls, db.rows)
  {
    EveryRunIsSound(actions);
    var db := Run(START, actions).db;
    forall i | 0 <= i < |Wakes(db.outbox)| ensures SaneWake(Wakes(db.outbox)[i], db.rows) {
    }
  }

  /** Expired, cancelled and rebaselined are absorbing. */
  lemma {:induction false} TerminalStepKeepsWatch(db: Db, op: Op, w: WatchId)
    requires w in db.rows && w in db.seen && SaneRow(w, db.rows[w]) && Terminal(db.rows[w].status)
    ensures w in Apply(db, op).rows && Apply(db, op).rows[w] == db.rows[w]
    ensures w in Apply(db, op).seen && Apply(db, op).seen[w] == db.seen[w]
  {
  }

  lemma {:induction false} TerminalIsForever(s: Sys, actions: seq<Action>, w: WatchId)
    requires Fenced(s) && Sound(s.db) && w in s.db.rows && Terminal(s.db.rows[w].status)
    ensures var db := Run(s, actions).db;
      && w in db.rows && db.rows[w] == s.db.rows[w] && w in db.seen && db.seen[w] == s.db.seen[w]
      && VersionsOf(Wakes(db.outbox), w) == VersionsOf(Wakes(s.db.outbox), w)
  {
    ConcurrentRunIsSequential(s, actions);
    TerminalStaysSequentially(s.db, AbstractRun(s, actions), w);
    var db := Run(s, actions).db;
    assert Accounted(w, db.rows[w], db.seen[w], Wakes(db.outbox), db.polls);
    assert Accounted(w, s.db.rows[w], s.db.seen[w], Wakes(s.db.outbox), s.db.polls);
    VersionsBeyondBaseline(db, w);
    VersionsBeyondBaseline(s.db, w);
  }

  lemma {:induction false} VersionsBeyondBaseline(db: Db, w: WatchId)
    requires Exact(db) && w in db.rows
    ensures VersionsOf(Wakes(db.outbox), w) == db.seen[w] - db.rows[w].policy.baseline
  {
    DisjointFromBaseline(Wakes(db.outbox), db.rows, w);
    assert Accounted(w, db.rows[w], db.seen[w], Wakes(db.outbox), db.polls);
  }

  lemma {:induction false} DisjointFromBaseline(ws: seq<Wake>, rows: map<WatchId, Row>, w: WatchId)
    requires w in rows && forall i :: 0 <= i < |ws| ==> SaneWake(ws[i], rows)
    ensures VersionsOf(ws, w) !! rows[w].policy.baseline
  {
    if ws != [] {
      DisjointFromBaseline(ws[..|ws| - 1], rows, w);
      assert SaneWake(ws[|ws| - 1], rows);
    }
  }

  lemma {:induction false} TerminalStaysSequentially(db: Db, ops: seq<Op>, w: WatchId)
    requires Sound(db) && w in db.rows && Terminal(db.rows[w].status)
    ensures Sound(RunOps(db, ops)) && w in RunOps(db, ops).rows && RunOps(db, ops).rows[w] == db.rows[w]
    ensures w in RunOps(db, ops).seen && RunOps(db, ops).seen[w] == db.seen[w]
    decreases |ops|
  {
    if ops != [] {
      StepStaysSound(db, ops[0]);
      assert SaneRow(w, db.rows[w]);
      TerminalStepKeepsWatch(db, ops[0], w);
      TerminalStaysSequentially(Apply(db, ops[0]), ops[1..], w);
    }
  }
}
