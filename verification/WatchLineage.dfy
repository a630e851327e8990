/** Rebaseline lineages: a one-time grant retires a watch and creates a successor
    with what is left of its allowance. Creation order of the grants makes every
    lineage a finite chain with one root and at most one live member. */
module WatchLineage {
  import opened Base
  import opened WatchStore
  import opened WatchRuns
  import opened WatchAccounting

  /** The watch that was created directly and not by a grant. */
  function Root(grants: seq<Grant>, w: WatchId): WatchId {
    if grants == [] then w
    else
      var last := grants[|grants| - 1];
      Root(grants[..|grants| - 1], if w == last.successor then last.original else w)
  }

  datatype Usage = Usage(polls: nat, bytes: nat, wakes: nat)

  function Plus(a: Usage, b: Usage): Usage {
    Usage(a.polls + b.polls, a.bytes + b.bytes, a.wakes + b.wakes)
  }

  function UsedBy(r: Row): Usage {
    Usage(r.polls, r.bytes, r.wakes)
  }

  function Allowance(p: Policy): Usage {
    Usage(p.maxPolls, p.maxBytes, p.maxWakes)
  }

  /** What the predecessors of `w`, all the way to the root, consumed. */
  function SpentBefore(grants: seq<Grant>, rows: map<WatchId, Row>, w: WatchId): Usage {
    if grants == [] then Usage(0, 0, 0)
    else
      var last, rest := grants[|grants| - 1], grants[..|grants| - 1];
      if w == last.successor && last.original in rows
      then Plus(UsedBy(rows[last.original]), SpentBefore(rest, rows, last.original))
      else SpentBefore(rest, rows, w)
  }

  // ---- the invariant -------------------------------------------------------------------

  /** What the program checks of a grant, and what it does not check but keeps. */
  predicate BindingHolds(g: Grant, original: Row, successor: Policy) {
    && Rebinds(g, original, successor)
    && successor.watchId == g.successor
    && original.policy.origin == successor.origin
    && original.policy.cooldown == successor.cooldown
  }

  /** One grant per original, one per successor, and no grant creates a watch that
      an earlier one had already retired. */
  predicate Ordered(grants: seq<Grant>) {
    && (forall i, j :: 0 <= i < j < |grants| ==>
          && grants[i].original != grants[j].original
          && grants[i].successor != grants[j].successor
          && grants[i].grantId != grants[j].grantId)
    && (forall i, j :: 0 <= i <= j < |grants| ==> grants[i].original != grants[j].successor)
  }

  predicate Bound(grants: seq<Grant>, rows: map<WatchId, Row>) {
    forall i :: 0 <= i < |grants| ==>
      && grants[i].original in rows && grants[i].successor in rows
      && BindingHolds(grants[i], rows[grants[i].original], rows[grants[i].successor].policy)
  }

  predicate LineageKnown(grants: seq<Grant>, rows: map<WatchId, Row>) {
    forall w :: w in rows && rows[w].policy.lineage.Some? ==> IsSuccessor(grants, w)
  }

  predicate ConservedFor(grants: seq<Grant>, rows: map<WatchId, Row>, w: WatchId)
    requires w in rows
  {
    var root := Root(grants, w);
    && root in rows
    && rows[root].policy.lineage.None?
    && rows[root].policy.cooldown == rows[w].policy.cooldown
    && Allowance(rows[root].policy) == Plus(SpentBefore(grants, rows, w), Allowance(rows[w].policy))
  }

  predicate Conserved(grants: seq<Grant>, rows: map<WatchId, Row>) {
    forall w {:trigger ConservedFor(grants, rows, w)} :: w in rows ==> ConservedFor(grants, rows, w)
  }

  predicate SpacedFrom(grants: seq<Grant>, w: WatchId, r: Row, ws: seq<Wake>) {
    !IsOriginal(grants, w) ==>
      forall i :: 0 <= i < |ws| && Root(grants, ws[i].watchId) == Root(grants, w) ==>
        ws[i].createdAt + r.policy.cooldown <= r.wakeAllowedAt
  }

  /** Any two wakes of one lineage are at least its cooldown apart. */
  predicate PairsSpaced(grants: seq<Grant>, rows: map<WatchId, Row>, ws: seq<Wake>) {
    forall i, j :: 0 <= i < j < |ws| && Root(grants, ws[i].watchId) == Root(grants, ws[j].watchId) ==>
      ws[j].watchId in rows && ws[i].createdAt + rows[ws[j].watchId].policy.cooldown <= ws[j].createdAt
  }

  predicate Spaced(grants: seq<Grant>, rows: map<WatchId, Row>, ws: seq<Wake>) {
    && (forall w {:trigger SpacedFrom(grants, w, rows[w], ws)} :: w in rows ==> SpacedFrom(grants, w, rows[w], ws))
    && PairsSpaced(grants, rows, ws)
  }

  predicate Linked(db: Db) {
    && Ordered(db.grants)
    && Bound(db.grants, db.rows)
    && LineageKnown(db.grants, db.rows)
    && Conserved(db.grants, db.rows)
    && Spaced(db.grants, db.rows, Wakes(db.outbox))
  }

  // ---- one more grant --------------------------------------------------------------------

  lemma {:induction false} RootGrows(grants: seq<Grant>, g: Grant, w: WatchId)
    ensures Root(grants + [g], w) == Root(grants, if w == g.successor then g.original else w)
  {
    assert (grants + [g])[..|grants|] == grants;
  }

  lemma {:induction false} SpentGrows(grants: seq<Grant>, g: Grant, rows: map<WatchId, Row>, w: WatchId)
    ensures SpentBefore(grants + [g], rows, w) ==
      if w == g.successor && g.original in rows
      then Plus(UsedBy(rows[g.original]), SpentBefore(grants, rows, g.original))
      else SpentBefore(grants, rows, w)
  {
    assert (grants + [g])[..|grants|] == grants;
  }

  /** Rows that keep the counters of every retired watch spend the same. */
  lemma {:induction false} SpentFrame(grants: seq<Grant>, rows: map<WatchId, Row>, rows': map<WatchId, Row>, w: WatchId)
    requires forall i :: 0 <= i < |grants| ==>
      && grants[i].original in rows && grants[i].original in rows'
      && UsedBy(rows[grants[i].original]) == UsedBy(rows'[grants[i].original])
    ensures SpentBefore(grants, rows, w) == SpentBefore(grants, rows', w)
  {
    if grants != [] {
      var last, rest := grants[|grants| - 1], grants[..|grants| - 1];
      assert forall i :: 0 <= i < |rest| ==> rest[i] == grants[i];
      SpentFrame(rest, rows, rows', if w == last.successor then last.original else w);
    }
  }

  lemma {:induction false} RootOfRoot(grants: seq<Grant>, w: WatchId)
    requires Ordered(grants)
    ensures !IsSuccessor(grants, Root(grants, w))
    ensures !IsSuccessor(grants, w) ==> Root(grants, w) == w
  {
    if grants != [] {
      var last, rest := grants[|grants| - 1], grants[..|grants| - 1];
      assert forall i :: 0 <= i < |rest| ==> rest[i] == grants[i];
      var next := if w == last.successor then last.original else w;
      RootOfRoot(rest, next);
      RootReached(rest, next);
      var root := Root(grants, w);
      forall i | 0 <= i < |grants| ensures grants[i].successor != root {
        assert i < |rest| ==> grants[i] == rest[i];
      }
      if !IsSuccessor(grants, w) {
        assert w != last.successor;
        forall i | 0 <= i < |rest| ensures rest[i].successor != w { assert grants[i].successor != w; }
      }
    }
  }

  /** A root is the watch itself or one that some grant retired. */
  lemma {:induction false} RootReached(grants: seq<Grant>, w: WatchId)
    ensures Root(grants, w) == w || IsOriginal(grants, Root(grants, w))
  {
    if grants != [] {
      var last, rest := grants[|grants| - 1], grants[..|grants| - 1];
      var next := if w == last.successor then last.original else w;
      RootReached(rest, next);
      if Root(rest, next) != next {
        var i :| 0 <= i < |rest| && rest[i].original == Root(rest, next);
        assert grants[i].original == Root(grants, w);
      } else if w == last.successor {
        assert grants[|grants| - 1].original == Root(grants, w);
      }
    }
  }

  /** The watches that no grant has retired have distinct roots. */
  lemma {:induction false} OneTip(grants: seq<Grant>, a: WatchId, b: WatchId)
    requires Ordered(grants)
    requires !IsOriginal(grants, a) && !IsOriginal(grants, b) && Root(grants, a) == Root(grants, b)
    ensures a == b
  {
    if grants != [] && a != b {
      var last, rest := grants[|grants| - 1], grants[..|grants| - 1];
      assert grants[|grants| - 1].original == last.original;
      assert forall i :: 0 <= i < |rest| ==> rest[i] == grants[i];
      OneTip(rest, if a == last.successor then last.original else a, if b == last.successor then last.original else b);
      assert false;
    }
  }

  // ---- steps that leave the grants alone, part by part -------------------------------------

  lemma {:induction false} LiveIsNotOriginal(grants: seq<Grant>, rows: map<WatchId, Row>, w: WatchId)
    requires Bound(grants, rows) && w in rows && !Terminal(rows[w].status)
    ensures !IsOriginal(grants, w)
  {
  }

  /** New rows may appear; old ones keep their policy, and retired ones keep everything. */
  predicate Extends(rows: map<WatchId, Row>, rows': map<WatchId, Row>) {
    forall v :: v in rows ==>
      && v in rows'
      && rows'[v].policy == rows[v].policy
      && rows'[v].wakeAllowedAt >= rows[v].wakeAllowedAt
      && (rows'[v] == rows[v] || !Terminal(rows[v].status))
  }

  lemma {:induction false} BoundFrame(grants: seq<Grant>, rows: map<WatchId, Row>, rows': map<WatchId, Row>)
    requires Bound(grants, rows) && Extends(rows, rows')
    ensures Bound(grants, rows')
  {
    forall i | 0 <= i < |grants|
      ensures grants[i].original in rows' && grants[i].successor in rows'
      ensures BindingHolds(grants[i], rows'[grants[i].original], rows'[grants[i].successor].policy)
    {
      assert BindingHolds(grants[i], rows[grants[i].original], rows[grants[i].successor].policy);
    }
  }

  lemma {:induction false} ConservedFrame(grants: seq<Grant>, rows: map<WatchId, Row>, rows': map<WatchId, Row>, w: WatchId)
    requires Bound(grants, rows) && Extends(rows, rows') && w in rows && ConservedFor(grants, rows, w)
    ensures ConservedFor(grants, rows', w)
  {
    forall i | 0 <= i < |grants|
      ensures grants[i].original in rows && grants[i].original in rows'
      ensures UsedBy(rows[grants[i].original]) == UsedBy(rows'[grants[i].original])
    {
      assert BindingHolds(grants[i], rows[grants[i].original], rows[grants[i].successor].policy);
    }
    SpentFrame(grants, rows, rows', w);
  }

  lemma {:induction false} SpacedFrame(grants: seq<Grant>, rows: map<WatchId, Row>, rows': map<WatchId, Row>, ws: seq<Wake>)
    requires Spaced(grants, rows, ws) && Extends(rows, rows') && rows'.Keys == rows.Keys
    ensures Spaced(grants, rows', ws)
  {
    forall w | w in rows' ensures SpacedFrom(grants, w, rows'[w], ws) {
      assert SpacedFrom(grants, w, rows[w], ws);
    }
  }

  lemma {:induction false} QuietStepStaysLinked(db: Db, db': Db)
    requires Linked(db) && db'.grants == db.grants && Wakes(db'.outbox) == Wakes(db.outbox)
    requires db'.rows.Keys == db.rows.Keys && Extends(db.rows, db'.rows)
    ensures Linked(db')
  {
    BoundFrame(db.grants, db.rows, db'.rows);
    SpacedFrame(db.grants, db.rows, db'.rows, Wakes(db.outbox));
    forall w | w in db'.rows ensures ConservedFor(db'.grants, db'.rows, w) {
      assert ConservedFor(db.grants, db.rows, w);
      ConservedFrame(db.grants, db.rows, db'.rows, w);
    }
    assert LineageKnown(db'.grants, db'.rows);
  }

  // ---- a new root ---------------------------------------------------------------------------

  lemma {:induction false} SpentNothing(grants: seq<Grant>, rows: map<WatchId, Row>, w: WatchId)
    requires !IsSuccessor(grants, w)
    ensures SpentBefore(grants, rows, w) == Usage(0, 0, 0)
  {
    if grants != [] {
      var rest := grants[..|grants| - 1];
      assert grants[|grants| - 1].successor != w;
      forall i | 0 <= i < |rest| ensures rest[i].successor != w { assert grants[i].successor != w; }
      SpentNothing(rest, rows, w);
    }
  }

  lemma {:induction false} NewRootSpaced(grants: seq<Grant>, rows: map<WatchId, Row>, ws: seq<Wake>, w: WatchId, r: Row)
    requires Spaced(grants, rows, ws) && w !in rows && Root(grants, w) == w
    requires forall i :: 0 <= i < |ws| ==> Root(grants, ws[i].watchId) in rows
    ensures Spaced(grants, rows[w := r], ws)
  {
  }

  lemma {:induction false} NewRootStaysLinked(db: Db, db': Db, w: WatchId)
    requires WakesExact(db.rows, Wakes(db.outbox)) && Linked(db)
    requires w !in db.rows && w in db'.rows && db'.rows == db.rows[w := db'.rows[w]]
    requires db'.rows[w].policy.lineage.None?
    requires db'.grants == db.grants && db'.outbox == db.outbox
    ensures Linked(db')
  {
    var ws := Wakes(db.outbox);
    NewIsNoMember(db.grants, db.rows, w);
    RootOfRoot(db.grants, w);
    SpentNothing(db.grants, db'.rows, w);
    assert Extends(db.rows, db'.rows);
    BoundFrame(db.grants, db.rows, db'.rows);
    NewRootConserved(db.grants, db.rows, db'.rows, w);
    WakeRootsKnown(db.grants, db.rows, ws);
    NewRootSpaced(db.grants, db.rows, ws, w, db'.rows[w]);
    NewRootLineage(db.grants, db.rows, db'.rows, w);
  }

  lemma {:induction false} NewRootLineage(grants: seq<Grant>, rows: map<WatchId, Row>, rows': map<WatchId, Row>, w: WatchId)
    requires LineageKnown(grants, rows) && w in rows' && rows' == rows[w := rows'[w]]
    requires rows'[w].policy.lineage.None?
    ensures LineageKnown(grants, rows')
  {
  }

  lemma {:induction false} NewRootConserved(grants: seq<Grant>, rows: map<WatchId, Row>, rows': map<WatchId, Row>, w: WatchId)
    requires Bound(grants, rows) && Conserved(grants, rows) && Extends(rows, rows') && rows'.Keys == rows.Keys + {w}
    requires Root(grants, w) == w && rows'[w].policy.lineage.None? && SpentBefore(grants, rows', w) == Usage(0, 0, 0)
    ensures Conserved(grants, rows')
  {
    forall v | v in rows' ensures ConservedFor(grants, rows', v) {
      if v in rows {
        assert ConservedFor(grants, rows, v);
        ConservedFrame(grants, rows, rows', v);
      }
    }
  }

  lemma {:induction false} WakeRootsKnown(grants: seq<Grant>, rows: map<WatchId, Row>, ws: seq<Wake>)
    requires WakesExact(rows, ws) && Conserved(grants, rows)
    ensures forall i :: 0 <= i < |ws| ==> ws[i].watchId in rows && Root(grants, ws[i].watchId) in rows
  {
    forall i | 0 <= i < |ws| ensures ws[i].watchId in rows && Root(grants, ws[i].watchId) in rows {
      assert SaneWake(ws[i], rows);
      assert ConservedFor(grants, rows, ws[i].watchId);
    }
  }

  lemma {:induction false} NewIsNoMember(grants: seq<Grant>, rows: map<WatchId, Row>, w: WatchId)
    requires Bound(grants, rows) && w !in rows
    ensures !IsSuccessor(grants, w) && !IsOriginal(grants, w)
  {
  }

  // ---- a new wake -----------------------------------------------------------------------------

  lemma {:induction false} NewWakeSpaced(grants: seq<Grant>, rows: map<WatchId, Row>, ws: seq<Wake>, wake: Wake)
    requires Ordered(grants) && Spaced(grants, rows, ws)
    requires wake.watchId in rows && !IsOriginal(grants, wake.watchId)
    requires SpacedFrom(grants, wake.watchId, rows[wake.watchId], ws + [wake])
    requires forall i :: 0 <= i < |ws| && Root(grants, ws[i].watchId) == Root(grants, wake.watchId) ==>
               ws[i].createdAt + rows[wake.watchId].policy.cooldown <= wake.createdAt
    ensures Spaced(grants, rows, ws + [wake])
  {
    forall v | v in rows ensures SpacedFrom(grants, v, rows[v], ws + [wake]) {
      if !IsOriginal(grants, v) && Root(grants, v) == Root(grants, wake.watchId) {
        OneTip(grants, v, wake.watchId);
      } else {
        assert SpacedFrom(grants, v, rows[v], ws);
      }
    }
  }

  lemma {:induction false} EnqueueStaysLinked(db: Db, db': Db, w: WatchId, wake: Wake)
    requires Linked(db) && db'.grants == db.grants && Wakes(db'.outbox) == Wakes(db.outbox) + [wake]
    requires w in db.rows && w in db'.rows && !Terminal(db.rows[w].status) && wake.watchId == w
    requires db'.rows == db.rows[w := db'.rows[w]] && db'.rows[w].policy == db.rows[w].policy
    requires db.rows[w].wakeAllowedAt <= wake.createdAt
    requires db'.rows[w].wakeAllowedAt == wake.createdAt + db.rows[w].policy.cooldown
    ensures Linked(db')
  {
    var ws := Wakes(db.outbox);
    LiveIsNotOriginal(db.grants, db.rows, w);
    var mid := db.(rows := db'.rows);
    assert Extends(db.rows, db'.rows);
    QuietStepStaysLinked(db, mid);
    assert SpacedFrom(db.grants, w, db.rows[w], ws);
    NewWakeSpaced(db.grants, db'.rows, ws, wake);
  }

  /** The two shapes of a poll: it enqueues one wake of a live watch, or none. */
  lemma {:induction false} PollShape(db: Db, w: WatchId, now: Time, resp: Response)
    requires RowsExact(db.rows, db.seen, Wakes(db.outbox), db.polls)
    ensures var (db', outcome) := AtomicPoll(db, w, now, resp);
      && db'.grants == db.grants && db'.rows.Keys == db.rows.Keys
      && (outcome.Enqueued? ==>
            && w in db.rows && !Terminal(db.rows[w].status) && |db'.outbox| == |db.outbox| + 1
            && db'.outbox[..|db.outbox|] == db.outbox
            && db'.rows == db.rows[w := db'.rows[w]] && db'.rows[w].policy == db.rows[w].policy
            && var wake := db'.outbox[|db.outbox|].wake;
               && wake.watchId == w && db.rows[w].wakeAllowedAt <= wake.createdAt
               && db'.rows[w].wakeAllowedAt == wake.createdAt + db.rows[w].policy.cooldown)
      && (!outcome.Enqueued? && !outcome.Deduplicated? ==> db'.outbox == db.outbox && Extends(db.rows, db'.rows))
  {
    if w in db.rows { assert SaneRow(w, db.rows[w]); }
  }

  lemma {:induction false} NeverDeduplicated(db: Db, w: WatchId, now: Time, resp: Response)
    requires Exact(db)
    ensures !AtomicPoll(db, w, now, resp).1.Deduplicated?
  {
    PollStaysExact(db, w, now, resp);
  }

  lemma {:induction false} OneMoreWakeStaysLinked(db: Db, db': Db, w: WatchId)
    requires Linked(db) && db'.grants == db.grants && w in db.rows && !Terminal(db.rows[w].status)
    requires |db'.outbox| == |db.outbox| + 1 && db'.outbox[..|db.outbox|] == db.outbox
    requires w in db'.rows && db'.rows == db.rows[w := db'.rows[w]] && db'.rows[w].policy == db.rows[w].policy
    requires var wake := db'.outbox[|db.outbox|].wake;
      && wake.watchId == w && db.rows[w].wakeAllowedAt <= wake.createdAt
      && db'.rows[w].wakeAllowedAt == wake.createdAt + db.rows[w].policy.cooldown
    ensures Linked(db')
  {
    var wake := db'.outbox[|db.outbox|].wake;
    assert Wakes(db'.outbox) == Wakes(db.outbox) + [wake];
    EnqueueStaysLinked(db, db', w, wake);
  }

  lemma {:induction false} PollStaysLinked(db: Db, w: WatchId, now: Time, resp: Response)
    requires Exact(db) && Linked(db)
    ensures Linked(AtomicPoll(db, w, now, resp).0)
  {
    var (db', outcome) := AtomicPoll(db, w, now, resp);
    PollShape(db, w, now, resp);
    NeverDeduplicated(db, w, now, resp);
    if outcome.Enqueued? {
      OneMoreWakeStaysLinked(db, db', w);
    } else {
      QuietStepStaysLinked(db, db');
    }
  }

  // ---- a new grant, part by part -----------------------------------------------------------------

  /** The retired row and the policy of the successor that a granted request leaves. */
  predicate Grants(grants: seq<Grant>, rows: map<WatchId, Row>, rows': map<WatchId, Row>, g: Grant) {
    && g.original in rows && !Terminal(rows[g.original].status) && g.successor !in rows
    && !IsOriginal(grants, g.original) && !GrantIdTaken(grants, g.grantId)
    && rows'.Keys == rows.Keys + {g.successor}
    && (forall v :: v in rows && v != g.original ==> rows'[v] == rows[v])
    && UsedBy(rows'[g.original]) == UsedBy(rows[g.original])
    && rows'[g.original].policy == rows[g.original].policy
    && rows'[g.original].wakeAllowedAt == rows[g.original].wakeAllowedAt
    && BindingHolds(g, rows'[g.original], rows'[g.successor].policy)
    && rows'[g.successor].wakeAllowedAt >= rows[g.original].wakeAllowedAt
  }

  lemma {:induction false} RebaselineShape(db: Db, req: RebaselineRequest, owner: Option<Owner>)
    requires RowsExact(db.rows, db.seen, Wakes(db.outbox), db.polls)
    ensures var (db', outcome) := RebaselineWatch(db, req, owner);
      if outcome.Granted? then
        && Grants(db.grants, db.rows, db'.rows, outcome.grant)
        && db'.grants == db.grants + [outcome.grant] && db'.outbox == db.outbox
      else db' == db
  {
    if req.original in db.rows { assert SaneRow(req.original, db.rows[req.original]); }
  }

  lemma {:induction false} GrantKeepsOrder(grants: seq<Grant>, rows: map<WatchId, Row>, rows': map<WatchId, Row>, g: Grant)
    requires Ordered(grants) && Bound(grants, rows) && Grants(grants, rows, rows', g)
    ensures Ordered(grants + [g])
  {
    forall i | 0 <= i < |grants|
      ensures grants[i].original != g.original && grants[i].successor != g.successor
      ensures grants[i].grantId != g.grantId && grants[i].original != g.successor
    {
    }
  }

  lemma {:induction false} GrantKeepsBindings(grants: seq<Grant>, rows: map<WatchId, Row>, rows': map<WatchId, Row>, g: Grant)
    requires Bound(grants, rows) && LineageKnown(grants, rows) && Grants(grants, rows, rows', g)
    ensures Bound(grants + [g], rows') && LineageKnown(grants + [g], rows')
  {
    var gs := grants + [g];
    assert Extends(rows, rows');
    BoundFrame(grants, rows, rows');
    forall w | w in rows' && rows'[w].policy.lineage.Some? ensures IsSuccessor(gs, w) {
      if w in rows {
        var i :| 0 <= i < |grants| && grants[i].successor == w;
        assert gs[i].successor == w;
      } else {
        assert gs[|grants|].successor == w;
      }
    }
  }

  lemma {:induction false} GrantConserves(grants: seq<Grant>, rows: map<WatchId, Row>, rows': map<WatchId, Row>, g: Grant, w: WatchId)
    requires Bound(grants, rows) && Conserved(grants, rows) && Grants(grants, rows, rows', g) && w in rows'
    ensures ConservedFor(grants + [g], rows', w)
  {
    RootGrows(grants, g, w);
    SpentGrows(grants, g, rows', w);
    assert Extends(rows, rows');
    var v := if w == g.successor then g.original else w;
    assert ConservedFor(grants, rows, v);
    ConservedFrame(grants, rows, rows', v);
  }

  lemma {:induction false} GrantKeepsSpacing(grants: seq<Grant>, rows: map<WatchId, Row>, rows': map<WatchId, Row>, g: Grant, ws: seq<Wake>)
    requires Spaced(grants, rows, ws) && Grants(grants, rows, rows', g)
    requires forall i :: 0 <= i < |ws| ==> ws[i].watchId in rows
    ensures Spaced(grants + [g], rows', ws)
  {
    var gs := grants + [g];
    forall i | 0 <= i < |ws| ensures Root(gs, ws[i].watchId) == Root(grants, ws[i].watchId) {
      RootGrows(grants, g, ws[i].watchId);
    }
    forall w | w in rows' ensures SpacedFrom(gs, w, rows'[w], ws) {
      RootGrows(grants, g, w);
      if !IsOriginal(gs, w) {
        var v := if w == g.successor then g.original else w;
        forall i | 0 <= i < |grants| ensures grants[i].original != v {
          assert gs[i] == grants[i];
        }
        assert gs[|grants|].original == g.original;
        assert SpacedFrom(grants, v, rows[v], ws);
      }
    }
  }

  lemma {:induction false} GrantStaysLinked(db: Db, db': Db, g: Grant)
    requires WakesExact(db.rows, Wakes(db.outbox)) && Linked(db)
    requires Grants(db.grants, db.rows, db'.rows, g) && db'.grants == db.grants + [g] && db'.outbox == db.outbox
    ensures Linked(db')
  {
    GrantKeepsOrder(db.grants, db.rows, db'.rows, g);
    GrantKeepsBindings(db.grants, db.rows, db'.rows, g);
    forall w | w in db'.rows ensures ConservedFor(db'.grants, db'.rows, w) {
      GrantConserves(db.grants, db.rows, db'.rows, g, w);
    }
    WakeRootsKnown(db.grants, db.rows, Wakes(db.outbox));
    GrantKeepsSpacing(db.grants, db.rows, db'.rows, g, Wakes(db.outbox));
  }

  // ---- every step, every run -------------------------------------------------------------------

  lemma {:induction false} ClaimShape(db: Db, w: WatchId, now: Time, token: Token, timeout: nat)
    ensures var db' := ClaimDue(db, w, now, token, timeout).0;
      && db'.grants == db.grants && db'.outbox == db.outbox && db'.rows.Keys == db.rows.Keys && Extends(db.rows, db'.rows)
  {
  }

  lemma {:induction false} CancelShape(db: Db, w: WatchId, at: Time)
    ensures var db' := CancelWatch(db, w, at).0;
      && db'.grants == db.grants && db'.outbox == db.outbox && db'.rows.Keys == db.rows.Keys && Extends(db.rows, db'.rows)
  {
  }

  lemma {:induction false} DeliverShape(db: Db, wake: Wake, at: Time)
    ensures var db' := StampDelivered(db, wake, at);
      && db'.grants == db.grants && Wakes(db'.outbox) == Wakes(db.outbox) && db'.rows == db.rows
  {
  }

  /** A directly created watch is never a successor: a v3 policy needs a grant, and
      a grant that exists has created its row already. */
  lemma {:induction false} CreateShape(db: Db, p: Policy, createdAt: Time, cutoff: Time)
    requires Bound(db.grants, db.rows) && CreateWatch(db, p, createdAt, cutoff).1.Created?
    ensures var db' := CreateWatch(db, p, createdAt, cutoff).0;
      && p.lineage.None? && p.watchId !in db.rows && p.watchId in db'.rows
      && db'.rows == db.rows[p.watchId := db'.rows[p.watchId]] && db'.rows[p.watchId].policy == p
      && db'.grants == db.grants && db'.outbox == db.outbox
  {
  }

  lemma {:induction false} CreateStaysLinked(db: Db, p: Policy, createdAt: Time, cutoff: Time)
    requires WakesExact(db.rows, Wakes(db.outbox)) && Linked(db)
    ensures Linked(CreateWatch(db, p, createdAt, cutoff).0)
  {
    var (db', outcome) := CreateWatch(db, p, createdAt, cutoff);
    if outcome.Created? {
      CreateShape(db, p, createdAt, cutoff);
      NewRootStaysLinked(db, db', p.watchId);
    }
  }

  lemma {:induction false} ClaimStaysLinked(db: Db, w: WatchId, now: Time, token: Token, timeout: nat)
    requires Linked(db)
    ensures Linked(ClaimDue(db, w, now, token, timeout).0)
  {
    ClaimShape(db, w, now, token, timeout);
    QuietStepStaysLinked(db, ClaimDue(db, w, now, token, timeout).0);
  }

  lemma {:induction false} CancelStaysLinked(db: Db, w: WatchId, at: Time)
    requires Linked(db)
    ensures Linked(CancelWatch(db, w, at).0)
  {
    CancelShape(db, w, at);
    QuietStepStaysLinked(db, CancelWatch(db, w, at).0);
  }

  lemma {:induction false} DeliverStaysLinked(db: Db, wake: Wake, at: Time)
    requires Linked(db)
    ensures Linked(StampDelivered(db, wake, at))
  {
    DeliverShape(db, wake, at);
    QuietStepStaysLinked(db, StampDelivered(db, wake, at));
  }

  lemma {:induction false} RebaselineStaysLinked(db: Db, req: RebaselineRequest, owner: Option<Owner>)
    requires RowsExact(db.rows, db.seen, Wakes(db.outbox), db.polls) && WakesExact(db.rows, Wakes(db.outbox))
    requires Linked(db)
    ensures Linked(RebaselineWatch(db, req, owner).0)
  {
    var (db', outcome) := RebaselineWatch(db, req, owner);
    RebaselineShape(db, req, owner);
    if outcome.Granted? {
      GrantStaysLinked(db, db', outcome.grant);
    }
  }

  lemma {:induction false} StepStaysLinked(db: Db, op: Op)
    requires Exact(db) && Linked(db)
    ensures Linked(Apply(db, op))
  {
    match op
    case Create(p, createdAt, cutoff) => CreateStaysLinked(db, p, createdAt, cutoff);
    case Claim(w, now, token, timeout) => ClaimStaysLinked(db, w, now, token, timeout);
    case Poll(w, now, resp) => PollStaysLinked(db, w, now, resp);
    case Cancel(w, at) => CancelStaysLinked(db, w, at);
    case Deliver(wake, at) => DeliverStaysLinked(db, wake, at);
    case Rebaseline(req, owner) => RebaselineStaysLinked(db, req, owner);
  }

  lemma {:induction false} SequentialRunsAreLinked(db: Db, ops: seq<Op>)
    requires Exact(db) && Linked(db)
    ensures Exact(RunOps(db, ops)) && Linked(RunOps(db, ops))
    decreases |ops|
  {
    if ops != [] {
      StepStaysExact(db, ops[0]);
      StepStaysLinked(db, ops[0]);
      SequentialRunsAreLinked(Apply(db, ops[0]), ops[1..]);
    }
  }

  lemma {:induction false} EveryRunIsLinked(actions: seq<Action>)
    ensures Exact(Run(START, actions).db) && Linked(Run(START, actions).db)
  {
    RunsFromStartAreSequential(actions);
    SequentialRunsAreLinked(EMPTY, AbstractRun(START, actions));
  }
}
