/** When a rebaselined lineage can still be followed: every re-check of a grant queries
    the owner of its root again, and that query insists on exactly one owner row. */
module LineageOwners {
  import opened Base
  import opened WatchStore
  import opened WatchRuns
  import opened WatchLineage
  import opened Admission
  import opened WatchAuthority
  import opened Dispatch
  import opened EndToEnd

  // ---- one owner row ---------------------------------------------------------------------

  lemma {:induction false} ConfirmedIffOneOwner(t: seq<Admission>, db: Db, i: nat)
    requires Linked(db) && GrantsOwned(t, db) && i < |db.grants|
    ensures var g := db.grants[i];
      Confirmed(t, db, g) <==> |OwnerRows(t, Root(db.grants, g.original))| == 1
  {
    var g := db.grants[i];
    assert GrantOwned(t, db, g);
    assert BindingHolds(g, db.rows[g.original], db.rows[g.successor].policy);
    var root := Root(db.grants, g.original);
    var a :| a in OwnerRows(t, root) && SpeaksFor(a, db.rows[root].policy) && OwnerIn(a) == g.owner;
    OwnerIsTheRow(t, root, db.rows[root].policy, a);
  }

  lemma {:induction false} LineageConfirmedIff(t: seq<Admission>, db: Db, w: WatchId)
    requires Linked(db) && GrantsOwned(t, db)
    ensures LineageConfirmed(t, db, w) <==>
      !IsSuccessor(db.grants, w) || |OwnerRows(t, Root(db.grants, w))| == 1
  {
    var way := Ancestry(db.grants, w);
    AncestryIsTheLineage(db.grants, w);
    forall g | g in way ensures Confirmed(t, db, g) <==> |OwnerRows(t, Root(db.grants, w))| == 1 {
      var i :| 0 <= i < |db.grants| && db.grants[i] == g;
      ConfirmedIffOneOwner(t, db, i);
    }
    if way != [] { assert way[0] in way; }
  }

  /** In every reachable state the re-check of a grant succeeds exactly when the root of
      its lineage has one owner row, and a request for the same grant is replayed or
      refused by the same rule. */
  lemma {:induction false} BindingConfirmedIffOneOwner(actions: seq<NetAction>, i: nat)
    requires i < |NetRun(NET, actions).sys.db.grants|
    ensures var n := NetRun(NET, actions); var g := n.sys.db.grants[i];
      && (Confirmed(n.table, n.sys.db, g) <==> |OwnerRows(n.table, Root(n.sys.db.grants, g.original))| == 1)
      && (OwnerFor(n.table, n.sys.db, g.original) == Some(g.owner) <==>
            |OwnerRows(n.table, Root(n.sys.db.grants, g.original))| == 1)
  {
    NetStartsSound();
    EveryNetRunIsSound(NET, actions);
    var n := NetRun(NET, actions);
    var g := n.sys.db.grants[i];
    ConfirmedIffOneOwner(n.table, n.sys.db, i);
    assert BindingHolds(g, n.sys.db.rows[g.original], n.sys.db.rows[g.successor].policy);
  }

  lemma {:induction false} LineageResolvesIffOneOwner(actions: seq<NetAction>, w: WatchId)
    ensures var n := NetRun(NET, actions);
      LineageConfirmed(n.table, n.sys.db, w) <==>
        !IsSuccessor(n.sys.db.grants, w) || |OwnerRows(n.table, Root(n.sys.db.grants, w))| == 1
  {
    NetStartsSound();
    EveryNetRunIsSound(NET, actions);
    LineageConfirmedIff(NetRun(NET, actions).table, NetRun(NET, actions).sys.db, w);
  }

  lemma {:induction false} GrantOfIsTheGrant(grants: seq<Grant>, i: nat)
    requires Ordered(grants) && i < |grants|
    ensures GrantOf(grants, grants[i].original) == Some(grants[i])
  {
    var found := GrantOf(grants, grants[i].original);
    assert IsOriginal(grants, grants[i].original);
    var k :| 0 <= k < |grants| && grants[k] == found.value;
  }

  /** Requesting a grant again returns it exactly while its root has one owner row. */
  lemma {:induction false} ReplayedIffOneOwner(actions: seq<NetAction>, i: nat, req: RebaselineRequest)
    requires var db := NetRun(NET, actions).sys.db;
      && i < |db.grants| && req.cutoff <= req.authorizedAt
      && req.original == db.grants[i].original && req.reason == db.grants[i].reason
      && req.snapshot == db.grants[i].snapshot && req.authorizedAt == db.grants[i].authorizedAt
    ensures var n := NetRun(NET, actions); var db := n.sys.db; var g := db.grants[i];
      RebaselineWatch(db, req, OwnerFor(n.table, db, req.original)) ==
        (db, if g.original in db.rows && db.rows[g.original].policy.scope.None? then Unscoped
             else if |OwnerRows(n.table, Root(db.grants, g.original))| == 1 then Replayed(g) else BindingDiffers)
  {
    NetStartsSound();
    EveryNetRunIsSound(NET, actions);
    var n := NetRun(NET, actions);
    var db, g := n.sys.db, n.sys.db.grants[i];
    GrantOfIsTheGrant(db.grants, i);
    assert BindingHolds(g, db.rows[g.original], db.rows[g.successor].policy);
    BindingConfirmedIffOneOwner(actions, i);
  }

  lemma {:induction false} SecondRequest(db: Db, g: Grant, req: RebaselineRequest, owner: Option<Owner>)
    requires GrantOf(db.grants, req.original) == Some(g) && req.cutoff <= req.authorizedAt
    requires req.original in db.rows && db.rows[req.original].policy.scope.Some?
    ensures var (db', outcome) := RebaselineWatch(db, req, owner);
      && db' == db && !outcome.Granted?
      && (outcome == AnotherGrant <==> !(req.reason == g.reason && req.snapshot == g.snapshot && req.authorizedAt == g.authorizedAt))
  {
  }

  /** A watch is rebaselined once: another request for it gets no grant, and is told so
      exactly when it differs from the first in reason, snapshot or time. */
  lemma {:induction false} AnotherGrantIff(actions: seq<NetAction>, i: nat, req: RebaselineRequest, owner: Option<Owner>)
    requires var db := NetRun(NET, actions).sys.db;
      && i < |db.grants| && req.original == db.grants[i].original && req.cutoff <= req.authorizedAt
      && req.original in db.rows && db.rows[req.original].policy.scope.Some?
    ensures var db := NetRun(NET, actions).sys.db; var g := db.grants[i];
      && RebaselineWatch(db, req, owner).0 == db && !RebaselineWatch(db, req, owner).1.Granted?
      && (RebaselineWatch(db, req, owner).1 == AnotherGrant <==>
            !(req.reason == g.reason && req.snapshot == g.snapshot && req.authorizedAt == g.authorizedAt))
  {
    NetStartsSound();
    EveryNetRunIsSound(NET, actions);
    var db := NetRun(NET, actions).sys.db;
    GrantOfIsTheGrant(db.grants, i);
    SecondRequest(db, db.grants[i], req, owner);
  }

  // ---- where a second owner comes from -----------------------------------------------------

  lemma {:induction false} OwnerRowsWith(t: seq<Admission>, a: Admission, root: WatchId)
    ensures OwnerRows(t + [a], root) == OwnerRows(t, root) + (if Owns(a, root) then {a} else {})
  {
  }

  /** An acceptance that owns, instead of sharing, the watch it was offered. */
  predicate OwnsRoot(n: Net, a: NetAction, root: WatchId) {
    && a.Admit? && a.precheck.None? && Offered(a.c) && a.c.policy.watchId == root
    && ForKey(n.table, a.c.key).None? && !IdTaken(n.table, a.c.id)
    && Decide(n.table, n.sys.db.rows, a.c) == Own(a.c)
  }

  lemma {:induction false} InsertionOwns(t: seq<Admission>, a: Admission, root: WatchId)
    ensures |OwnerRows(Insert(t, a).0, root)| ==
      |OwnerRows(t, root)| + (if ForKey(t, a.key).None? && !IdTaken(t, a.id) && Owns(a, root) then 1 else 0)
  {
    OwnerRowsWith(t, a, root);
    if !IdTaken(t, a.id) {
      forall k | 0 <= k < |t| ensures t[k] != a {
        assert t[k].id != a.id;
      }
    }
  }

  lemma {:induction false} OnlyOwnOwns(t: seq<Admission>, rows: map<WatchId, Row>, c: Candidate, root: WatchId)
    ensures Owns(Decide(t, rows, c), root) <==> Decide(t, rows, c) == Own(c) && c.policy.watchId == root
    ensures Decide(t, rows, c).key == c.key && Decide(t, rows, c).id == c.id
  {
  }

  lemma {:induction false} DispatcherKeepsTable(n: Net, a: NetAction)
    requires OfDispatcher(a)
    ensures NetStep(n, a).table == n.table
    ensures !a.Writing? ==> NetStep(n, a).sys == n.sys
  {
  }

  lemma {:induction false} DispatchKeepsTable(n: Net, a: NetAction)
    requires !a.Admit?
    ensures NetStep(n, a).table == n.table
    ensures !a.WatchStep? && !a.ActivateWatch? && !a.Writing? ==> NetStep(n, a).sys == n.sys
  {
    if OfDispatcher(a) { DispatcherKeepsTable(n, a); }
  }

  lemma {:induction false} OneMoreOwnerIff(n: Net, a: NetAction, root: WatchId)
    ensures |OwnerRows(NetStep(n, a).table, root)| == |OwnerRows(n.table, root)| + (if OwnsRoot(n, a, root) then 1 else 0)
  {
    if !a.Admit? {
      DispatchKeepsTable(n, a);
    } else if a.precheck.Some? {
      InsertionOwns(n.table, Reject(a.c, Precheck(a.precheck.value)), root);
    } else {
      InsertionOwns(n.table, Decide(n.table, n.sys.db.rows, a.c), root);
      OnlyOwnOwns(n.table, n.sys.db.rows, a.c, root);
    }
  }

  /** How many acceptances of a run own that watch. */
  function OwningSteps(n: Net, actions: seq<NetAction>, root: WatchId): nat
    decreases |actions|
  {
    if actions == [] then 0
    else (if OwnsRoot(n, actions[0], root) then 1 else 0) + OwningSteps(NetStep(n, actions[0]), actions[1..], root)
  }

  lemma {:induction false} OwnersAreOwningSteps(n: Net, actions: seq<NetAction>, root: WatchId)
    ensures |OwnerRows(NetRun(n, actions).table, root)| == |OwnerRows(n.table, root)| + OwningSteps(n, actions, root)
    decreases |actions|
  {
    if actions != [] {
      OneMoreOwnerIff(n, actions[0], root);
      OwnersAreOwningSteps(NetStep(n, actions[0]), actions[1..], root);
    }
  }

  /** So a grant is confirmed exactly in the runs in which one acceptance alone owned
      the root of its lineage. */
  lemma {:induction false} BindingConfirmedIffOwnedOnce(actions: seq<NetAction>, i: nat)
    requires i < |NetRun(NET, actions).sys.db.grants|
    ensures var n := NetRun(NET, actions); var g := n.sys.db.grants[i];
      Confirmed(n.table, n.sys.db, g) <==> OwningSteps(NET, actions, Root(n.sys.db.grants, g.original)) == 1
  {
    var n := NetRun(NET, actions);
    BindingConfirmedIffOneOwner(actions, i);
    OwnersAreOwningSteps(NET, actions, Root(n.sys.db.grants, n.sys.db.grants[i].original));
    assert OwnerRows(NET.table, Root(n.sys.db.grants, n.sys.db.grants[i].original)) == {};
  }

  /** Owning a watch that is owned already takes an owner which the new request cannot
      share: of another scope or profile, ending earlier, or retired. */
  lemma {:induction false} OwnedAgainOnlyIfNotShareable(n: Net, a: NetAction, root: WatchId, o: Admission)
    requires OwnsRoot(n, a, root) && o in OwnerRows(n.table, root)
    ensures
      || o.opKey != Some(a.c.opKey) || o.profile.id != a.c.profile.id
      || o.expiresAt.None? || o.expiresAt.value < a.c.policy.expiresAt
      || (root in n.sys.db.rows && Terminal(n.sys.db.rows[root].status))
  {
    var rows := n.sys.db.rows;
    assert !Equivalent(o, rows, a.c.opKey, a.c.profile.id, a.c.policy.expiresAt);
  }

  // ---- and it never goes away ------------------------------------------------------------------

  /** What stays of watches and owners from any state on. */
  predicate LineagesGrow(db: Db, db': Db) {
    && db.rows.Keys <= db'.rows.Keys
    && db.grants <= db'.grants
    && (forall w :: w in db.rows ==> Root(db'.grants, w) == Root(db.grants, w))
  }

  predicate OwnersGrow(n: Net, n': Net) {
    LineagesGrow(n.sys.db, n'.sys.db) && n.table <= n'.table
  }

  lemma {:induction false} LineagesKeepGrowing(a: Db, b: Db, c: Db)
    requires LineagesGrow(a, b) && LineagesGrow(b, c)
    ensures LineagesGrow(a, c)
  {
  }

  lemma {:induction false} WatchStepKeepsOwners(n: Net, a: Action)
    requires NetSound(n) && (a.External? ==> !a.op.Deliver? && OwnerLookedUp(n.table, n.sys.db, a.op))
    ensures OwnersGrow(n, n.(sys := Next(n.sys, a)))
  {
    ActionGrows(n.sys, a);
    ActionGrants(n.table, n.sys, a);
  }

  lemma {:induction false} StampKeepsGrants(db: Db, wake: Wake, at: Time)
    ensures StampDelivered(db, wake, at).grants == db.grants && StampDelivered(db, wake, at).rows == db.rows
  {
  }

  lemma {:induction false} InsertionGrows(t: seq<Admission>, a: Admission)
    ensures t <= Insert(t, a).0
  {
  }

  lemma {:induction false} AdmitKeepsOwners(n: Net, a: NetAction)
    requires a.Admit?
    ensures OwnersGrow(n, NetStep(n, a))
  {
    InsertionGrows(n.table, Reject(a.c, if a.precheck.Some? then Precheck(a.precheck.value) else BranchLimit));
    InsertionGrows(n.table, Decide(n.table, n.sys.db.rows, a.c));
  }

  lemma {:induction false} WritingKeepsOwners(n: Net, id: nat)
    ensures OwnersGrow(n, NetStep(n, Writing(id)))
  {
    if id in n.dispatchers {
      StampKeepsGrants(n.sys.db, n.dispatchers[id].wake, n.dispatchers[id].at);
      DispatchKeepsTable(n, Writing(id));
    }
  }

  lemma {:induction false} ActivateKeepsOwners(n: Net, i: nat, cutoff: Time)
    requires NetSound(n) && i < |n.table|
    ensures OwnersGrow(n, NetStep(n, ActivateWatch(i, cutoff)))
  {
    var op := ActivationIsCreation(n, i, cutoff);
    if op.Some? { WatchStepKeepsOwners(n, External(op.value)); }
  }

  lemma {:induction false} StepKeepsOwners(n: Net, a: NetAction)
    requires NetSound(n)
    ensures OwnersGrow(n, NetStep(n, a))
  {
    if a.Admit? {
      AdmitKeepsOwners(n, a);
    } else if a.Writing? {
      WritingKeepsOwners(n, a.id);
    } else if a.WatchStep? {
      if Permitted(n, a.a) { WatchStepKeepsOwners(n, a.a); }
    } else if a.ActivateWatch? {
      if a.i < |n.table| { ActivateKeepsOwners(n, a.i, a.cutoff); }
    } else {
      DispatchKeepsTable(n, a);
    }
  }

  lemma {:induction false} OwnersOnlyGrow(n: Net, actions: seq<NetAction>)
    requires NetSound(n)
    ensures NetSound(NetRun(n, actions)) && OwnersGrow(n, NetRun(n, actions))
    decreases |actions|
  {
    if actions != [] {
      var n' := NetStep(n, actions[0]);
      NetStepStaysSound(n, actions[0]);
      StepKeepsOwners(n, actions[0]);
      OwnersOnlyGrow(n', actions[1..]);
      LineagesKeepGrowing(n.sys.db, n'.sys.db, NetRun(n, actions).sys.db);
    }
  }

  lemma {:induction false} OwnerRowsOfPrefix(t: seq<Admission>, t': seq<Admission>, root: WatchId)
    requires t <= t'
    ensures OwnerRows(t, root) <= OwnerRows(t', root)
  {
    forall a | a in t ensures a in t' {
      var k :| 0 <= k < |t| && t[k] == a;
      assert t'[k] == a;
    }
  }

  /** The lineage of a successor has an owner row, so a refused one has several. */
  lemma {:induction false} RefusedMeansSeveral(t: seq<Admission>, db: Db, w: WatchId)
    requires Linked(db) && GrantsOwned(t, db)
    ensures !LineageConfirmed(t, db, w) <==> IsSuccessor(db.grants, w) && 1 < |OwnerRows(t, Root(db.grants, w))|
  {
    LineageConfirmedIff(t, db, w);
    if IsSuccessor(db.grants, w) {
      var i :| 0 <= i < |db.grants| && db.grants[i].successor == w;
      OneStepBack(db.grants, i);
      assert GrantOwned(t, db, db.grants[i]);
      assert OwnerRows(t, Root(db.grants, w)) != {};
    }
  }

  lemma {:induction false} SuccessorsStay(grants: seq<Grant>, grants': seq<Grant>, w: WatchId)
    requires grants <= grants' && IsSuccessor(grants, w)
    ensures IsSuccessor(grants', w)
  {
    var i :| 0 <= i < |grants| && grants[i].successor == w;
    assert grants'[i] == grants[i];
  }

  /** A lineage that is refused once is refused forever: no dispatcher resolves its
      wakes any more, and none of its grants is replayed. */
  lemma {:induction false} RefusedForever(n: Net, actions: seq<NetAction>, w: WatchId)
    requires NetSound(n) && w in n.sys.db.rows && !LineageConfirmed(n.table, n.sys.db, w)
    ensures !LineageConfirmed(NetRun(n, actions).table, NetRun(n, actions).sys.db, w)
  {
    var n' := NetRun(n, actions);
    OwnersOnlyGrow(n, actions);
    RefusedMeansSeveral(n.table, n.sys.db, w);
    SuccessorsStay(n.sys.db.grants, n'.sys.db.grants, w);
    OwnerRowsOfPrefix(n.table, n'.table, Root(n.sys.db.grants, w));
    MoreMembers(OwnerRows(n.table, Root(n.sys.db.grants, w)), OwnerRows(n'.table, Root(n.sys.db.grants, w)));
    RefusedMeansSeveral(n'.table, n'.sys.db, w);
  }

  lemma {:induction false} MoreMembers<T>(a: set<T>, b: set<T>)
    requires a <= b
    ensures |a| <= |b|
  {
    assert |b| == |a| + |b - a| by { assert b == a + (b - a); }
  }

  // ---- so its wakes are not dispatched -----------------------------------------------------------

  /** The wake has its lineage resolved, or is being dispatched, or has its set. */
  predicate TakenUp(n: Net, wake: Wake) {
    || wake in n.sets
    || (exists id :: id in n.resolved && n.resolved[id] == wake)
    || (exists id :: id in n.dispatchers && n.dispatchers[id].wake == wake)
  }

  predicate NothingNew(n: Net, n': Net) {
    && n'.sets == n.sets
    && (forall id :: id in n'.resolved ==> id in n.resolved && n'.resolved[id] == n.resolved[id])
    && (forall id :: id in n'.dispatchers ==> id in n.dispatchers && n'.dispatchers[id].wake == n.dispatchers[id].wake)
  }

  lemma {:induction false} StartTakesUpNothing(n: Net, id: nat)
    requires id in n.dispatchers
    ensures NothingNew(n, StartRun(n, id))
  {
  }

  lemma {:induction false} AppendTakesUpNothing(n: Net, id: nat)
    requires id in n.dispatchers
    ensures NothingNew(n, AppendBinding(n, id))
  {
  }

  lemma {:induction false} MarkTakesUpNothing(n: Net, id: nat)
    requires id in n.dispatchers
    ensures NothingNew(n, MarkDone(n, id)) && NothingNew(n, WriteDelivery(n, id))
  {
  }

  lemma {:induction false} WaitTakesUpNothing(n: Net, id: nat)
    requires id in n.dispatchers
    ensures NothingNew(n, TryClaim(n, id)) && NothingNew(n, AwaitRun(n, id))
  {
  }

  lemma {:induction false} DispatcherTakesUpNothing(n: Net, a: NetAction)
    requires OfDispatcher(a)
    ensures NothingNew(n, NetStep(n, a))
  {
    if a.id in n.dispatchers {
      StartTakesUpNothing(n, a.id);
      AppendTakesUpNothing(n, a.id);
      MarkTakesUpNothing(n, a.id);
      WaitTakesUpNothing(n, a.id);
    }
  }

  lemma {:induction false} NothingNewTakenUp(n: Net, n': Net, wake: Wake)
    requires NothingNew(n, n')
    ensures TakenUp(n', wake) ==> TakenUp(n, wake)
  {
  }

  lemma {:induction false} BeginTakesUpTheResolved(n: Net, id: nat, w: Wake, at: Time, wake: Wake)
    ensures TakenUp(Begin(n, id, w, at), wake) ==> TakenUp(n, wake)
  {
    var n' := Begin(n, id, w, at);
    BeginChanges(n, id, w, at);
    if n' != n && wake == w { assert n.resolved[id] == wake; }
  }

  lemma {:induction false} BeginChanges(n: Net, id: nat, w: Wake, at: Time)
    ensures var n' := Begin(n, id, w, at);
      || n' == n
      || (id in n.resolved && n.resolved[id] == w && n'.resolved == n.resolved - {id}
          && (forall x :: x in n'.sets ==> x in n.sets || x == w)
          && (forall x :: x in n'.dispatchers && n'.dispatchers[x].wake != w ==> x in n.dispatchers && n'.dispatchers[x] == n.dispatchers[x]))
  {
  }

  lemma {:induction false} TakenUpBy(n: Net, a: NetAction, wake: Wake)
    requires !TakenUp(n, wake) && TakenUp(NetStep(n, a), wake)
    ensures LineageConfirmed(n.table, n.sys.db, wake.watchId)
  {
    if OfDispatcher(a) {
      DispatcherTakesUpNothing(n, a);
      NothingNewTakenUp(n, NetStep(n, a), wake);
    } else if a.BeginDispatch? {
      BeginTakesUpTheResolved(n, a.id, a.wake, a.at, wake);
    }
  }

  /** Whatever wake is dispatched, its lineage was confirmed at some step of the run. */
  lemma {:induction false} OnlyConfirmedAreTakenUp(n: Net, actions: seq<NetAction>, wake: Wake) returns (k: nat)
    requires !TakenUp(n, wake) && TakenUp(NetRun(n, actions), wake)
    ensures k < |actions| && var m := NetRun(n, actions[..k]); LineageConfirmed(m.table, m.sys.db, wake.watchId)
    decreases |actions|
  {
    var n' := NetStep(n, actions[0]);
    if TakenUp(n', wake) {
      TakenUpBy(n, actions[0], wake);
      k := 0;
    } else {
      k := OnlyConfirmedAreTakenUp(n', actions[1..], wake);
      assert actions[..k + 1][0] == actions[0] && actions[..k + 1][1..] == actions[1..][..k];
      k := k + 1;
    }
  }

  /** A wake whose lineage is refused before anybody took it up is never dispatched and
      never marked. */
  lemma {:induction false} RefusedIsNeverDispatched(n: Net, actions: seq<NetAction>, wake: Wake)
    requires NetSound(n) && wake.watchId in n.sys.db.rows
    requires !LineageConfirmed(n.table, n.sys.db, wake.watchId) && !TakenUp(n, wake)
    ensures var n' := NetRun(n, actions);
      && !TakenUp(n', wake)
      && forall i :: 0 <= i < |n'.sys.db.outbox| && n'.sys.db.outbox[i].wake == wake ==> n'.sys.db.outbox[i].deliveredAt.None?
  {
    var n' := NetRun(n, actions);
    if TakenUp(n', wake) {
      var k := OnlyConfirmedAreTakenUp(n, actions, wake);
      RefusedForever(n, actions[..k], wake.watchId);
    }
    EveryNetRunIsSound(n, actions);
  }

  // ---- one such run ------------------------------------------------------------------------------

  const POLICY := Policy(1, 7, 3, Some(Scope(4, 5)), None, 0, 100, 10, 1000, 10, 5, 10, 2, {})
  const PROFILE := Profile(21, 10, 10, 10, 1000, 10)

  function Candidacy(id: Id, request: Id): Candidate {
    Candidate(id, Key(request, 7, TRIAGE_COORDINATOR, 1), 9, PROFILE, 31, POLICY, 0)
  }

  const REQUEST := RebaselineRequest(1, 13, 51, {}, 1, 2, 61, 71)
  const RESPONSE := Collected(1, 1, 0, true, Frozen(50, false, {}))

  /** One watch is admitted, polled into an incomplete snapshot and rebaselined; then
      another request of the same parent, decided at the same second, is offered the
      same policy, finds the owner's watch retired, and owns it a second time. */
  const TWO_OWNERS: seq<NetAction> := [
    Admit(Candidacy(1, 11), None), ActivateWatch(0, 0),
    WatchStep(Start(0, 1, 0, 0, 60)), WatchStep(Collect(0, RESPONSE)), WatchStep(Finish(0)),
    WatchStep(External(Rebaseline(REQUEST, Some(Owner(7, 9))))), Admit(Candidacy(2, 12), None)]

  lemma {:induction false} AlreadyOwned(t: seq<Admission>)
    requires t == [Own(Candidacy(1, 11))]
    ensures OwnerOf(t, 1, POLICY) == Some(Owner(7, 9))
  {
    assert OwnerRows(t, 1) == {t[0]};
    OwnerIsTheRow(t, 1, POLICY, t[0]);
  }

  const POLLED := FreshRow(POLICY, 0, 0).(
    status := BackingOff, updatedAt := 1, nextDueAt := 21, polls := 1, bytes := 1, lastError := Some(SnapshotIncomplete))

  const FIRST := [Own(Candidacy(1, 11))]

  lemma {:induction false} FirstIsAdmitted()
    ensures NetStep(NET, TWO_OWNERS[0]) == NET.(table := FIRST)
  {
  }

  lemma {:induction false} ThenActivated()
    ensures NetStep(NET.(table := FIRST), TWO_OWNERS[1]) ==
      NET.(table := FIRST, sys := START.(db := EMPTY.(rows := map[1 := FreshRow(POLICY, 0, 0)], seen := map[1 := {}])))
  {
    var owner := Earliest(FIRST, (o: Admission) => Owns(o, 1));
    assert FIRST[0] in FIRST && Owns(FIRST[0], 1);
  }

  lemma {:induction false} ThenPolled(s: Sys)
    requires s == START.(db := EMPTY.(rows := map[1 := FreshRow(POLICY, 0, 0)], seen := map[1 := {}]))
    ensures var s' := Next(Next(Next(s, Start(0, 1, 0, 0, 60)), Collect(0, RESPONSE)), Finish(0));
      s'.db.rows == map[1 := POLLED] && s'.db.grants == [] && s'.db.outbox == []
  {
    var claimed := Next(s, Start(0, 1, 0, 0, 60));
    assert 0 in claimed.workers;
    var ready := Next(claimed, Collect(0, RESPONSE));
    assert 0 in ready.workers && ready.workers[0].Ready?;
  }

  lemma {:induction false} ThenRebaselined(db: Db)
    requires db.rows == map[1 := POLLED] && db.grants == []
    ensures var (db', outcome) := RebaselineWatch(db, REQUEST, Some(Owner(7, 9)));
      && outcome.Granted? && db'.grants == [outcome.grant] && outcome.grant.original == 1 && outcome.grant.successor == 71
      && db'.rows.Keys == {1, 71} && db'.rows[1].status == Rebaselined && db'.rows[71].status == Active
      && db'.rows[1].policy == POLICY
  {
  }

  lemma {:induction false} ThenOwnedAgain(rows: map<WatchId, Row>)
    requires rows.Keys == {1, 71} && rows[1].status == Rebaselined
    ensures CommitAcceptance(FIRST, rows, Candidacy(2, 12)).0 == FIRST + [Own(Candidacy(2, 12))]
  {
    var c := Candidacy(2, 12);
    assert Earliest(FIRST, (a: Admission) => Equivalent(a, rows, c.opKey, c.profile.id, c.policy.expiresAt)).None?;
    assert ActiveWatches(FIRST, rows, 0) == {};
  }

  /** The watch steps of that run, before the second acceptance. */
  lemma {:induction false} UpToTheGrant(n: Net) returns (n': Net)
    requires n == NET.(table := FIRST, sys := START.(db := EMPTY.(rows := map[1 := FreshRow(POLICY, 0, 0)], seen := map[1 := {}])))
    ensures n' == NetStep(NetStep(NetStep(NetStep(n, TWO_OWNERS[2]), TWO_OWNERS[3]), TWO_OWNERS[4]), TWO_OWNERS[5])
    ensures n'.table == FIRST && |n'.sys.db.grants| == 1 && n'.sys.db.rows.Keys == {1, 71}
    ensures var g := n'.sys.db.grants[0];
      && g.original == 1 && g.successor == 71
      && n'.sys.db.rows[1].status == Rebaselined && n'.sys.db.rows[71].status == Active
  {
    ThenPolled(n.sys);
    var polled := NetStep(NetStep(NetStep(n, TWO_OWNERS[2]), TWO_OWNERS[3]), TWO_OWNERS[4]);
    assert polled.table == FIRST && polled.sys.db.rows == map[1 := POLLED] && polled.sys.db.grants == [];
    AlreadyOwned(FIRST);
    assert OwnerFor(FIRST, polled.sys.db, 1) == Some(Owner(7, 9));
    ThenRebaselined(polled.sys.db);
    n' := NetStep(polled, TWO_OWNERS[5]);
  }

  lemma {:induction false} RunUnfolds(n: Net, a: NetAction, rest: seq<NetAction>)
    ensures NetRun(n, [a] + rest) == NetRun(NetStep(n, a), rest)
  {
    assert ([a] + rest)[1..] == rest;
  }

  /** After it the successor is live, and neither its lineage nor its grant passes. */
  lemma {:induction false} SecondOwnerBreaksTheLineage()
    ensures var n := NetRun(NET, TWO_OWNERS);
      && |n.sys.db.grants| == 1 && n.sys.db.grants[0].successor == 71
      && 71 in n.sys.db.rows && n.sys.db.rows[71].status == Active
      && OwnerFor(n.table, n.sys.db, n.sys.db.grants[0].original) == None
      && !Confirmed(n.table, n.sys.db, n.sys.db.grants[0])
      && !LineageConfirmed(n.table, n.sys.db, 71)
  {
    var t := TWO_OWNERS;
    FirstIsAdmitted();
    ThenActivated();
    var n2 := NetStep(NetStep(NET, t[0]), t[1]);
    var n6 := UpToTheGrant(n2);
    ThenOwnedAgain(n6.sys.db.rows);
    SevenSteps(n2, n6);
    var n7 := NetStep(n6, t[6]);
    assert n7.table == FIRST + [Own(Candidacy(2, 12))] && n7.sys == n6.sys;
    TwoOwners();
    TwoOwnersRefuse(n7.table, n7.sys.db);
  }

  lemma {:induction false} TwoOwners()
    ensures |OwnerRows(FIRST + [Own(Candidacy(2, 12))], 1)| == 2
  {
    OwnerRowsWith(FIRST, Own(Candidacy(2, 12)), 1);
    assert OwnerRows(FIRST, 1) == {FIRST[0]};
  }

  lemma {:induction false} TwoOwnersRefuse(t: seq<Admission>, db: Db)
    requires |OwnerRows(t, 1)| == 2 && |db.grants| == 1 && db.grants[0].original == 1 && db.grants[0].successor == 71
    ensures OwnerFor(t, db, 1) == None && !Confirmed(t, db, db.grants[0]) && !LineageConfirmed(t, db, 71)
  {
    RootOfTheFirst(db.grants);
    assert Ancestry(db.grants, 71)[0] == db.grants[0];
  }

  lemma {:induction false} RootOfTheFirst(grants: seq<Grant>)
    requires |grants| == 1 && grants[0].original == 1 && grants[0].successor == 71
    ensures Root(grants, 1) == 1 && |Ancestry(grants, 71)| == 1 && Ancestry(grants, 71)[0] == grants[0]
  {
    assert grants[..0] == [];
  }

  lemma {:induction false} SevenSteps(n2: Net, n6: Net)
    requires n2 == NetStep(NetStep(NET, TWO_OWNERS[0]), TWO_OWNERS[1])
    requires n6 == NetStep(NetStep(NetStep(NetStep(n2, TWO_OWNERS[2]), TWO_OWNERS[3]), TWO_OWNERS[4]), TWO_OWNERS[5])
    ensures NetRun(NET, TWO_OWNERS) == NetStep(n6, TWO_OWNERS[6])
  {
    var t := TWO_OWNERS;
    var n1 := NetStep(NET, t[0]);
    var n3 := NetStep(n2, t[2]);
    var n4 := NetStep(n3, t[3]);
    var n5 := NetStep(n4, t[4]);
    RunUnfolds(NET, t[0], t[1..]);
    RunUnfolds(n1, t[1], t[2..]);
    RunUnfolds(n2, t[2], t[3..]);
    RunUnfolds(n3, t[3], t[4..]);
    RunUnfolds(n4, t[4], t[5..]);
    RunUnfolds(n5, t[5], t[6..]);
    RunUnfolds(n6, t[6], []);
    assert t == [t[0]] + t[1..] && t[1..] == [t[1]] + t[2..] && t[2..] == [t[2]] + t[3..] && t[3..] == [t[3]] + t[4..];
    assert t[4..] == [t[4]] + t[5..] && t[5..] == [t[5]] + t[6..] && t[6..] == [t[6]] + [];
  }
}
