/** What a frozen callback set holds: every admission accepted on the root of the wake's
    watch when the set was frozen, and none besides, in the order of admission. */
module CallbackSets {
  import opened Base
  import opened WatchStore
  import opened WatchLineage
  import opened Admission
  import opened Dispatch
  import opened EndToEnd

  // ---- order ---------------------------------------------------------------------------------

  predicate Precedes(a: Admission, b: Admission) {
    a.admittedAt < b.admittedAt || (a.admittedAt == b.admittedAt && a.id < b.id)
  }

  predicate InOrderOfAdmission(s: seq<Admission>) {
    forall i, j :: 0 <= i < j < |s| ==> Precedes(s[i], s[j])
  }

  lemma {:induction false} HeadPrecedes(s: seq<Admission>, a: Admission, b: Admission)
    requires s != [] && InOrderOfAdmission(s) && Precedes(s[0], a) && b in InsertSorted(s[1..], a)
    ensures Precedes(s[0], b)
  {
    assert b in multiset(InsertSorted(s[1..], a));
    if b != a {
      assert b in multiset(s[1..]);
      var k :| 0 <= k < |s[1..]| && s[1..][k] == b;
      assert s[k + 1] == b;
    }
  }

  lemma {:induction false} InsertionSorts(s: seq<Admission>, a: Admission)
    requires InOrderOfAdmission(s) && forall b :: b in s ==> b.id != a.id
    ensures InOrderOfAdmission(InsertSorted(s, a))
  {
    if s != [] && !Before(a, s[0]) {
      var sorted := InsertSorted(s[1..], a);
      InsertionSorts(s[1..], a);
      assert s[0] in s && Precedes(s[0], a);
      forall j | 0 <= j < |sorted| ensures Precedes(s[0], sorted[j]) { HeadPrecedes(s, a, sorted[j]); }
    }
  }

  lemma {:induction false} SelectionIsSorted(t: seq<Admission>, p: Admission -> bool)
    requires OneDecisionPerKey(t)
    ensures InOrderOfAdmission(InOrder(t, p))
  {
    if t != [] {
      var last, rest := t[|t| - 1], t[..|t| - 1];
      SelectionIsSorted(rest, p);
      forall b | b in InOrder(rest, p) ensures b.id != last.id {
        InOrderSelects(rest, p, b);
        var k :| 0 <= k < |rest| && rest[k] == b;
        assert t[k].id != t[|t| - 1].id;
      }
      if p(last) { InsertionSorts(InOrder(rest, p), last); }
    }
  }

  // ---- the set that a lookup freezes ----------------------------------------------------------

  /** The ids of exactly the rows accepted on `root`, in the order of admission. */
  predicate HoldsAllAccepted(t: seq<Admission>, root: WatchId, ids: seq<Id>) {
    && (forall a :: a in t ==> (a.id in ids <==> (a.outcome.Admitted? || a.outcome.Reused?) && a.watch == Some(root)))
    && (forall id :: id in ids ==> ById(t, id).Some?)
    && (forall i, j :: 0 <= i < j < |ids| && ById(t, ids[i]).Some? && ById(t, ids[j]).Some? ==>
          Precedes(ById(t, ids[i]).value, ById(t, ids[j]).value))
  }

  lemma {:induction false} SameId(t: seq<Admission>, a: Admission, b: Admission)
    requires OneDecisionPerKey(t) && a in t && b in t && a.id == b.id
    ensures a == b
  {
    var i :| 0 <= i < |t| && t[i] == a;
    var j :| 0 <= j < |t| && t[j] == b;
  }

  lemma {:induction false} LookupHoldsAll(t: seq<Admission>, root: WatchId)
    requires OneDecisionPerKey(t)
    ensures HoldsAllAccepted(t, root, Ids(Callbacks(t, root)))
  {
    var as', ids := Callbacks(t, root), Ids(Callbacks(t, root));
    SelectionIsSorted(t, (a: Admission) => Accepted(a) && a.watch == Some(root));
    forall i | 0 <= i < |ids| ensures ById(t, ids[i]) == Some(as'[i]) {
      CallbacksAreTheAccepted(t, root, as'[i]);
      SameId(t, as'[i], ById(t, ids[i]).value);
    }
    forall a | a in t ensures a.id in ids <==> Accepted(a) && a.watch == Some(root) {
      CallbacksAreTheAccepted(t, root, a);
      if a in as' {
        var k :| 0 <= k < |as'| && as'[k] == a;
        assert ids[k] == a.id;
      }
      if a.id in ids {
        var k :| 0 <= k < |ids| && ids[k] == a.id;
        CallbacksAreTheAccepted(t, root, as'[k]);
        SameId(t, a, as'[k]);
      }
    }
  }

  lemma {:induction false} OnlyBeginFreezes(n: Net, a: NetAction, wake: Wake)
    requires wake !in n.sets && wake in NetStep(n, a).sets
    ensures a.BeginDispatch? && a.wake == wake && NetStep(n, a) == Begin(n, a.id, wake, a.at)
  {
    if OfDispatcher(a) { DispatcherFreezesNothing(n, a); }
  }

  lemma {:induction false} DispatcherFreezesNothing(n: Net, a: NetAction)
    requires OfDispatcher(a)
    ensures NetStep(n, a).sets == n.sets
  {
  }

  /** In every run, whichever step freezes the set of a wake, the set holds exactly the
      admissions accepted on the root of its watch at that moment, in their order. */
  lemma {:induction false} FreezeHoldsAllAccepted(n: Net, a: NetAction, wake: Wake)
    requires NetSound(n) && wake !in n.sets && wake in NetStep(n, a).sets
    ensures HoldsAllAccepted(n.table, Root(n.sys.db.grants, wake.watchId), NetStep(n, a).sets[wake])
  {
    OnlyBeginFreezes(n, a, wake);
    LookupHoldsAll(n.table, Root(n.sys.db.grants, wake.watchId));
    BeginFreezesLookup(n, a.id, wake, a.at);
  }

  lemma {:induction false} BeginFreezesLookup(n: Net, id: nat, wake: Wake, at: Time)
    requires wake !in n.sets && wake in Begin(n, id, wake, at).sets
    ensures Begin(n, id, wake, at).sets[wake] == Ids(Callbacks(n.table, Root(n.sys.db.grants, wake.watchId)))
  {
  }

  // ---- from the freeze to the delivery ----------------------------------------------------------

  /** The step of a run that froze the set of a wake. */
  lemma {:induction false} FreezingStep(n: Net, actions: seq<NetAction>, wake: Wake) returns (k: nat)
    requires wake !in n.sets && wake in NetRun(n, actions).sets
    ensures k < |actions| && wake !in NetRun(n, actions[..k]).sets
    ensures wake in NetStep(NetRun(n, actions[..k]), actions[k]).sets
    ensures NetRun(n, actions) == NetRun(NetStep(NetRun(n, actions[..k]), actions[k]), actions[k + 1..])
    decreases |actions|
  {
    var n' := NetStep(n, actions[0]);
    if wake in n'.sets {
      k := 0;
      assert actions[..0] == [];
    } else {
      k := FreezingStep(n', actions[1..], wake);
      assert actions[..k + 1][0] == actions[0] && actions[..k + 1][1..] == actions[1..][..k];
      assert actions[1..][k + 1..] == actions[k + 2..];
      k := k + 1;
    }
  }

  /** A delivered wake has its run, with its binding event, for every admission that was
      accepted on the root of its watch when its set was frozen. */
  lemma {:induction false} DeliveryReachesEveryAccepted(actions: seq<NetAction>, i: nat) returns (k: nat)
    requires var n := NetRun(NET, actions); i < |n.sys.db.outbox| && n.sys.db.outbox[i].deliveredAt.Some?
    ensures k < |actions|
    ensures var n, m := NetRun(NET, actions), NetRun(NET, actions[..k]); var wake := n.sys.db.outbox[i].wake;
      && wake !in m.sets && wake in NetStep(m, actions[k]).sets && wake in n.sets
      && HoldsAllAccepted(m.table, Root(m.sys.db.grants, wake.watchId), n.sets[wake])
      && forall a :: a in m.table && Accepted(a) && a.watch == Some(Root(m.sys.db.grants, wake.watchId)) ==>
           RunId(wake, a.id) in n.runs
  {
    NetStartsSound();
    EveryNetRunIsSound(NET, actions);
    var n := NetRun(NET, actions);
    var wake := n.sys.db.outbox[i].wake;
    assert FullyDispatched(n.table, n.sets, n.runs, wake);
    k := FreezingStep(NET, actions, wake);
    var m := NetRun(NET, actions[..k]);
    EveryNetRunIsSound(NET, actions[..k]);
    FreezeHoldsAllAccepted(m, actions[k], wake);
    FrozenStaysFrozen(NetStep(m, actions[k]), actions[k + 1..]);
    DeliveredMeansDispatched(actions, i);
    forall a | a in m.table && Accepted(a) && a.watch == Some(Root(m.sys.db.grants, wake.watchId))
      ensures RunId(wake, a.id) in n.runs
    {
      assert a.id in n.sets[wake];
      assert RunId(wake, a.id) in (set r | r in n.runs && r.wake == wake);
    }
  }
}
