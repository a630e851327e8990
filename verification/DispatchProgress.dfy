/** One dispatch of a wake with nobody else stepping in: what it does, that it is a run
    of the protocol, and exactly when it ends with the wake delivered. */
module DispatchProgress {
  import opened Base
  import opened WatchStore
  import opened WatchLineage
  import opened Admission
  import opened WatchAuthority
  import opened Dispatch
  import opened EndToEnd

  // ---- the dispatch ----------------------------------------------------------------------------

  /** The run and its binding event, under the claim. */
  function UnderClaim(n: Net, id: nat): Net
    requires id in n.dispatchers
  {
    var n' := StartRun(n, id);
    if id in n'.dispatchers && n'.dispatchers[id].phase.Started? then AppendBinding(n', id) else n'
  }

  /** One callback: under its claim, or by a look at the run of whoever has the claim. */
  function OneCallback(n: Net, id: nat): Net
    requires id in n.dispatchers
  {
    var n' := TryClaim(n, id);
    if n'.dispatchers[id].phase.Locked? then UnderClaim(n', id)
    else if n'.dispatchers[id].phase.Waiting? then AwaitRun(n', id)
    else n'
  }

  /** The same, given up when it has to wait; and whether the dispatcher goes on. */
  function CallbackOrStop(n: Net, id: nat): (Net, bool)
    requires id in n.dispatchers
  {
    var n' := OneCallback(n, id);
    if id !in n'.dispatchers then (n', false)
    else if !n'.dispatchers[id].phase.Idle? then (Abandon(n', id), false)
    else (n', true)
  }

  /** The next `left` callbacks, up to the first that does not become durable. */
  function NextCallbacks(n: Net, id: nat, left: nat): (Net, bool)
    decreases left
  {
    if left == 0 || id !in n.dispatchers then (n, left == 0)
    else
      var (n', going) := CallbackOrStop(n, id);
      if going then NextCallbacks(n', id, left - 1) else (n', false)
  }

  /** Mark the wake, if it is read as pending. */
  function Mark(n: Net, id: nat): Net
    requires id in n.dispatchers
  {
    var n' := MarkDone(n, id);
    if id in n'.dispatchers && n'.dispatchers[id].phase.Delivering? then WriteDelivery(n', id) else n'
  }

  /** The lineage, the callback set, the callbacks, the mark; and whether it got there. */
  function DispatchOnce(n: Net, id: nat, wake: Wake, at: Time): (Net, bool)
    requires id !in n.dispatchers
  {
    if !LineageConfirmed(n.table, n.sys.db, wake.watchId) then (n, false)
    else
      var begun := Begin(Resolve(n, id, wake), id, wake, at);
      if id !in begun.dispatchers then (begun, false)
      else
        var (n', all) := NextCallbacks(begun, id, |begun.dispatchers[id].bindings|);
        if all && id in n'.dispatchers then (Mark(n', id), true) else (n', false)
  }

  // ---- it is a run of the protocol ----------------------------------------------------------

  lemma {:induction false} NetRunJoins(n: Net, first: seq<NetAction>, second: seq<NetAction>)
    ensures NetRun(n, first + second) == NetRun(NetRun(n, first), second)
    decreases |first|
  {
    if first == [] {
      assert first + second == second;
    } else {
      assert (first + second)[0] == first[0] && (first + second)[1..] == first[1..] + second;
      NetRunJoins(NetStep(n, first[0]), first[1..], second);
    }
  }

  lemma {:induction false} NetRunThen(n: Net, actions: seq<NetAction>, a: NetAction)
    ensures NetRun(n, actions + [a]) == NetStep(NetRun(n, actions), a)
  {
    NetRunJoins(n, actions, [a]);
    assert [a][1..] == [];
  }

  lemma {:induction false} NetRunOnce(n: Net, a: NetAction)
    ensures NetRun(n, [a]) == NetStep(n, a)
  {
    assert [a][1..] == [];
  }

  lemma {:induction false} CallbackIsARun(n: Net, id: nat) returns (trace: seq<NetAction>)
    requires id in n.dispatchers
    ensures NetRun(n, trace) == OneCallback(n, id)
  {
    var n1 := TryClaim(n, id);
    NetRunOnce(n, Claiming(id));
    trace := [Claiming(id)];
    if n1.dispatchers[id].phase.Locked? {
      NetRunThen(n, trace, Starting(id));
      trace := trace + [Starting(id)];
      var n2 := StartRun(n1, id);
      if id in n2.dispatchers && n2.dispatchers[id].phase.Started? {
        NetRunThen(n, trace, Appending(id));
        trace := trace + [Appending(id)];
      }
    } else if n1.dispatchers[id].phase.Waiting? {
      NetRunThen(n, trace, Awaiting(id));
      trace := trace + [Awaiting(id)];
    }
  }

  lemma {:induction false} CallbackOrStopIsARun(n: Net, id: nat) returns (trace: seq<NetAction>)
    requires id in n.dispatchers
    ensures NetRun(n, trace) == CallbackOrStop(n, id).0
  {
    trace := CallbackIsARun(n, id);
    var n' := OneCallback(n, id);
    if id in n'.dispatchers && !n'.dispatchers[id].phase.Idle? {
      NetRunThen(n, trace, Dropping(id));
      trace := trace + [Dropping(id)];
    }
  }

  ghost predicate Reaches(n: Net, m: Net) {
    exists trace :: NetRun(n, trace) == m
  }

  lemma {:induction false} ReachesOn(n: Net, m: Net, k: Net)
    requires Reaches(n, m) && Reaches(m, k)
    ensures Reaches(n, k)
  {
    var first :| NetRun(n, first) == m;
    var second :| NetRun(m, second) == k;
    NetRunJoins(n, first, second);
  }

  function CallbackStep(id: nat): Net -> (Net, bool) {
    (n: Net) => if id in n.dispatchers then CallbackOrStop(n, id) else (n, false)
  }

  function AllSteps(id: nat): (Net, nat) -> (Net, bool) {
    (n: Net, left: nat) => NextCallbacks(n, id, left)
  }

  /** What holds from before to after each step, and composes, holds of all of them. */
  lemma {:induction false} OfEachThenOfAll(
      step: Net -> (Net, bool), all: (Net, nat) -> (Net, bool), n: Net, left: nat, r: (Net, Net) -> bool)
    requires forall m :: all(m, 0) == (m, true)
    requires forall m, k: nat {:trigger step(m), all(m, k)} :: 0 < k ==>
      all(m, k) == if step(m).1 then all(step(m).0, k - 1) else (step(m).0, false)
    requires forall m :: r(m, m)
    requires forall a, b, c :: r(a, b) && r(b, c) ==> r(a, c)
    requires forall m :: r(m, step(m).0)
    ensures r(n, all(n, left).0)
    decreases left
  {
    if left > 0 {
      assert r(n, step(n).0);
      if step(n).1 { OfEachThenOfAll(step, all, step(n).0, left - 1, r); }
    }
  }

  ghost function Reaching(): (Net, Net) -> bool {
    (n, m) => Reaches(n, m)
  }

  lemma {:induction false} ReachingComposes()
    ensures forall m :: Reaching()(m, m)
    ensures forall a, b, c :: Reaching()(a, b) && Reaching()(b, c) ==> Reaching()(a, c)
  {
    forall m: Net ensures Reaches(m, m) { assert NetRun(m, []) == m; }
    forall a: Net, b: Net, c: Net | Reaches(a, b) && Reaches(b, c) ensures Reaches(a, c) { ReachesOn(a, b, c); }
  }

  lemma {:induction false} StepReaches(n: Net, id: nat)
    ensures Reaching()(n, CallbackStep(id)(n).0)
  {
    if id in n.dispatchers { var one := CallbackOrStopIsARun(n, id); } else { assert NetRun(n, []) == n; }
  }

  lemma {:induction false} NoStepLeft(id: nat, n: Net)
    ensures AllSteps(id)(n, 0) == (n, true)
  {
  }

  lemma {:induction false} OneStepLess(id: nat, n: Net, left: nat, n': Net, going: bool)
    requires 0 < left && CallbackStep(id)(n) == (n', going)
    ensures AllSteps(id)(n, left) == if going then AllSteps(id)(n', left - 1) else (n', false)
  {
    if id in n.dispatchers { NextIs(n, id, left, n', going); }
  }

  lemma {:induction false} CallbacksReach(n: Net, id: nat, left: nat)
    ensures Reaching()(n, AllSteps(id)(n, left).0)
  {
    var step, all := CallbackStep(id), AllSteps(id);
    forall m: Net ensures all(m, 0) == (m, true) { NoStepLeft(id, m); }
    forall m: Net, k: nat | 0 < k ensures all(m, k) == if step(m).1 then all(step(m).0, k - 1) else (step(m).0, false) {
      OneStepLess(id, m, k, step(m).0, step(m).1);
    }
    ReachingComposes();
    forall m: Net ensures Reaching()(m, step(m).0) { StepReaches(m, id); }
    OfEachThenOfAll(step, all, n, left, Reaching());
  }

  lemma {:induction false} CallbacksAreARun(n: Net, id: nat, left: nat) returns (trace: seq<NetAction>)
    ensures NetRun(n, trace) == NextCallbacks(n, id, left).0
  {
    CallbacksReach(n, id, left);
    assert Reaches(n, NextCallbacks(n, id, left).0);
    trace :| NetRun(n, trace) == NextCallbacks(n, id, left).0;
  }

  lemma {:induction false} MarkIsARun(n: Net, id: nat) returns (trace: seq<NetAction>)
    requires id in n.dispatchers
    ensures NetRun(n, trace) == Mark(n, id)
  {
    NetRunOnce(n, Marking(id));
    trace := [Marking(id)];
    var n' := MarkDone(n, id);
    if id in n'.dispatchers && n'.dispatchers[id].phase.Delivering? {
      NetRunThen(n, trace, Writing(id));
      trace := trace + [Writing(id)];
    }
  }

  lemma {:induction false} RestIsARun(begun: Net, id: nat) returns (trace: seq<NetAction>)
    requires id in begun.dispatchers
    ensures var (n', all) := NextCallbacks(begun, id, |begun.dispatchers[id].bindings|);
      NetRun(begun, trace) == if all && id in n'.dispatchers then Mark(n', id) else n'
  {
    var k := |begun.dispatchers[id].bindings|;
    trace := CallbacksAreARun(begun, id, k);
    var (n', all) := NextCallbacks(begun, id, k);
    if all && id in n'.dispatchers {
      var last := MarkIsARun(n', id);
      NetRunJoins(begun, trace, last);
      trace := trace + last;
    }
  }

  lemma {:induction false} BeginIsARun(n: Net, id: nat, wake: Wake, at: Time)
    ensures NetRun(n, [ResolveLineage(id, wake), BeginDispatch(id, wake, at)]) == Begin(Resolve(n, id, wake), id, wake, at)
  {
    NetRunOnce(n, ResolveLineage(id, wake));
    NetRunThen(n, [ResolveLineage(id, wake)], BeginDispatch(id, wake, at));
    assert [ResolveLineage(id, wake)] + [BeginDispatch(id, wake, at)] == [ResolveLineage(id, wake), BeginDispatch(id, wake, at)];
  }

  /** Whatever a dispatch does is a sequence of protocol steps. */
  lemma {:induction false} DispatchIsARun(n: Net, id: nat, wake: Wake, at: Time) returns (trace: seq<NetAction>)
    requires id !in n.dispatchers
    ensures NetRun(n, trace) == DispatchOnce(n, id, wake, at).0
  {
    trace := [];
    if LineageConfirmed(n.table, n.sys.db, wake.watchId) {
      var begun := Begin(Resolve(n, id, wake), id, wake, at);
      BeginIsARun(n, id, wake, at);
      trace := [ResolveLineage(id, wake), BeginDispatch(id, wake, at)];
      if id in begun.dispatchers {
        var rest := RestIsARun(begun, id);
        NetRunJoins(n, trace, rest);
        trace := trace + rest;
      }
    }
  }

  // ---- one callback ---------------------------------------------------------------------------

  /** No claim is held under this identity, as is so of every dispatcher between callbacks. */
  predicate HoldsNothing(locks: map<RunId, nat>, id: nat) {
    forall r :: r in locks ==> locks[r] != id
  }

  lemma {:induction false} ReleaseRestores(locks: map<RunId, nat>, id: nat, r: RunId)
    requires HoldsNothing(locks, id)
    ensures Unlock(locks, id) == locks
    ensures r !in locks ==> Unlock(locks[r := id], id) == locks
  {
  }

  /** The claim on the run is free, or somebody else has made the callback durable. */
  predicate Passable(n: Net, b: Binding) {
    RunIdOf(b) !in n.locks || Durable(n.runs, b)
  }

  /** The callback is done, and nothing but its run has changed. */
  predicate Settled(n: Net, n': Net, id: nat, d: Dispatcher, b: Binding) {
    && n' == n.(runs := n'.runs, dispatchers := n.dispatchers[id := d.(done := d.done + 1, phase := Idle)])
    && Durable(n'.runs, b)
    && n'.runs.Keys == n.runs.Keys + {RunIdOf(b)}
    && forall r :: r in n.runs && r != RunIdOf(b) ==> n'.runs[r] == n.runs[r]
  }

  /** If the run is known it is this callback's, and a binding event in it is the right one. */
  predicate RunFits(runs: map<RunId, RunRec>, b: Binding) {
    var r := RunIdOf(b);
    r in runs ==>
      && runs[r].config == b && (HasBindingEvent(runs[r].events) <==> Durable(runs, b))
      && (runs[r].events != [] <==> Durable(runs, b)) && (runs[r].finished ==> Durable(runs, b))
  }

  lemma {:induction false} KnownRunsFit(n: Net, d: Dispatcher, k: nat)
    requires NetSound(n) && BindingsMatch(n.table, n.sets, d.wake, d.bindings) && k < |d.bindings|
    ensures RunFits(n.runs, d.bindings[k])
  {
    var r := RunIdOf(d.bindings[k]);
    if r in n.runs {
      assert RunSound(n.table, n.sets, r, n.runs[r]);
      assert n.runs[r].config == d.bindings[k];
    }
  }

  lemma {:induction false} NewRunSettles(n: Net, locked: Net, id: nat, d: Dispatcher, b: Binding)
    requires id in n.dispatchers && n.dispatchers[id] == d && d.phase.Idle? && d.done < |d.bindings| && b == d.bindings[d.done]
    requires HoldsNothing(n.locks, id) && RunIdOf(b) !in n.locks && RunIdOf(b) !in n.runs
    requires locked == n.(locks := n.locks[RunIdOf(b) := id], dispatchers := n.dispatchers[id := d.(phase := Locked)])
    ensures Settled(n, UnderClaim(locked, id), id, d, b)
  {
    ReleaseRestores(n.locks, id, RunIdOf(b));
    var started := StartRun(locked, id);
    assert started.runs[RunIdOf(b)] == RunRec(b, false, []) && !HasBindingEvent(started.runs[RunIdOf(b)].events);
  }

  lemma {:induction false} OldRunSettles(n: Net, locked: Net, id: nat, d: Dispatcher, b: Binding)
    requires id in n.dispatchers && n.dispatchers[id] == d && d.phase.Idle? && d.done < |d.bindings| && b == d.bindings[d.done]
    requires HoldsNothing(n.locks, id) && RunIdOf(b) !in n.locks && RunIdOf(b) in n.runs
    requires locked == n.(locks := n.locks[RunIdOf(b) := id], dispatchers := n.dispatchers[id := d.(phase := Locked)])
    requires RunFits(n.runs, b)
    ensures Settled(n, UnderClaim(locked, id), id, d, b)
  {
    var run := n.runs[RunIdOf(b)];
    ReleaseRestores(n.locks, id, RunIdOf(b));
    assert run.events != [] ==> run.events[0] == Bound(b);
  }

  lemma {:induction false} CallbackSettles(n: Net, id: nat, d: Dispatcher, b: Binding)
    requires id in n.dispatchers && n.dispatchers[id] == d && d.phase.Idle? && HoldsNothing(n.locks, id)
    requires d.done < |d.bindings| && b == d.bindings[d.done] && RunFits(n.runs, b)
    ensures Passable(n, b) ==> Settled(n, OneCallback(n, id), id, d, b)
    ensures !Passable(n, b) ==> OneCallback(n, id) == n.(dispatchers := n.dispatchers[id := d.(phase := Waiting)])
  {
    var r := RunIdOf(b);
    ReleaseRestores(n.locks, id, r);
    if r !in n.locks {
      if r in n.runs { OldRunSettles(n, TryClaim(n, id), id, d, b); } else { NewRunSettles(n, TryClaim(n, id), id, d, b); }
    } else if Durable(n.runs, b) {
      assert n.runs[r].events[0] == Bound(b);
    }
  }

  // ---- all of them -----------------------------------------------------------------------------

  /** The callbacks still to come are different runs, and those that are known fit. */
  predicate AllFit(runs: map<RunId, RunRec>, d: Dispatcher) {
    && (forall i, j :: 0 <= i < j < |d.bindings| ==> RunIdOf(d.bindings[i]) != RunIdOf(d.bindings[j]))
    && (forall k :: d.done <= k < |d.bindings| ==> RunFits(runs, d.bindings[k]))
  }

  lemma {:induction false} SoundMeansAllFit(n: Net, d: Dispatcher)
    requires NetSound(n) && BindingsMatch(n.table, n.sets, d.wake, d.bindings)
    ensures AllFit(n.runs, d)
  {
    assert SetSound(n.table, n.sys.db, d.wake, n.sets[d.wake]);
    forall i, j | 0 <= i < j < |d.bindings| ensures RunIdOf(d.bindings[i]) != RunIdOf(d.bindings[j]) {
      assert d.bindings[i].admission == n.sets[d.wake][i] && d.bindings[j].admission == n.sets[d.wake][j];
    }
    forall k | d.done <= k < |d.bindings| ensures RunFits(n.runs, d.bindings[k]) { KnownRunsFit(n, d, k); }
  }

  lemma {:induction false} StillPassable(n: Net, n': Net, id: nat, d: Dispatcher, k: nat)
    requires d.done < k < |d.bindings| && Settled(n, n', id, d, d.bindings[d.done])
    requires RunIdOf(d.bindings[d.done]) != RunIdOf(d.bindings[k])
    ensures Passable(n', d.bindings[k]) <==> Passable(n, d.bindings[k])
    ensures RunFits(n.runs, d.bindings[k]) ==> RunFits(n'.runs, d.bindings[k])
  {
  }

  predicate Frames(n: Net, n': Net) {
    n'.sys == n.sys && n'.table == n.table && n'.sets == n.sets && n'.locks == n.locks
  }

  lemma {:induction false} StopsAtALock(n: Net, id: nat, d: Dispatcher)
    requires id in n.dispatchers && n.dispatchers[id] == d && d.phase.Idle? && HoldsNothing(n.locks, id)
    requires OneCallback(n, id) == n.(dispatchers := n.dispatchers[id := d.(phase := Waiting)])
    ensures var (n', going) := CallbackOrStop(n, id); !going && Frames(n, n') && id !in n'.dispatchers
  {
    ReleaseRestores(n.locks, id, RunId(d.wake, 0));
  }

  predicate AllPassable(n: Net, d: Dispatcher) {
    forall k :: d.done <= k < |d.bindings| ==> Passable(n, d.bindings[k])
  }

  lemma {:induction false} PassesOn(n: Net, n': Net, id: nat, d: Dispatcher)
    requires d.done < |d.bindings| && Settled(n, n', id, d, d.bindings[d.done]) && Passable(n, d.bindings[d.done])
    requires AllFit(n.runs, d) && HoldsNothing(n.locks, id) && d.phase.Idle?
    ensures var d' := d.(done := d.done + 1);
      && AllFit(n'.runs, d') && (AllPassable(n, d) <==> AllPassable(n', d'))
      && Frames(n, n') && id in n'.dispatchers && n'.dispatchers[id] == d' && HoldsNothing(n'.locks, id)
  {
    forall k | d.done < k < |d.bindings|
      ensures Passable(n', d.bindings[k]) <==> Passable(n, d.bindings[k])
      ensures RunFits(n'.runs, d.bindings[k])
    {
      StillPassable(n, n', id, d, k);
    }
  }

  lemma {:induction false} NextIs(n: Net, id: nat, left: nat, n': Net, going: bool)
    requires 0 < left && id in n.dispatchers && (n', going) == CallbackOrStop(n, id)
    ensures NextCallbacks(n, id, left) == if going then NextCallbacks(n', id, left - 1) else (n', false)
  {
  }

  /** The remaining callbacks all become durable exactly when each is passable. */
  lemma {:induction false} CallbacksFinishIff(n: Net, id: nat, d: Dispatcher, left: nat)
    requires id in n.dispatchers && n.dispatchers[id] == d && d.phase.Idle? && HoldsNothing(n.locks, id)
    requires d.done + left == |d.bindings| && AllFit(n.runs, d)
    ensures var (n', all) := NextCallbacks(n, id, left);
      && (all <==> AllPassable(n, d)) && Frames(n, n')
      && (if all then id in n'.dispatchers && n'.dispatchers[id] == d.(done := |d.bindings|) else id !in n'.dispatchers)
    decreases left
  {
    if left > 0 {
      CallbackSettles(n, id, d, d.bindings[d.done]);
      if Passable(n, d.bindings[d.done]) {
        var n1 := OneCallback(n, id);
        PassesOn(n, n1, id, d);
        NextIs(n, id, left, n1, true);
        CallbacksFinishIff(n1, id, d.(done := d.done + 1), left - 1);
      } else {
        StopsAtALock(n, id, d);
        NextIs(n, id, left, CallbackOrStop(n, id).0, false);
      }
    }
  }

  // ---- the whole dispatch ------------------------------------------------------------------------

  /** The callback set that a dispatch works through. */
  function CallbackSet(n: Net, wake: Wake): seq<Id> {
    if wake in n.sets then n.sets[wake] else Ids(Callbacks(n.table, Root(n.sys.db.grants, wake.watchId)))
  }

  /** What one dispatch needs: a known wake that is due, whose lineage is confirmed, and
      somebody to call. */
  predicate Dispatchable(n: Net, wake: Wake, at: Time) {
    && LineageConfirmed(n.table, n.sys.db, wake.watchId)
    && wake.createdAt <= at && WakeIndex(n.sys.db.outbox, wake) < |n.sys.db.outbox|
    && (wake in n.sets || exists a :: a in n.table && Accepted(a) && a.watch == Some(Root(n.sys.db.grants, wake.watchId)))
  }

  /** No run of the set is claimed by somebody who has not made it durable yet. */
  predicate Unobstructed(n: Net, wake: Wake) {
    forall x :: x in CallbackSet(n, wake) && ById(n.table, x).Some? ==>
      RunId(wake, x) !in n.locks || Durable(n.runs, RunBinding(wake, ById(n.table, x).value))
  }

  lemma {:induction false} BeginShape(n: Net, id: nat, wake: Wake, at: Time)
    requires id !in n.dispatchers && LineageConfirmed(n.table, n.sys.db, wake.watchId)
    ensures var begun := Begin(Resolve(n, id, wake), id, wake, at); var ids := CallbackSet(n, wake);
      var available := Ids(Callbacks(n.table, Root(n.sys.db.grants, wake.watchId)));
      && begun.sys == n.sys && begun.table == n.table && begun.runs == n.runs && begun.locks == n.locks
      && (id in begun.dispatchers <==>
            && wake.createdAt <= at && WakeIndex(n.sys.db.outbox, wake) < |n.sys.db.outbox| && ids != []
            && forall x :: x in ids ==> x in available && ById(n.table, x).Some?)
      && (id in begun.dispatchers ==>
            && (forall x :: x in ids ==> ById(n.table, x).Some?)
            && begun.sets == n.sets[wake := ids]
            && begun.dispatchers[id] == Dispatcher(wake, BindingsFor(n.table, wake, ids), 0, Idle, at))
  {
  }

  lemma {:induction false} DispatchableSet(n: Net, wake: Wake, at: Time)
    requires NetSound(n) && WakeIndex(n.sys.db.outbox, wake) < |n.sys.db.outbox|
    ensures var ids := CallbackSet(n, wake); var available := Ids(Callbacks(n.table, Root(n.sys.db.grants, wake.watchId)));
      && (ids != [] ==> SetSound(n.table, n.sys.db, wake, ids) && forall x :: x in ids ==> x in available)
      && (ids != [] <==> wake in n.sets || exists a :: a in n.table && Accepted(a) && a.watch == Some(Root(n.sys.db.grants, wake.watchId)))
  {
    var db, ids := n.sys.db, CallbackSet(n, wake);
    LookupSetSound(n, wake);
    if ids != [] { ReopenNeverFails(n.table, db, wake, ids); }
    if wake in n.sets { assert SetSound(n.table, db, wake, n.sets[wake]); }
    SomebodyToCall(n.table, Root(db.grants, wake.watchId));
  }

  lemma {:induction false} BegunIff(n: Net, id: nat, wake: Wake, at: Time)
    requires NetSound(n) && id !in n.dispatchers && LineageConfirmed(n.table, n.sys.db, wake.watchId)
    ensures var begun := Begin(Resolve(n, id, wake), id, wake, at);
      && (id in begun.dispatchers <==> Dispatchable(n, wake, at))
      && (id in begun.dispatchers ==> SetSound(n.table, n.sys.db, wake, CallbackSet(n, wake)))
  {
    BeginShape(n, id, wake, at);
    if WakeIndex(n.sys.db.outbox, wake) < |n.sys.db.outbox| { DispatchableSet(n, wake, at); }
  }

  lemma {:induction false} SomebodyToCall(t: seq<Admission>, root: WatchId)
    ensures Ids(Callbacks(t, root)) != [] <==> exists a :: a in t && Accepted(a) && a.watch == Some(root)
  {
    var as' := Callbacks(t, root);
    if as' != [] { CallbacksAreTheAccepted(t, root, as'[0]); }
    if a :| a in t && Accepted(a) && a.watch == Some(root) { CallbacksAreTheAccepted(t, root, a); }
  }

  /** The row of a wake in the outbox is there and marked. */
  predicate Delivered(box: seq<OutboxRow>, wake: Wake) {
    WakeIndex(box, wake) < |box| && box[WakeIndex(box, wake)].deliveredAt.Some?
  }

  lemma {:induction false} StampDelivers(db: Db, wake: Wake, at: Time)
    requires WakeIndex(db.outbox, wake) < |db.outbox|
    ensures Delivered(StampDelivered(db, wake, at).outbox, wake)
  {
    var i := WakeIndex(db.outbox, wake);
    var box := StampDelivered(db, wake, at).outbox;
    assert box[i].wake == wake && box[i].deliveredAt == Some(at);
  }

  lemma {:induction false} MarkDelivers(n: Net, id: nat, d: Dispatcher)
    requires id in n.dispatchers && n.dispatchers[id] == d && d.phase.Idle? && d.done == |d.bindings|
    requires WakeIndex(n.sys.db.outbox, d.wake) < |n.sys.db.outbox| && d.wake.createdAt <= d.at
    ensures var n' := Mark(n, id);
      && Delivered(n'.sys.db.outbox, d.wake) && id !in n'.dispatchers && n'.sets == n.sets
      && n'.sys.db == if Delivered(n.sys.db.outbox, d.wake) then n.sys.db else StampDelivered(n.sys.db, d.wake, d.at)
  {
    StampDelivers(n.sys.db, d.wake, d.at);
  }

  lemma {:induction false} DispatchStaysSound(n: Net, id: nat, wake: Wake, at: Time)
    requires NetSound(n) && id !in n.dispatchers
    ensures NetSound(DispatchOnce(n, id, wake, at).0)
  {
    var trace := DispatchIsARun(n, id, wake, at);
    EveryNetRunIsSound(n, trace);
  }

  lemma {:induction false} BegunIsSound(n: Net, id: nat, wake: Wake, at: Time)
    requires NetSound(n)
    ensures NetSound(Begin(Resolve(n, id, wake), id, wake, at))
  {
    ResolveStaysSound(n, id, wake);
    BeginStaysSound(Resolve(n, id, wake), id, wake, at);
  }

  lemma {:induction false} DeliveredIsDispatched(n: Net, wake: Wake)
    requires NetSound(n) && Delivered(n.sys.db.outbox, wake)
    ensures FullyDispatched(n.table, n.sets, n.runs, wake)
  {
    assert n.sys.db.outbox[WakeIndex(n.sys.db.outbox, wake)].wake == wake;
  }

  /** Once begun, a dispatch gets through exactly when no claim obstructs it. */
  lemma {:induction false} BegunFinishesIff(n: Net, id: nat, wake: Wake, at: Time)
    requires NetSound(n) && id !in n.dispatchers && HoldsNothing(n.locks, id) && Dispatchable(n, wake, at)
    ensures var begun := Begin(Resolve(n, id, wake), id, wake, at);
      && id in begun.dispatchers
      && var k := |begun.dispatchers[id].bindings|; var (n', all) := NextCallbacks(begun, id, k);
         && (all <==> Unobstructed(n, wake))
         && n'.sys == n.sys && n'.sets == n.sets[wake := CallbackSet(n, wake)]
         && (if all then id in n'.dispatchers && n'.dispatchers[id] == begun.dispatchers[id].(done := k)
             else id !in n'.dispatchers)
  {
    var begun := Begin(Resolve(n, id, wake), id, wake, at);
    BegunIff(n, id, wake, at);
    BeginShape(n, id, wake, at);
    BegunIsSound(n, id, wake, at);
    var d := begun.dispatchers[id];
    assert DispatcherSound(begun.table, begun.sets, begun.runs, begun.dispatchers[id]);
    SoundMeansAllFit(begun, d);
    CallbacksFinishIff(begun, id, d, |d.bindings|);
    SameObstacles(n, begun, wake, d);
  }

  lemma {:induction false} SameObstacles(n: Net, begun: Net, wake: Wake, d: Dispatcher)
    requires begun.runs == n.runs && begun.locks == n.locks && d.done == 0
    requires forall x :: x in CallbackSet(n, wake) ==> ById(n.table, x).Some?
    requires d.bindings == BindingsFor(n.table, wake, CallbackSet(n, wake))
    ensures AllPassable(begun, d) <==> Unobstructed(n, wake)
  {
    var ids := CallbackSet(n, wake);
    if AllPassable(begun, d) {
      forall x | x in ids ensures RunId(wake, x) !in n.locks || Durable(n.runs, RunBinding(wake, ById(n.table, x).value)) {
        var k :| 0 <= k < |ids| && ids[k] == x;
        assert Passable(begun, d.bindings[k]);
      }
    }
    if Unobstructed(n, wake) {
      forall k | 0 <= k < |ids| ensures Passable(begun, d.bindings[k]) { assert ids[k] in ids; }
    }
  }

  /** A dispatch that nobody steps into delivers its wake exactly when the wake is due
      and known, its lineage is confirmed, somebody is to be called, and no claim of
      somebody else stands before a run that is not durable yet. Then every admission of
      the set has its run; otherwise the wake is left as it was. */
  lemma {:induction false} DispatchDeliversIff(n: Net, id: nat, wake: Wake, at: Time)
    requires NetSound(n) && id !in n.dispatchers && HoldsNothing(n.locks, id)
    ensures var (n', delivered) := DispatchOnce(n, id, wake, at);
      && (delivered <==> Dispatchable(n, wake, at) && Unobstructed(n, wake))
      && (delivered ==>
            && Delivered(n'.sys.db.outbox, wake)
            && wake in n'.sets && n'.sets[wake] == CallbackSet(n, wake)
            && FullyDispatched(n'.table, n'.sets, n'.runs, wake))
      && (!delivered ==> n'.sys == n.sys)
      && id !in n'.dispatchers
  {
    DispatchStaysSound(n, id, wake, at);
    var (n', delivered) := DispatchOnce(n, id, wake, at);
    if LineageConfirmed(n.table, n.sys.db, wake.watchId) {
      BegunIff(n, id, wake, at);
      BeginShape(n, id, wake, at);
      if Dispatchable(n, wake, at) {
        BegunFinishesIff(n, id, wake, at);
        var begun := Begin(Resolve(n, id, wake), id, wake, at);
        var (done, all) := NextCallbacks(begun, id, |begun.dispatchers[id].bindings|);
        if all { MarkDelivers(done, id, done.dispatchers[id]); }
      }
    }
    if delivered { DeliveredIsDispatched(n', wake); }
  }

  // ---- claims are held by somebody ---------------------------------------------------------------

  predicate LocksHeld(n: Net) {
    forall r :: r in n.locks ==> n.locks[r] in n.dispatchers
  }

  lemma {:induction false} DispatcherStepHolds(n: Net, a: NetAction)
    requires LocksHeld(n) && OfDispatcher(a)
    ensures LocksHeld(NetStep(n, a))
  {
    if a.Starting? || a.Appending? { RunStepHolds(n, a); }
  }

  lemma {:induction false} RunStepHolds(n: Net, a: NetAction)
    requires LocksHeld(n) && (a.Starting? || a.Appending?)
    ensures LocksHeld(NetStep(n, a))
  {
  }

  lemma {:induction false} OtherStepHolds(n: Net, a: NetAction)
    requires LocksHeld(n) && !OfDispatcher(a)
    ensures LocksHeld(NetStep(n, a))
  {
  }

  lemma {:induction false} EveryLockIsHeld(n: Net, actions: seq<NetAction>)
    requires LocksHeld(n)
    ensures LocksHeld(NetRun(n, actions))
    decreases |actions|
  {
    if actions != [] {
      if OfDispatcher(actions[0]) { DispatcherStepHolds(n, actions[0]); } else { OtherStepHolds(n, actions[0]); }
      EveryLockIsHeld(NetStep(n, actions[0]), actions[1..]);
    }
  }

  /** So it is in every reachable state of the composed system, for any new dispatcher. */
  lemma {:induction false} ReachableDispatchDeliversIff(actions: seq<NetAction>, id: nat, wake: Wake, at: Time)
    requires id !in NetRun(NET, actions).dispatchers
    ensures var n := NetRun(NET, actions); var (n', delivered) := DispatchOnce(n, id, wake, at);
      && (delivered <==> Dispatchable(n, wake, at) && Unobstructed(n, wake))
      && (delivered ==> Delivered(n'.sys.db.outbox, wake) && FullyDispatched(n'.table, n'.sets, n'.runs, wake))
      && (!delivered ==> n'.sys == n.sys)
  {
    NetStartsSound();
    EveryNetRunIsSound(NET, actions);
    EveryLockIsHeld(NET, actions);
    DispatchDeliversIff(NetRun(NET, actions), id, wake, at);
  }
}
