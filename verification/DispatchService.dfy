/** The wake dispatcher as an object: one dispatch freezes the callback set, makes every
    run and binding event durable under its claim, and only then marks the wake
    delivered. What it does is `DispatchProgress.DispatchOnce`, a run of the protocol. */
module DispatchService {
  import opened Base
  import opened WatchStore
  import opened WatchRuns
  import opened WatchLineage
  import opened Admission
  import opened WatchAuthority
  import opened Dispatch
  import opened EndToEnd
  import opened DispatchProgress

  lemma {:induction false} BoundRunIsLeftAlone(n: Net, id: nat, b: Binding)
    requires id in n.dispatchers && n.dispatchers[id].done < |n.dispatchers[id].bindings|
    requires b == n.dispatchers[id].bindings[n.dispatchers[id].done] && Durable(n.runs, b)
    ensures StartRun(n, id).runs == n.runs && AppendBinding(n, id).runs == n.runs
  {
  }

  /** Once every run of a wake is durable, dispatching it again starts and binds nothing. */
  lemma {:induction false} RetryCreatesNothing(n: Net, id: nat)
    requires NetSound(n) && id in n.dispatchers
    requires FullyDispatched(n.table, n.sets, n.runs, n.dispatchers[id].wake)
    ensures NetStep(n, Starting(id)).runs == n.runs && NetStep(n, Appending(id)).runs == n.runs
  {
    var d := n.dispatchers[id];
    if d.done < |d.bindings| {
      ItsBindingIsDurable(n, d);
      BoundRunIsLeftAlone(n, id, d.bindings[d.done]);
    }
  }

  lemma {:induction false} ItsBindingIsDurable(n: Net, d: Dispatcher)
    requires DispatcherSound(n.table, n.sets, n.runs, d) && d.done < |d.bindings|
    requires FullyDispatched(n.table, n.sets, n.runs, d.wake)
    ensures Durable(n.runs, d.bindings[d.done])
  {
    assert n.sets[d.wake][d.done] in n.sets[d.wake];
  }

  class AgentWatchWakeDispatcher {
    var sys: Sys
    var table: seq<Admission>
    var sets: map<Wake, seq<Id>>
    var runs: map<RunId, RunRec>
    var locks: map<RunId, nat>
    ghost var resolved: map<nat, Wake>
    var dispatchers: map<nat, Dispatcher>

    constructor ()
      ensures View() == NET
    {
      sys, table, sets, runs, locks, resolved, dispatchers := START, [], map[], map[], map[], map[], map[];
    }

    ghost function View(): Net
      reads this
    {
      Net(sys, table, sets, runs, locks, resolved, dispatchers)
    }

    predicate Serving(id: nat, b: Binding, ds: map<nat, Dispatcher>) {
      id in ds && ds[id].done < |ds[id].bindings| && ds[id].bindings[ds[id].done] == b
    }

    ghost predicate At(id: nat, b: Binding, phase: Phase)
      reads this
    {
      Serving(id, b, dispatchers) && dispatchers[id].phase == phase
    }

    /** Gone, or one callback further. */
    ghost predicate Moved(id: nat, d: Dispatcher)
      reads this
    {
      id in dispatchers ==> dispatchers[id] == d.(done := d.done + 1, phase := Idle)
    }

    method TryClaimRun(id: nat, b: Binding) returns (claimed: bool)
      requires At(id, b, Idle)
      modifies this`locks, this`dispatchers
      ensures View() == TryClaim(old(View()), id)
      ensures id in dispatchers && dispatchers[id] == old(dispatchers[id]).(phase := if claimed then Locked else Waiting)
    {
      claimed := RunIdOf(b) !in locks;
      if claimed { locks := locks[RunIdOf(b) := id]; }
      dispatchers := dispatchers[id := dispatchers[id].(phase := if claimed then Locked else Waiting)];
    }

    method Release(id: nat, done: bool)
      requires id in dispatchers
      modifies this`locks, this`resolved, this`dispatchers
      ensures View() == if done then Advance(old(View()), id) else Abandon(old(View()), id)
      ensures Moved(id, old(dispatchers[id]))
    {
      locks := Unlock(locks, id);
      if done {
        var d := dispatchers[id];
        dispatchers := dispatchers[id := d.(done := d.done + 1, phase := Idle)];
      } else {
        dispatchers := dispatchers - {id};
        resolved := resolved - {id};
      }
    }

    /** Create the run, or reopen it; a finished run must carry its exact binding. */
    method StartOrReopen(id: nat, b: Binding) returns (running: bool)
      requires At(id, b, Locked)
      modifies this`runs, this`locks, this`resolved, this`dispatchers
      ensures View() == StartRun(old(View()), id)
      ensures running ==> id in dispatchers && dispatchers[id] == old(dispatchers[id]).(phase := Started)
      ensures !running ==> Moved(id, old(dispatchers[id]))
    {
      var r := RunIdOf(b);
      running := true;
      if r !in runs {
        runs := runs[r := RunRec(b, false, [])];
      } else if runs[r].config != b {
        Release(id, false);
        return false;
      } else if runs[r].finished {
        Release(id, runs[r].events != [] && runs[r].events[0] == Bound(b));
        return false;
      }
      dispatchers := dispatchers[id := dispatchers[id].(phase := Started)];
    }

    /** The append is idempotent: the same binding event is left as it is. */
    method BindRun(id: nat, b: Binding)
      requires At(id, b, Started)
      modifies this`runs, this`locks, this`resolved, this`dispatchers
      ensures View() == AppendBinding(old(View()), id)
      ensures Moved(id, old(dispatchers[id]))
    {
      var r := RunIdOf(b);
      if r !in runs || runs[r].finished {
        Release(id, false);
      } else if !HasBindingEvent(runs[r].events) {
        runs := runs[r := runs[r].(events := runs[r].events + [Bound(b)])];
        Release(id, true);
      } else {
        Release(id, Bound(b) in runs[r].events);
      }
    }

    /** One look at a run another dispatcher is creating. */
    method LookAtRun(id: nat, b: Binding)
      requires At(id, b, Waiting)
      modifies this`locks, this`resolved, this`dispatchers
      ensures View() == AwaitRun(old(View()), id)
      ensures Moved(id, old(dispatchers[id])) || dispatchers == old(dispatchers)
    {
      var r := RunIdOf(b);
      if r in runs && HasBindingEvent(runs[r].events) {
        Release(id, runs[r].config == b && Bound(b) in runs[r].events);
      }
    }

    /** The run and its binding event, under the claim. */
    method BindUnderClaim(id: nat, b: Binding)
      requires At(id, b, Locked)
      modifies this`runs, this`locks, this`resolved, this`dispatchers
      ensures View() == UnderClaim(old(View()), id)
      ensures Moved(id, old(dispatchers[id]))
    {
      var running := StartOrReopen(id, b);
      if running { BindRun(id, b); }
    }

    /** One callback. */
    method DispatchCallback(id: nat, b: Binding)
      requires At(id, b, Idle)
      modifies this`runs, this`locks, this`resolved, this`dispatchers
      ensures View() == OneCallback(old(View()), id)
      ensures Moved(id, old(dispatchers[id])) || (id in dispatchers && dispatchers[id].phase == Waiting)
    {
      var claimed := TryClaimRun(id, b);
      if claimed { BindUnderClaim(id, b); } else { LookAtRun(id, b); }
    }

    /** The walk to the root; it raises when a grant on the way is no longer confirmed. */
    method ResolveAuthority(id: nat, wake: Wake) returns (root: Option<WatchId>)
      requires id !in dispatchers
      modifies this`resolved
      ensures View() == Resolve(old(View()), id, wake)
      ensures root == if LineageConfirmed(table, sys.db, wake.watchId) then Some(Root(sys.db.grants, wake.watchId)) else None
    {
      if !LineageConfirmed(table, sys.db, wake.watchId) { return None; }
      resolved := resolved[id := wake];
      root := Some(Root(sys.db.grants, wake.watchId));
    }

    /** The transaction after the walk: the first lookup freezes the callback set, later
        ones reopen it. */
    method FreezeOrReopen(id: nat, wake: Wake, root: WatchId, at: Time) returns (bindings: Option<seq<Binding>>)
      requires id !in dispatchers && id in resolved && resolved[id] == wake && root == Root(sys.db.grants, wake.watchId)
      modifies this`sets, this`resolved, this`dispatchers
      ensures View() == Begin(old(View()), id, wake, at)
      ensures bindings.None? ==> sets == old(sets) && dispatchers == old(dispatchers)
      ensures bindings.Some? ==> id in dispatchers && dispatchers[id] == Dispatcher(wake, bindings.value, 0, Idle, at)
    {
      resolved := resolved - {id};
      if at < wake.createdAt || WakeIndex(sys.db.outbox, wake) == |sys.db.outbox| { return None; }
      var available := Ids(Callbacks(table, root));
      var ids := if wake in sets then sets[wake] else available;
      if !Usable(table, available, ids) { return None; }
      sets := sets[wake := ids];
      bindings := Some(BindingsFor(table, wake, ids));
      dispatchers := dispatchers[id := Dispatcher(wake, bindings.value, 0, Idle, at)];
    }

    /** The lineage, then the callback set. */
    method CallbackBindings(id: nat, wake: Wake, at: Time) returns (bindings: Option<seq<Binding>>)
      requires id !in dispatchers
      modifies this`sets, this`resolved, this`dispatchers
      ensures View() == if LineageConfirmed(table, sys.db, wake.watchId) then Begin(Resolve(old(View()), id, wake), id, wake, at)
                        else old(View())
      ensures bindings.Some? <==> id in dispatchers
      ensures bindings.Some? ==> dispatchers[id] == Dispatcher(wake, bindings.value, 0, Idle, at)
    {
      var root := ResolveAuthority(id, wake);
      if root.None? { return None; }
      bindings := FreezeOrReopen(id, wake, root.value, at);
    }

    method GiveUp(id: nat)
      requires id in dispatchers
      modifies this`locks, this`resolved, this`dispatchers
      ensures View() == Abandon(old(View()), id)
    {
      Release(id, false);
    }

    /** Marking the wake: the read and, if the wake was still pending, the UPDATE. */
    method Deliver(id: nat, d: Dispatcher)
      requires id in dispatchers && dispatchers[id] == d && d.phase == Idle && |d.bindings| == d.done
      modifies this`sys, this`locks, this`resolved, this`dispatchers
      ensures View() == Mark(old(View()), id)
    {
      if ReadDelivery(sys.db.outbox, d.wake, d.at) != StillPending {
        Release(id, false);
        return;
      }
      dispatchers := dispatchers[id := d.(phase := Delivering)];
      sys := sys.(db := StampDelivered(sys.db, d.wake, d.at));
      Release(id, false);
    }

    /** One callback; a wait for another dispatcher's run ends with its deadline. */
    method DispatchOrStop(id: nat, b: Binding) returns (going: bool)
      requires At(id, b, Idle)
      modifies this`runs, this`locks, this`resolved, this`dispatchers
      ensures (View(), going) == CallbackOrStop(old(View()), id)
      ensures going ==> id in dispatchers && Moved(id, old(dispatchers[id]))
    {
      DispatchCallback(id, b);
      if id !in dispatchers { return false; }
      if dispatchers[id].phase == Waiting {
        GiveUp(id);
        return false;
      }
      going := true;
    }

    /** All callbacks in turn, up to the first that cannot be made durable. */
    method DispatchAll(id: nat, d: Dispatcher) returns (finished: bool)
      requires id in dispatchers && dispatchers[id] == d && d.phase == Idle && d.done == 0
      modifies this`runs, this`locks, this`resolved, this`dispatchers
      ensures (View(), finished) == NextCallbacks(old(View()), id, |d.bindings|)
      ensures finished ==> id in dispatchers && dispatchers[id] == d.(done := |d.bindings|)
    {
      ghost var whole, left := NextCallbacks(View(), id, |d.bindings|), |d.bindings|;
      for i := 0 to |d.bindings|
        invariant id in dispatchers && dispatchers[id] == d.(done := i)
        invariant left == |d.bindings| - i && whole == NextCallbacks(View(), id, left)
      {
        ghost var before := View();
        var going := DispatchOrStop(id, d.bindings[i]);
        NextIs(before, id, left, View(), going);
        left := left - 1;
        if !going { return false; }
      }
      finished := true;
    }

    /** Dispatch one wake. With nobody stepping in between, it ends with the wake delivered
        exactly when its lineage is confirmed, somebody is to be called, and no claim of
        another dispatcher stands before a run that is not durable yet. */
    method DispatchWake(id: nat, wake: Wake, at: Time) returns (delivered: bool)
      requires id !in dispatchers
      modifies this
      ensures (View(), delivered) == DispatchOnce(old(View()), id, wake, at)
      ensures old(NetSound(View()) && HoldsNothing(locks, id)) ==>
        && (delivered <==> old(Dispatchable(View(), wake, at) && Unobstructed(View(), wake)))
        && (delivered ==> Delivered(sys.db.outbox, wake) && FullyDispatched(table, sets, runs, wake))
        && (!delivered ==> sys == old(sys))
    {
      ghost var start := View();
      if NetSound(start) && HoldsNothing(locks, id) { DispatchDeliversIff(start, id, wake, at); }
      var found := CallbackBindings(id, wake, at);
      if found.None? { return false; }
      var d := dispatchers[id];
      delivered := DispatchAll(id, d);
      if delivered { Deliver(id, d.(done := |d.bindings|)); }
    }
  }
}
