/** Marking a wake delivered is a read and then an UPDATE that names the wake only:
    which delivery time a wake ends up with, and when it can still change. */
module WakeDelivery {
  import opened Base
  import opened WatchStore
  import opened WatchRuns
  import opened Dispatch
  import opened EndToEnd
  import opened LineageOwners

  /** A dispatcher that read the wake as pending and has not written yet. */
  predicate StillToWrite(n: Net, id: nat, wake: Wake) {
    id in n.dispatchers && n.dispatchers[id].phase.Delivering? && n.dispatchers[id].wake == wake
  }

  predicate DeliveredAs(n: Net, wake: Wake, at: Time) {
    StampedAs(n.sys.db.outbox, wake, at)
  }

  predicate StampedAs(box: seq<OutboxRow>, wake: Wake, at: Time) {
    var i := WakeIndex(box, wake);
    i < |box| && box[i].deliveredAt == Some(at)
  }

  lemma {:induction false} ActivationKeepsOutbox(n: Net, i: nat, cutoff: Time)
    requires NetSound(n) && i < |n.table|
    ensures n.sys.db.outbox <= NetStep(n, ActivateWatch(i, cutoff)).sys.db.outbox
  {
    var op := ActivationIsCreation(n, i, cutoff);
    if op.Some? { ActionGrows(n.sys, External(op.value)); }
  }

  lemma {:induction false} WatchStepKeepsOutbox(n: Net, w: Action)
    requires NetSound(n)
    ensures n.sys.db.outbox <= NetStep(n, WatchStep(w)).sys.db.outbox
  {
    if Permitted(n, w) { ActionGrows(n.sys, w); }
  }

  lemma {:induction false} OutboxKeptByOthers(n: Net, a: NetAction)
    requires NetSound(n) && !a.Writing?
    ensures n.sys.db.outbox <= NetStep(n, a).sys.db.outbox
  {
    if a.WatchStep? {
      WatchStepKeepsOutbox(n, a.a);
    } else if a.ActivateWatch? {
      if a.i < |n.table| { ActivationKeepsOutbox(n, a.i, a.cutoff); }
    } else if a.Admit? {
      assert NetStep(n, a).sys == n.sys;
    } else {
      DispatchKeepsTable(n, a);
    }
  }

  lemma {:induction false} IndexKept(a: seq<OutboxRow>, b: seq<OutboxRow>, wake: Wake)
    requires WakeIndex(a, wake) < |a| <= |b| && forall i :: 0 <= i < |a| ==> b[i].wake == a[i].wake
    ensures WakeIndex(b, wake) == WakeIndex(a, wake)
  {
  }

  lemma {:induction false} StampStamps(db: Db, wake: Wake, at: Time, v: Wake)
    requires WakeIndex(db.outbox, v) < |db.outbox|
    ensures var db' := StampDelivered(db, wake, at); var i := WakeIndex(db.outbox, v);
      && WakeIndex(db'.outbox, v) == i < |db'.outbox|
      && db'.outbox[i].deliveredAt == if v == wake then Some(at) else db.outbox[i].deliveredAt
  {
    IndexKept(db.outbox, StampDelivered(db, wake, at).outbox, v);
  }

  lemma {:induction false} OutboxGrowthKeepsStamps(box: seq<OutboxRow>, box': seq<OutboxRow>, wake: Wake, at: Time)
    requires box <= box' && StampedAs(box, wake, at)
    ensures StampedAs(box', wake, at)
  {
    IndexKept(box, box', wake);
  }

  lemma {:induction false} WriterStamps(n: Net, id: nat, wake: Wake)
    requires StillToWrite(n, id, wake)
    ensures NetStep(n, Writing(id)) ==
      Abandon(n.(sys := n.sys.(db := StampDelivered(n.sys.db, wake, n.dispatchers[id].at))), id)
  {
  }

  lemma {:induction false} WritingEffect(n: Net, id: nat, wake: Wake, at: Time)
    requires DeliveredAs(n, wake, at)
    ensures DeliveredAs(NetStep(n, Writing(id)), wake, at) <==> (StillToWrite(n, id, wake) ==> n.dispatchers[id].at == at)
  {
    if id in n.dispatchers && n.dispatchers[id].phase.Delivering? {
      var d := n.dispatchers[id];
      WriterStamps(n, id, d.wake);
      StampStamps(n.sys.db, d.wake, d.at, wake);
    }
  }

  /** A delivery time changes in one way only: a dispatcher that read the wake as
      pending writes another time. */
  lemma {:induction false} DeliveryTimeChangesIff(n: Net, a: NetAction, wake: Wake, at: Time)
    requires NetSound(n) && DeliveredAs(n, wake, at)
    ensures !DeliveredAs(NetStep(n, a), wake, at) <==>
      a.Writing? && StillToWrite(n, a.id, wake) && n.dispatchers[a.id].at != at
  {
    if a.Writing? {
      WritingEffect(n, a.id, wake, at);
    } else {
      OutboxKeptByOthers(n, a);
      OutboxGrowthKeepsStamps(n.sys.db.outbox, NetStep(n, a).sys.db.outbox, wake, at);
    }
  }

  predicate NobodyElseWrites(n: Net, wake: Wake, at: Time) {
    forall id :: id in n.dispatchers && StillToWrite(n, id, wake) ==> n.dispatchers[id].at == at
  }

  /** A wake that is delivered is read as pending by nobody any more. */
  lemma {:induction false} NoNewWriters(n: Net, a: NetAction, wake: Wake, at: Time)
    requires DeliveredAs(n, wake, at) && NobodyElseWrites(n, wake, at)
    ensures NobodyElseWrites(NetStep(n, a), wake, at)
  {
    var n' := NetStep(n, a);
    forall id | id in n'.dispatchers && StillToWrite(n', id, wake) ensures n'.dispatchers[id].at == at {
      WritersAreNotNew(n, a, id, wake);
      assert StillToWrite(n, id, wake);
    }
  }

  lemma {:induction false} WritersAreNotNew(n: Net, a: NetAction, id: nat, wake: Wake)
    requires StillToWrite(NetStep(n, a), id, wake)
    ensures id in n.dispatchers && n.dispatchers[id].at == NetStep(n, a).dispatchers[id].at && n.dispatchers[id].wake == wake
    ensures !StillToWrite(n, id, wake) ==> a == Marking(id) && ReadDelivery(n.sys.db.outbox, wake, n.dispatchers[id].at).StillPending?
  {
    if OfDispatcher(a) {
      DispatcherStepWriters(n, a, id, wake);
    }
  }

  lemma {:induction false} DispatcherStepWriters(n: Net, a: NetAction, id: nat, wake: Wake)
    requires OfDispatcher(a) && StillToWrite(NetStep(n, a), id, wake)
    ensures id in n.dispatchers && n.dispatchers[id].at == NetStep(n, a).dispatchers[id].at && n.dispatchers[id].wake == wake
    ensures !StillToWrite(n, id, wake) ==> a == Marking(id) && ReadDelivery(n.sys.db.outbox, wake, n.dispatchers[id].at).StillPending?
  {
    if a.Starting? || a.Appending? || a.Awaiting? { RunStepWriters(n, a, id, wake); }
  }

  lemma {:induction false} RunStepWriters(n: Net, a: NetAction, id: nat, wake: Wake)
    requires (a.Starting? || a.Appending? || a.Awaiting?) && StillToWrite(NetStep(n, a), id, wake)
    ensures StillToWrite(n, id, wake) && n.dispatchers[id] == NetStep(n, a).dispatchers[id]
  {
    match a
    case Starting(_) =>
    case Appending(_) =>
    case Awaiting(_) =>
  }

  lemma {:induction false} DeliveryStays(n: Net, actions: seq<NetAction>, wake: Wake, at: Time)
    requires NetSound(n) && DeliveredAs(n, wake, at) && NobodyElseWrites(n, wake, at)
    ensures DeliveredAs(NetRun(n, actions), wake, at)
    decreases |actions|
  {
    if actions != [] {
      var a := actions[0];
      NetStepStaysSound(n, a);
      DeliveryTimeChangesIff(n, a, wake, at);
      NoNewWriters(n, a, wake, at);
      DeliveryStays(NetStep(n, a), actions[1..], wake, at);
    }
  }

  /** A delivery time is final exactly when no dispatcher that read the wake as pending
      has still to write another time. */
  lemma {:induction false} DeliveryIsFinalIff(n: Net, wake: Wake, at: Time)
    requires NetSound(n) && DeliveredAs(n, wake, at)
    ensures (forall actions :: DeliveredAs(NetRun(n, actions), wake, at)) <==> NobodyElseWrites(n, wake, at)
  {
    if NobodyElseWrites(n, wake, at) {
      forall actions ensures DeliveredAs(NetRun(n, actions), wake, at) { DeliveryStays(n, actions, wake, at); }
    } else {
      var id :| id in n.dispatchers && StillToWrite(n, id, wake) && n.dispatchers[id].at != at;
      WritingEffect(n, id, wake, at);
      OneWrite(n, id);
      assert !DeliveredAs(NetRun(n, [Writing(id)]), wake, at);
    }
  }

  lemma {:induction false} OneWrite(n: Net, id: nat)
    ensures NetRun(n, [Writing(id)]) == NetStep(n, Writing(id))
  {
    RunUnfolds(n, Writing(id), []);
    assert [Writing(id)] + [] == [Writing(id)];
  }

  lemma {:induction false} PendingReadIsKept(n: Net, id: nat, d: Dispatcher)
    requires id in n.dispatchers && n.dispatchers[id] == d && d.phase.Idle? && d.done == |d.bindings|
    requires ReadDelivery(n.sys.db.outbox, d.wake, d.at).StillPending?
    ensures NetStep(n, Marking(id)) == n.(dispatchers := n.dispatchers[id := d.(phase := Delivering)])
  {
  }

  /** Two dispatchers that finish one wake together both read it as pending; both
      write, and the second overwrites the delivery time of the first. */
  lemma {:induction false} TwoDispatchersBothMark(n: Net, first: nat, second: nat, wake: Wake)
    requires first != second && first in n.dispatchers && second in n.dispatchers
    requires forall id :: id in {first, second} ==>
      && n.dispatchers[id].wake == wake && n.dispatchers[id].phase.Idle?
      && n.dispatchers[id].done == |n.dispatchers[id].bindings|
      && ReadDelivery(n.sys.db.outbox, wake, n.dispatchers[id].at).StillPending?
    ensures var n' := NetStep(NetStep(NetStep(n, Marking(first)), Marking(second)), Writing(first));
      && DeliveredAs(n', wake, n.dispatchers[first].at)
      && DeliveredAs(NetStep(n', Writing(second)), wake, n.dispatchers[second].at)
  {
    var d, e := n.dispatchers[first], n.dispatchers[second];
    PendingReadIsKept(n, first, d);
    var n1 := NetStep(n, Marking(first));
    PendingReadIsKept(n1, second, e);
    var n2 := NetStep(n1, Marking(second));
    WriterStamps(n2, first, wake);
    StampStamps(n.sys.db, wake, d.at, wake);
    var n3 := NetStep(n2, Writing(first));
    WriterStamps(n3, second, wake);
    StampStamps(n3.sys.db, wake, e.at, wake);
  }
}
