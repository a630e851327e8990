/** Wake dispatch composed with the watch service and the admission table: any
    number of dispatchers, crashes and judgments around one durable outbox. */
module Dispatch {
  import opened Base
  import opened WatchStore
  import opened WatchRuns
  import opened WatchLineage
  import opened Admission
  import opened WatchAuthority

  /** A run identity is a hash of the wake and the admission (and of what the
      admission determines), a binding is the content the run is configured with. */
  datatype RunId = RunId(wake: Wake, admission: Id)

  datatype Binding = Binding(wake: Wake, admission: Id, request: Id, profile: Id, parentRef: Id, authorityHash: Id)

  datatype Event = Bound(binding: Binding) | Judgment(note: nat)

  datatype RunRec = RunRec(config: Binding, finished: bool, events: seq<Event>)

  datatype Phase = Idle | Locked | Started | Waiting | Delivering

  datatype Dispatcher = Dispatcher(wake: Wake, bindings: seq<Binding>, done: nat, phase: Phase, at: Time)

  /** `resolved` holds the dispatchers that have walked their wake's lineage and not
      yet frozen its callback set. */
  datatype Net = Net(
    sys: Sys, table: seq<Admission>, sets: map<Wake, seq<Id>>, runs: map<RunId, RunRec>,
    locks: map<RunId, nat>, resolved: map<nat, Wake>, dispatchers: map<nat, Dispatcher>)

  const NET := Net(START, [], map[], map[], map[], map[], map[])

  function RunIdOf(b: Binding): RunId {
    RunId(b.wake, b.admission)
  }

  function RunBinding(wake: Wake, a: Admission): Binding {
    Binding(wake, a.id, a.key.request, a.profile.id, a.key.parentRef, a.authorityHash)
  }

  // ---- the callback set of a wake --------------------------------------------------------

  function ById(t: seq<Admission>, id: Id): (found: Option<Admission>)
    ensures found.Some? ==> found.value in t && found.value.id == id
    ensures found.None? ==> forall a :: a in t ==> a.id != id
  {
    if t == [] then None else if t[0].id == id then Some(t[0]) else ById(t[1..], id)
  }

  /** The accepted admissions of `root`, in the order of the table's query. */
  function Callbacks(t: seq<Admission>, root: WatchId): seq<Admission> {
    InOrder(t, (a: Admission) => Accepted(a) && a.watch == Some(root))
  }

  function Ids(s: seq<Admission>): (ids: seq<Id>)
    ensures |ids| == |s| && forall i :: 0 <= i < |s| ==> ids[i] == s[i].id
  {
    seq(|s|, i requires 0 <= i < |s| => s[i].id)
  }

  function BindingsFor(t: seq<Admission>, wake: Wake, ids: seq<Id>): (bs: seq<Binding>)
    requires forall id :: id in ids ==> ById(t, id).Some?
    ensures |bs| == |ids| && forall i :: 0 <= i < |ids| ==> bs[i] == RunBinding(wake, ById(t, ids[i]).value)
  {
    seq(|ids|, i requires 0 <= i < |ids| => RunBinding(wake, ById(t, ids[i]).value))
  }

  // ---- one dispatcher's steps ---------------------------------------------------------------

  /** Whether the run of `b` and its binding event are durable. */
  predicate Durable(runs: map<RunId, RunRec>, b: Binding) {
    var r := RunIdOf(b);
    r in runs && runs[r].config == b && runs[r].events != [] && runs[r].events[0] == Bound(b)
  }

  predicate HasBindingEvent(events: seq<Event>) {
    exists i :: 0 <= i < |events| && events[i].Bound?
  }

  function Unlock(locks: map<RunId, nat>, id: nat): map<RunId, nat> {
    map r | r in locks && locks[r] != id :: locks[r]
  }

  function Abandon(n: Net, id: nat): Net {
    n.(dispatchers := n.dispatchers - {id}, locks := Unlock(n.locks, id), resolved := n.resolved - {id})
  }

  function Advance(n: Net, id: nat): Net
    requires id in n.dispatchers
  {
    var d := n.dispatchers[id];
    n.(dispatchers := n.dispatchers[id := d.(done := d.done + 1, phase := Idle)], locks := Unlock(n.locks, id))
  }

  /** The walk to the root, which re-checks every grant on its way. The counts that its
      checks depend on only grow, so the walk passes exactly when its last check does. */
  function Resolve(n: Net, id: nat, wake: Wake): Net {
    if id in n.dispatchers || !LineageConfirmed(n.table, n.sys.db, wake.watchId) then n
    else n.(resolved := n.resolved[id := wake])
  }

  /** A set that can be used: every admission of it is stored, and accepted on the root. */
  predicate Usable(t: seq<Admission>, available: seq<Id>, ids: seq<Id>) {
    ids != [] && forall x :: x in ids ==> x in available && ById(t, x).Some?
  }

  /** The transaction after that walk: freeze the set at the first lookup, reopen it
      afterwards. */
  function Begin(n: Net, id: nat, wake: Wake, at: Time): Net {
    var db := n.sys.db;
    var n0 := n.(resolved := n.resolved - {id});
    if id in n.dispatchers || id !in n.resolved || n.resolved[id] != wake then n
    else if at < wake.createdAt || WakeIndex(db.outbox, wake) == |db.outbox| then n0
    else
      var available := Ids(Callbacks(n.table, Root(db.grants, wake.watchId)));
      var ids := if wake in n.sets then n.sets[wake] else available;
      if !Usable(n.table, available, ids) then n0
      else n0.(sets := n.sets[wake := ids],
               dispatchers := n.dispatchers[id := Dispatcher(wake, BindingsFor(n.table, wake, ids), 0, Idle, at)])
  }

  function TryClaim(n: Net, id: nat): Net
    requires id in n.dispatchers
  {
    var d := n.dispatchers[id];
    if !d.phase.Idle? || d.done >= |d.bindings| then n
    else
      var r := RunIdOf(d.bindings[d.done]);
      if r in n.locks then n.(dispatchers := n.dispatchers[id := d.(phase := Waiting)])
      else n.(locks := n.locks[r := id], dispatchers := n.dispatchers[id := d.(phase := Locked)])
  }

  function StartRun(n: Net, id: nat): Net
    requires id in n.dispatchers
  {
    var d := n.dispatchers[id];
    if !d.phase.Locked? || d.done >= |d.bindings| then n
    else
      var b := d.bindings[d.done];
      var r := RunIdOf(b);
      if r !in n.runs then
        n.(runs := n.runs[r := RunRec(b, false, [])], dispatchers := n.dispatchers[id := d.(phase := Started)])
      else if n.runs[r].config != b then Abandon(n, id)
      else if !n.runs[r].finished then n.(dispatchers := n.dispatchers[id := d.(phase := Started)])
      else if n.runs[r].events != [] && n.runs[r].events[0] == Bound(b) then Advance(n, id)
      else Abandon(n, id)
  }

  function AppendBinding(n: Net, id: nat): Net
    requires id in n.dispatchers
  {
    var d := n.dispatchers[id];
    if !d.phase.Started? || d.done >= |d.bindings| then n
    else
      var b := d.bindings[d.done];
      var r := RunIdOf(b);
      if r !in n.runs || n.runs[r].finished then Abandon(n, id)
      else if !HasBindingEvent(n.runs[r].events) then
        Advance(n.(runs := n.runs[r := n.runs[r].(events := n.runs[r].events + [Bound(b)])]), id)
      else if Bound(b) in n.runs[r].events then Advance(n, id)
      else Abandon(n, id)
  }

  function AwaitRun(n: Net, id: nat): Net
    requires id in n.dispatchers
  {
    var d := n.dispatchers[id];
    if !d.phase.Waiting? || d.done >= |d.bindings| then n
    else
      var b := d.bindings[d.done];
      var r := RunIdOf(b);
      if r !in n.runs || !HasBindingEvent(n.runs[r].events) then n
      else if n.runs[r].config == b && Bound(b) in n.runs[r].events then Advance(n, id)
      else Abandon(n, id)
  }

  /** Marking the wake is a read and, if the wake was still pending, an UPDATE of its own. */
  function MarkDone(n: Net, id: nat): Net
    requires id in n.dispatchers
  {
    var d := n.dispatchers[id];
    if !d.phase.Idle? || d.done < |d.bindings| then n
    else if ReadDelivery(n.sys.db.outbox, d.wake, d.at).StillPending?
    then n.(dispatchers := n.dispatchers[id := d.(phase := Delivering)])
    else Abandon(n, id)
  }

  function WriteDelivery(n: Net, id: nat): Net
    requires id in n.dispatchers
  {
    var d := n.dispatchers[id];
    if !d.phase.Delivering? then n
    else Abandon(n.(sys := n.sys.(db := StampDelivered(n.sys.db, d.wake, d.at))), id)
  }

  // ---- the whole system ------------------------------------------------------------------------

  datatype NetAction =
    | WatchStep(a: Action)
    | Admit(c: Candidate, precheck: Option<nat>)
    | ActivateWatch(i: nat, cutoff: Time)
    | ResolveLineage(id: nat, wake: Wake) | BeginDispatch(id: nat, wake: Wake, at: Time)
    | Claiming(id: nat) | Starting(id: nat) | Appending(id: nat) | Awaiting(id: nat)
    | Marking(id: nat) | Writing(id: nat) | Dropping(id: nat)
    | JudgmentEvent(r: RunId, note: nat)
    | FinishRun(r: RunId)

  /** Only dispatch marks a wake delivered, and a rebaseline's owner comes from the table. */
  predicate Permitted(n: Net, a: Action) {
    a.External? ==>
      && !a.op.Deliver?
      && (a.op.Rebaseline? ==> a.op.owner == OwnerFor(n.table, n.sys.db, a.op.req.original))
  }

  predicate Reopenable(n: Net, r: RunId) {
    r in n.runs && !n.runs[r].finished && n.runs[r].events != [] && n.runs[r].events[0] == Bound(n.runs[r].config)
  }

  function NetStep(n: Net, a: NetAction): Net {
    match a
    case WatchStep(w) => if Permitted(n, w) then n.(sys := Next(n.sys, w)) else n
    case Admit(c, precheck) =>
      if !Offered(c) then n
      else if precheck.Some? then n.(table := PersistRejection(n.table, c, precheck.value).0)
      else n.(table := CommitAcceptance(n.table, n.sys.db.rows, c).0)
    case ActivateWatch(i, cutoff) =>
      if i < |n.table| then n.(sys := n.sys.(db := Activate(n.table, n.sys.db, n.table[i], cutoff).0)) else n
    case ResolveLineage(id, wake) => Resolve(n, id, wake)
    case BeginDispatch(id, wake, at) => Begin(n, id, wake, at)
    case Claiming(id) => if id in n.dispatchers then TryClaim(n, id) else n
    case Starting(id) => if id in n.dispatchers then StartRun(n, id) else n
    case Appending(id) => if id in n.dispatchers then AppendBinding(n, id) else n
    case Awaiting(id) => if id in n.dispatchers then AwaitRun(n, id) else n
    case Marking(id) => if id in n.dispatchers then MarkDone(n, id) else n
    case Writing(id) => if id in n.dispatchers then WriteDelivery(n, id) else n
    case Dropping(id) => Abandon(n, id)
    case JudgmentEvent(r, note) =>
      if Reopenable(n, r) then n.(runs := n.runs[r := n.runs[r].(events := n.runs[r].events + [Judgment(note)])]) else n
    case FinishRun(r) =>
      if Reopenable(n, r) then n.(runs := n.runs[r := n.runs[r].(finished := true)]) else n
  }

  function NetRun(n: Net, actions: seq<NetAction>): Net
    decreases |actions|
  {
    if actions == [] then n else NetRun(NetStep(n, actions[0]), actions[1..])
  }
}
