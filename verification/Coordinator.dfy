/** The continuous review coordinator: one traversal of the registered frames over
    an append-only journal, stopping anywhere, and always starting at session zero. */
module Coordinator {
  import opened Base

  type Fact = Id

  datatype Cadence = ExpiryOnly | Scheduled | EventDriven

  datatype Frame = Frame(facts: set<Fact>, gaps: bool)

  datatype Decision = Decision(horizon: nat, reference: Id)

  const HORIZONS: set<nat> := {1, 3, 5, 10, 20, 60}

  /** `offsets` are the registered review offsets of a horizon, `valid` the caller's
      own check of a decision against a frame. */
  datatype Config = Config(
    frames: seq<Frame>, cadence: Cadence, sharedInitial: Option<Decision>,
    offsets: nat -> set<nat>, valid: (Decision, Frame) -> bool)

  datatype Event = Started(i: nat) | Completed(i: nat, decision: Decision) | Account(i: nat, result: Id)

  /** One call of the decision callback, made when the journal had `at` events. */
  datatype Call = Call(i: nat, resumed: bool, at: nat)

  datatype Disk = Disk(journal: seq<Event>, calls: seq<Call>)

  /** The live state of the loop. */
  datatype Live = Live(previous: Option<Decision>, consumed: set<Fact>, expires: nat, eventCount: nat, scheduled: set<nat>)

  const FRESH := Live(None, {}, 0, 0, {})

  datatype Answer = Pending | Decided(decision: Decision)

  /** What the outside answers during one traversal. */
  datatype Env = Env(decide: (nat, bool) -> Answer, account: nat -> Id)

  datatype Report =
    | Frontier(completed: nat) | AwaitingData(i: nat) | Incomplete(i: nat) | EndpointExceeded(i: nat)
    | Refused(i: nat) | AccountDiffers(i: nat) | Crashed(i: nat)

  // ---- reading the journal by event identity ------------------------------------------

  function FindStarted(j: seq<Event>, i: nat): bool {
    exists k :: 0 <= k < |j| && j[k] == Started(i)
  }

  function FindCompleted(j: seq<Event>, i: nat): Option<Decision> {
    if j == [] then None
    else
      var last := j[|j| - 1];
      if last.Completed? && last.i == i then Some(last.decision) else FindCompleted(j[..|j| - 1], i)
  }

  function FindAccount(j: seq<Event>, i: nat): Option<Id> {
    if j == [] then None
    else
      var last := j[|j| - 1];
      if last.Account? && last.i == i then Some(last.result) else FindAccount(j[..|j| - 1], i)
  }

  // ---- the schedule ----------------------------------------------------------------------

  predicate ExpiryDue(s: Live, i: nat) {
    i >= s.expires
  }

  predicate EventDue(c: Config, s: Live, i: nat)
    requires i < |c.frames|
  {
    c.cadence.EventDriven? && c.frames[i].facts - s.consumed != {} && s.eventCount < 3
  }

  predicate PlanDue(c: Config, s: Live, i: nat) {
    c.cadence.Scheduled? && i in s.scheduled
  }

  predicate ReviewDue(c: Config, s: Live, i: nat)
    requires i < |c.frames|
  {
    s.previous.None? || ExpiryDue(s, i) || EventDue(c, s, i) || PlanDue(c, s, i)
  }

  predicate Allowed(c: Config, i: nat, d: Decision) {
    d.horizon in HORIZONS && i + d.horizon <= |c.frames|
  }

  predicate Acceptable(c: Config, i: nat, d: Decision)
    requires i < |c.frames|
  {
    Allowed(c, i, d) && c.valid(d, c.frames[i])
  }

  /** The state that a settled review leaves. */
  function Reviewed(c: Config, s: Live, i: nat, d: Decision): Live
    requires i < |c.frames|
  {
    Live(Some(d), s.consumed + c.frames[i].facts, i + d.horizon,
         if ExpiryDue(s, i) then 0 else if EventDue(c, s, i) then s.eventCount + 1 else s.eventCount,
         set o | o in c.offsets(d.horizon) && i + o < |c.frames| :: i + o)
  }

  // ---- one session -------------------------------------------------------------------------

  datatype Got = GotDecision(decision: Decision) | Halt(report: Report)

  function Checked(c: Config, i: nat, d: Decision): Got
    requires i < |c.frames|
  {
    if !Allowed(c, i, d) then Halt(EndpointExceeded(i))
    else if !c.valid(d, c.frames[i]) then Halt(Refused(i))
    else GotDecision(d)
  }

  /** Append the completion of a checked decision; `fuel` counts the actions left
      before the process is interrupted. */
  function Complete(c: Config, disk: Disk, i: nat, d: Decision, fuel: nat): (Disk, nat, Got)
    requires i < |c.frames|
  {
    var got := Checked(c, i, d);
    if got.Halt? then (disk, fuel, got)
    else if fuel == 0 then (disk, 0, Halt(Crashed(i)))
    else (disk.(journal := disk.journal + [Completed(i, d)]), fuel - 1, got)
  }

  function Review(c: Config, disk: Disk, i: nat, env: Env, fuel: nat): (r: (Disk, nat, Got))
    requires i < |c.frames|
    ensures r.2.Halt? ==> !r.2.report.Frontier?
  {
    var completed := FindCompleted(disk.journal, i);
    if completed.Some? then (disk, fuel, Checked(c, i, completed.value))
    else if i == 0 && c.sharedInitial.Some? then Complete(c, disk, i, c.sharedInitial.value, fuel)
    else
      var resumed := FindStarted(disk.journal, i);
      if !resumed && fuel == 0 then (disk, 0, Halt(Crashed(i)))
      else
        var disk1 := if resumed then disk else disk.(journal := disk.journal + [Started(i)]);
        var fuel1 := if resumed then fuel else fuel - 1;
        if fuel1 == 0 then (disk1, 0, Halt(Crashed(i)))
        else
          var disk2 := disk1.(calls := disk1.calls + [Call(i, resumed, |disk1.journal|)]);
          var answer := env.decide(i, resumed);
          if answer.Pending? then (disk2, fuel1 - 1, Halt(Incomplete(i)))
          else Complete(c, disk2, i, answer.decision, fuel1 - 1)
  }

  /** Advance the account, comparing with the frozen result when there is one. */
  function Settle(disk: Disk, i: nat, env: Env, fuel: nat): (r: (Disk, nat, Option<Report>))
    ensures r.2.Some? ==> !r.2.value.Frontier?
  {
    if fuel == 0 then (disk, 0, Some(Crashed(i)))
    else
      var advanced := FindAccount(disk.journal, i);
      if advanced.Some? then
        (disk, fuel - 1, if advanced.value == env.account(i) then None else Some(AccountDiffers(i)))
      else if fuel == 1 then (disk, 0, Some(Crashed(i)))
      else (disk.(journal := disk.journal + [Account(i, env.account(i))]), fuel - 2, None)
  }

  datatype Outcome = NextSession(live: Live) | Stopped(report: Report)

  function Session(c: Config, disk: Disk, s: Live, i: nat, env: Env, fuel: nat): (r: (Disk, nat, Outcome))
    requires i < |c.frames|
    ensures r.2.Stopped? ==> !r.2.report.Frontier?
  {
    if c.frames[i].gaps then (disk, fuel, Stopped(AwaitingData(i)))
    else if !ReviewDue(c, s, i) then
      var (disk', fuel', halted) := Settle(disk, i, env, fuel);
      (disk', fuel', if halted.Some? then Stopped(halted.value) else NextSession(s))
    else
      var (disk1, fuel1, got) := Review(c, disk, i, env, fuel);
      if got.Halt? then (disk1, fuel1, Stopped(got.report))
      else
        var (disk', fuel', halted) := Settle(disk1, i, env, fuel1);
        (disk', fuel', if halted.Some? then Stopped(halted.value) else NextSession(Reviewed(c, s, i, got.decision)))
  }

  /** A traversal from session `i` up to `stop`. */
  function Traverse(c: Config, disk: Disk, s: Live, i: nat, stop: nat, env: Env, fuel: nat): (Disk, Report)
    requires i <= stop <= |c.frames|
    decreases stop - i
  {
    if i == stop then (disk, Frontier(i))
    else
      var (disk', fuel', outcome) := Session(c, disk, s, i, env, fuel);
      if outcome.Stopped? then (disk', outcome.report)
      else Traverse(c, disk', outcome.live, i + 1, stop, env, fuel')
  }

  // ---- the loop ------------------------------------------------------------------------------

  class ContinuousReviewCoordinator {
    var journal: seq<Event>
    ghost var calls: seq<Call>
    const config: Config

    constructor (config: Config)
      ensures journal == [] && calls == [] && this.config == config
    {
      this.config := config;
      journal, calls := [], [];
    }

    /** The decision of a session that is due a review: the durable one, the shared
        initial one, or a new one, made durable before it is used. */
    method ReviewSession(index: nat, env: Env, fuel: nat) returns (got: Got, left: nat)
      requires index < |config.frames|
      modifies this
      ensures (Disk(journal, calls), left, got) == Review(config, old(Disk(journal, calls)), index, env, fuel)
    {
      left := fuel;
      var decision: Decision;
      var completed := FindCompleted(journal, index);
      if completed.Some? {
        decision := completed.value;
      } else if index == 0 && config.sharedInitial.Some? {
        decision := config.sharedInitial.value;
      } else {
        var resumed := FindStarted(journal, index);
        if !resumed {
          if left == 0 { return Halt(Crashed(index)), left; }
          journal, left := journal + [Started(index)], left - 1;
        }
        if left == 0 { return Halt(Crashed(index)), left; }
        calls := calls + [Call(index, resumed, |journal|)];
        left := left - 1;
        var result := env.decide(index, resumed);
        if result.Pending? { return Halt(Incomplete(index)), left; }
        decision := result.decision;
      }
      if decision.horizon !in HORIZONS || index + decision.horizon > |config.frames| {
        return Halt(EndpointExceeded(index)), left;
      }
      if !config.valid(decision, config.frames[index]) { return Halt(Refused(index)), left; }
      if completed.None? {
        if left == 0 { return Halt(Crashed(index)), left; }
        journal, left := journal + [Completed(index, decision)], left - 1;
      }
      got := GotDecision(decision);
    }

    method AdvanceAccount(index: nat, env: Env, fuel: nat) returns (halted: Option<Report>, left: nat)
      modifies this`journal
      ensures (Disk(journal, calls), left, halted) == Settle(old(Disk(journal, calls)), index, env, fuel)
    {
      if fuel == 0 { return Some(Crashed(index)), 0; }
      left := fuel - 1;
      var account := env.account(index);
      var advanced := FindAccount(journal, index);
      if advanced.Some? {
        if advanced.value != account { return Some(AccountDiffers(index)), left; }
      } else {
        if left == 0 { return Some(Crashed(index)), left; }
        journal, left := journal + [Account(index, account)], left - 1;
      }
      halted := None;
    }

    /** One session of the loop: review when due, settle the account, and only then
        move the live state on. */
    method RunSession(index: nat, live: Live, env: Env, fuel: nat) returns (outcome: Outcome, left: nat)
      requires index < |config.frames|
      modifies this
      ensures (Disk(journal, calls), left, outcome) == Session(config, old(Disk(journal, calls)), live, index, env, fuel)
    {
      left := fuel;
      var frame := config.frames[index];
      if frame.gaps { return Stopped(AwaitingData(index)), left; }
      var unseen := frame.facts - live.consumed;
      var expiry := index >= live.expires;
      var eventDue := config.cadence.EventDriven? && unseen != {} && live.eventCount < 3;
      var planDue := config.cadence.Scheduled? && index in live.scheduled;
      var decision: Option<Decision> := None;
      if live.previous.None? || expiry || eventDue || planDue {
        var got: Got;
        got, left := ReviewSession(index, env, left);
        if got.Halt? { return Stopped(got.report), left; }
        decision := Some(got.decision);
      }
      var halted: Option<Report>;
      halted, left := AdvanceAccount(index, env, left);
      if halted.Some? { return Stopped(halted.value), left; }
      if decision.None? { return NextSession(live), left; }
      var eventCount := if expiry then 0 else if eventDue then live.eventCount + 1 else live.eventCount;
      var scheduled := set o | o in config.offsets(decision.value.horizon) && index + o < |config.frames| :: index + o;
      assert live.consumed + unseen == live.consumed + frame.facts;
      outcome := NextSession(Live(decision, live.consumed + unseen, index + decision.value.horizon, eventCount, scheduled));
    }

    /** The program's loop; its five pieces of live state are the fields of `live`. */
    method RunClaimed(stop: nat, env: Env, fuel: nat) returns (report: Report)
      requires stop <= |config.frames|
      modifies this
      ensures (Disk(journal, calls), report) == Traverse(config, old(Disk(journal, calls)), FRESH, 0, stop, env, fuel)
    {
      var live, left := Live(None, {}, 0, 0, {}), fuel;
      var index := 0;
      while index < stop
        invariant index <= stop
        invariant Traverse(config, old(Disk(journal, calls)), FRESH, 0, stop, env, fuel)
          == Traverse(config, Disk(journal, calls), live, index, stop, env, left)
      {
        var outcome: Outcome;
        outcome, left := RunSession(index, live, env, left);
        if outcome.Stopped? { return outcome.report; }
        live := outcome.live;
        index := index + 1;
      }
      report := Frontier(index);
    }
  }
}
