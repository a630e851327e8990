/** Token pricing in whole micro-dollars, and the two folds that rebuild a run's
    metrics from its journal: the reader's, which trusts stored costs, and the
    engine's, which prices the usage again. */
module Metrics {
  import opened Base

  const MILLION: int := 1_000_000
  const UNLIMITED: int := 0x7fff_ffff_ffff_ffff

  datatype Usage = Usage(input: int, output: int)

  datatype Pricing = Pricing(input: nat, output: nat)

  function CeilDiv(n: int): int {
    -((-n) / MILLION)
  }

  function Numerator(p: Pricing, u: Usage): int {
    u.input * p.input + u.output * p.output
  }

  function Estimate(p: Pricing, u: Usage): int {
    CeilDiv(Numerator(p, u))
  }

  function Affordable(p: Pricing, remaining: int, input: int): int {
    if remaining < 1 || input < 0 then 0
    else
      var available := remaining * MILLION - input * p.input;
      if available <= 0 then 0
      else if p.output == 0 then UNLIMITED
      else available / p.output
  }

  // ---- pricing ------------------------------------------------------------------------------

  lemma {:induction false} CeilBounds(n: int)
    ensures (CeilDiv(n) - 1) * MILLION < n <= CeilDiv(n) * MILLION
  {
  }

  lemma {:induction false} CeilFits(n: int, budget: int)
    ensures CeilDiv(n) <= budget <==> n <= budget * MILLION
  {
    CeilBounds(n);
  }

  lemma {:induction false} QuotientFits(available: int, price: nat, k: int)
    requires 0 < price
    ensures k <= available / price <==> k * price <= available
  {
    var q := available / price;
    assert q * price <= available < (q + 1) * price;
    if k <= q {
      assert k * price <= q * price;
    } else {
      assert (q + 1) * price <= k * price;
    }
  }

  /** A positive number of output tokens is affordable exactly when its estimated cost
      fits what remains, whatever remains and however long the input is; with a negative
      input length nothing is. */
  lemma {:induction false} AffordableIffItFits(p: Pricing, remaining: int, input: int, output: int)
    requires 0 < p.output && 1 <= output
    ensures output <= Affordable(p, remaining, input) <==> 0 <= input && Estimate(p, Usage(input, output)) <= remaining
  {
    var n := Numerator(p, Usage(input, output));
    CeilFits(n, remaining);
    assert p.output <= output * p.output;
    assert 0 <= input ==> 0 <= input * p.input;
    if 1 <= remaining && 0 <= input {
      var available := remaining * MILLION - input * p.input;
      QuotientFits(available, p.output, output);
    }
  }

  /** With free output tokens the answer is all or nothing. */
  lemma {:induction false} FreeOutputIsAllOrNothing(p: Pricing, remaining: int, input: int, output: nat)
    requires p.output == 0
    ensures Affordable(p, remaining, input) == 0 || Estimate(p, Usage(input, output)) <= remaining
    ensures Affordable(p, remaining, input) == UNLIMITED <==> 0 <= input && input * p.input < remaining * MILLION
    ensures Affordable(p, remaining, input) in {0, UNLIMITED}
  {
    CeilFits(Numerator(p, Usage(input, output)), remaining);
    assert 0 <= input ==> 0 <= input * p.input;
  }

  function Plus(a: Usage, b: Usage): Usage {
    Usage(a.input + b.input, a.output + b.output)
  }

  function TotalUsage(turns: seq<Usage>): Usage {
    if turns == [] then Usage(0, 0) else Plus(TotalUsage(turns[..|turns| - 1]), turns[|turns| - 1])
  }

  function TotalEstimate(p: Pricing, turns: seq<Usage>): int {
    if turns == [] then 0 else TotalEstimate(p, turns[..|turns| - 1]) + Estimate(p, turns[|turns| - 1])
  }

  lemma {:induction false} NumeratorAdds(p: Pricing, a: Usage, b: Usage)
    ensures Numerator(p, Plus(a, b)) == Numerator(p, a) + Numerator(p, b)
  {
  }

  lemma {:induction false} CeilAdds(a: int, b: int)
    ensures CeilDiv(a + b) <= CeilDiv(a) + CeilDiv(b) <= CeilDiv(a + b) + 1
  {
  }

  /** Rounding each turn up never undercharges, and overcharges by less than one
      micro-dollar for every turn after the first. */
  lemma {:induction false} RoundingPerTurn(p: Pricing, turns: seq<Usage>)
    requires turns != []
    ensures Estimate(p, TotalUsage(turns)) <= TotalEstimate(p, turns)
    ensures TotalEstimate(p, turns) <= Estimate(p, TotalUsage(turns)) + |turns| - 1
    decreases |turns|
  {
    var n := |turns| - 1;
    if n == 0 {
      assert TotalUsage(turns[..n]) == Usage(0, 0) && TotalEstimate(p, turns[..n]) == 0;
    } else {
      RoundingPerTurn(p, turns[..n]);
      NumeratorAdds(p, TotalUsage(turns[..n]), turns[n]);
      CeilAdds(Numerator(p, TotalUsage(turns[..n])), Numerator(p, turns[n]));
    }
  }

  // ---- the journal the folds read ----------------------------------------------------------------

  datatype Event =
    | TurnCompleted(ordinal: int, identity: (Id, Id), usage: Usage, latency: real, attempts: int, calls: nat, cost: int)
    | ToolCompleted(size: int, stored: nat)
    | TurnFailed(attempts: int, latency: real)
    | AttemptDispatched
    | OtherAllowed
    | Unsupported

  datatype RunMetrics = RunMetrics(
    turns: int, toolCalls: int, input: int, output: int, resultBytes: int, latency: real, attempts: int, cost: int)

  const NOTHING := RunMetrics(0, 0, 0, 0, 0, 0.0, 0, 0)

  function Count(events: seq<Event>, kind: Event -> bool): nat {
    if events == [] then 0
    else Count(events[..|events| - 1], kind) + (if kind(events[|events| - 1]) then 1 else 0)
  }

  function Sum(events: seq<Event>, of: Event -> int): int {
    if events == [] then 0 else Sum(events[..|events| - 1], of) + of(events[|events| - 1])
  }

  function SumLatency(events: seq<Event>): real {
    if events == [] then 0.0
    else
      var last := events[|events| - 1];
      SumLatency(events[..|events| - 1]) + (if last.TurnCompleted? || last.TurnFailed? then last.latency else 0.0)
  }

  const IS_TURN := (e: Event) => e.TurnCompleted?
  const IS_TOOL := (e: Event) => e.ToolCompleted?
  const IS_DISPATCH := (e: Event) => e.AttemptDispatched?
  const CALLS_OF := (e: Event) => if e.TurnCompleted? then e.calls else 0
  const INPUT_OF := (e: Event) => if e.TurnCompleted? then e.usage.input else 0
  const OUTPUT_OF := (e: Event) => if e.TurnCompleted? then e.usage.output else 0
  const BYTES_OF := (e: Event) => if e.ToolCompleted? then e.size else 0
  const ATTEMPTS_OF := (e: Event) => if e.TurnCompleted? || e.TurnFailed? then e.attempts else 0
  const STORED_COST := (e: Event) => if e.TurnCompleted? then e.cost else 0

  function PricedCost(p: Pricing): Event -> int {
    (e: Event) => if e.TurnCompleted? then Estimate(p, e.usage) else 0
  }

  /** What the metrics of a journal mean: totals per event kind, with physical
      dispatches, once there are any, replacing the reported attempts. */
  function MetricsOf(events: seq<Event>, cost: Event -> int): RunMetrics {
    var physical := Count(events, IS_DISPATCH);
    RunMetrics(
      Count(events, IS_TURN), Sum(events, CALLS_OF), Sum(events, INPUT_OF), Sum(events, OUTPUT_OF),
      Sum(events, BYTES_OF), SumLatency(events),
      if physical != 0 then physical else Sum(events, ATTEMPTS_OF), Sum(events, cost))
  }

  /** The reader's own conditions on an event after the ones before it. */
  predicate Readable(before: seq<Event>, e: Event, identity: Option<(Id, Id)>) {
    match e
    case TurnCompleted(ordinal, who, usage, _, _, _, _) =>
      && ordinal == Count(before, IS_TURN) + 1
      && (identity.Some? ==> who == identity.value)
      && usage.input + usage.output != 0
    case ToolCompleted(size, stored) => Count(before, IS_TURN) != 0 && stored == size
    case Unsupported => false
    case _ => true
  }

  predicate AllReadable(events: seq<Event>, identity: Option<(Id, Id)>) {
    events == [] || (
      var n := |events| - 1;
      AllReadable(events[..n], identity) && Readable(events[..n], events[n], identity))
  }

  predicate Accepted(events: seq<Event>, identity: Option<(Id, Id)>, requireTurn: bool) {
    && AllReadable(events, identity)
    && (requireTurn ==> Count(events, IS_TURN) != 0)
    && Count(events, IS_TOOL) <= Sum(events, CALLS_OF)
    && (requireTurn ==> Count(events, IS_TOOL) == Sum(events, CALLS_OF))
  }

  lemma {:induction false} ReadablePrefix(events: seq<Event>, identity: Option<(Id, Id)>, k: nat)
    requires AllReadable(events, identity) && k <= |events|
    ensures AllReadable(events[..k], identity)
    decreases |events|
  {
    if k == |events| {
      TakeAll(events);
    } else {
      ReadablePrefix(events[..|events| - 1], identity, k);
      assert events[..|events| - 1][..k] == events[..k];
    }
  }

  /** One more event, seen by every total at once. */
  lemma {:induction false} Extends(events: seq<Event>, k: nat)
    requires k < |events|
    ensures var e := events[k]; var before := events[..k]; var upTo := events[..k + 1];
      && (forall kind :: Count(upTo, kind) == Count(before, kind) + if kind(e) then 1 else 0)
      && (forall of :: Sum(upTo, of) == Sum(before, of) + of(e))
      && SumLatency(upTo) == SumLatency(before) + (if e.TurnCompleted? || e.TurnFailed? then e.latency else 0.0)
      && forall identity :: AllReadable(upTo, identity) <==> AllReadable(before, identity) && Readable(before, e, identity)
  {
    var upTo := events[..k + 1];
    assert upTo[..|upTo| - 1] == events[..k] && upTo[|upTo| - 1] == events[k];
  }

  // ---- what is counted, event by event -------------------------------------------------------

  function Places(events: seq<Event>, k: nat, kind: Event -> bool): set<nat>
    requires k <= |events|
  {
    set i: nat | i < k && kind(events[i])
  }

  lemma {:induction false} CountsPlaces(events: seq<Event>, k: nat, kind: Event -> bool)
    requires k <= |events|
    ensures Count(events[..k], kind) == |Places(events, k, kind)|
  {
    if k == 0 {
      assert Places(events, 0, kind) == {};
    } else {
      CountsPlaces(events, k - 1, kind);
      assert events[..k][..k - 1] == events[..k - 1];
      assert Places(events, k, kind) == Places(events, k - 1, kind) + (if kind(events[k - 1]) then {k - 1} else {});
    }
  }

  /** What one more event adds to the metrics of a journal. */
  lemma {:induction false} EachEventCounts(events: seq<Event>, e: Event, cost: Event -> int)
    ensures var m, m' := MetricsOf(events, cost), MetricsOf(events + [e], cost);
      && m'.cost == m.cost + cost(e)
      && match e
         case TurnCompleted(_, _, usage, latency, _, calls, _) =>
           && m'.turns == m.turns + 1 && m'.toolCalls == m.toolCalls + calls && m'.resultBytes == m.resultBytes
           && m'.input == m.input + usage.input && m'.output == m.output + usage.output && m'.latency == m.latency + latency
         case ToolCompleted(size, _) =>
           && m'.resultBytes == m.resultBytes + size && m'.turns == m.turns && m'.toolCalls == m.toolCalls
           && m'.input == m.input && m'.output == m.output && m'.latency == m.latency
         case TurnFailed(_, latency) =>
           && m'.latency == m.latency + latency && m'.turns == m.turns && m'.toolCalls == m.toolCalls
           && m'.input == m.input && m'.output == m.output && m'.resultBytes == m.resultBytes
         case _ =>
           && m'.turns == m.turns && m'.toolCalls == m.toolCalls && m'.input == m.input && m'.output == m.output
           && m'.resultBytes == m.resultBytes && m'.latency == m.latency
  {
    Extends(events + [e], |events|);
    TakeAll(events + [e]);
    assert (events + [e])[..|events|] == events;
  }

  /** Attempts are the dispatches, once there are any, and what the turns report otherwise. */
  lemma {:induction false} AttemptsMean(events: seq<Event>, e: Event, cost: Event -> int)
    ensures var dispatches := |Places(events, |events|, (x: Event) => x.AttemptDispatched?)|;
      0 < dispatches ==> MetricsOf(events, cost).attempts == dispatches
    ensures (forall x :: x in events ==> !x.AttemptDispatched?) && !e.AttemptDispatched? ==>
      MetricsOf(events + [e], cost).attempts == MetricsOf(events, cost).attempts +
        (match e case TurnCompleted(_, _, _, _, attempts, _, _) => attempts case TurnFailed(attempts, _) => attempts case _ => 0)
  {
    CountsPlaces(events, |events|, IS_DISPATCH);
    TakeAll(events);
    assert Places(events, |events|, (x: Event) => x.AttemptDispatched?) == Places(events, |events|, IS_DISPATCH);
    Extends(events + [e], |events|);
    TakeAll(events + [e]);
    assert (events + [e])[..|events|] == events;
    if forall x :: x in events ==> !x.AttemptDispatched? {
      assert Places(events, |events|, IS_DISPATCH) == {};
    }
  }

  /** A journal is readable exactly when each event is supported and each turn has the next
      ordinal, the run's identity and some usage, and each tool result comes after a turn
      with the size that was stored. */
  lemma {:induction false} ReadableIff(events: seq<Event>, identity: Option<(Id, Id)>)
    ensures AllReadable(events, identity) <==> forall k :: 0 <= k < |events| ==>
      var turns := |Places(events, k, (x: Event) => x.TurnCompleted?)|;
      match events[k]
      case TurnCompleted(ordinal, who, usage, _, _, _, _) =>
        ordinal == turns + 1 && (identity.Some? ==> who == identity.value) && usage.input + usage.output != 0
      case ToolCompleted(size, stored) => 0 < turns && stored == size
      case Unsupported => false
      case _ => true
  {
    forall k | 0 <= k < |events|
      ensures Count(events[..k], IS_TURN) == |Places(events, k, (x: Event) => x.TurnCompleted?)|
    {
      CountsPlaces(events, k, IS_TURN);
      assert Places(events, k, (x: Event) => x.TurnCompleted?) == Places(events, k, IS_TURN);
    }
    ReadableEach(events, identity);
  }

  lemma {:induction false} ReadableEach(events: seq<Event>, identity: Option<(Id, Id)>)
    ensures AllReadable(events, identity) <==> forall k :: 0 <= k < |events| ==> Readable(events[..k], events[k], identity)
  {
    if events != [] {
      var n := |events| - 1;
      ReadableEach(events[..n], identity);
      assert forall k :: 0 <= k < n ==> events[..n][..k] == events[..k];
    }
  }

  /** The reader: checks each event, adds stored costs, and insists the tool calls balance. */
  method ReconstructRunMetrics(events: seq<Event>, identity: Option<(Id, Id)>, requireTurn: bool)
    returns (metrics: Option<RunMetrics>)
    ensures metrics == if Accepted(events, identity, requireTurn) then Some(MetricsOf(events, STORED_COST)) else None
  {
    var m := NOTHING;
    var completedTools := 0;
    for i := 0 to |events|
      invariant AllReadable(events[..i], identity)
      invariant m.turns == Count(events[..i], IS_TURN) && completedTools == Count(events[..i], IS_TOOL)
      invariant m.toolCalls == Sum(events[..i], CALLS_OF)
      invariant m.input == Sum(events[..i], INPUT_OF) && m.output == Sum(events[..i], OUTPUT_OF)
      invariant m.resultBytes == Sum(events[..i], BYTES_OF) && m.latency == SumLatency(events[..i])
      invariant m.attempts == Sum(events[..i], ATTEMPTS_OF) && m.cost == Sum(events[..i], STORED_COST)
    {
      Extends(events, i);
      var e := events[i];
      var bad := match e
        case Unsupported => true
        case TurnCompleted(ordinal, who, usage, _, _, _, _) =>
          ordinal != m.turns + 1 || (identity.Some? && who != identity.value) || usage.input + usage.output == 0
        case ToolCompleted(size, stored) => m.turns == 0 || stored != size
        case _ => false;
      if bad {
        if AllReadable(events, identity) { ReadablePrefix(events, identity, i + 1); }
        return None;
      }
      match e
      case TurnCompleted(_, _, usage, latency, attempts, calls, cost) =>
        m := RunMetrics(
          m.turns + 1, m.toolCalls + calls, m.input + usage.input, m.output + usage.output,
          m.resultBytes, m.latency + latency, m.attempts + attempts, m.cost + cost);
      case ToolCompleted(size, _) =>
        completedTools := completedTools + 1;
        m := m.(resultBytes := m.resultBytes + size);
      case TurnFailed(attempts, latency) =>
        m := m.(attempts := m.attempts + attempts, latency := m.latency + latency);
      case AttemptDispatched =>
      case OtherAllowed =>
    }
    TakeAll(events);
    if requireTurn && m.turns == 0 { return None; }
    var physical := Count(events, IS_DISPATCH);
    if physical != 0 { m := m.(attempts := physical); }
    if m.toolCalls < completedTools { return None; }
    if requireTurn && completedTools != m.toolCalls { return None; }
    metrics := Some(m);
  }

  predicate Priceable(e: Event) {
    && (e.TurnCompleted? ==> 0 <= e.usage.input && 0 <= e.usage.output)
    && (e.ToolCompleted? ==> 0 <= e.size)
  }

  /** The engine: prices every turn's usage again, and checks only that it can. */
  method MetricsFromJournal(events: seq<Event>, p: Pricing) returns (metrics: Option<RunMetrics>)
    ensures metrics ==
      if forall e :: e in events ==> Priceable(e) then Some(MetricsOf(events, PricedCost(p))) else None
  {
    var m := NOTHING;
    for i := 0 to |events|
      invariant forall e :: e in events[..i] ==> Priceable(e)
      invariant m.turns == Count(events[..i], IS_TURN) && m.toolCalls == Sum(events[..i], CALLS_OF)
      invariant m.input == Sum(events[..i], INPUT_OF) && m.output == Sum(events[..i], OUTPUT_OF)
      invariant m.resultBytes == Sum(events[..i], BYTES_OF) && m.latency == SumLatency(events[..i])
      invariant m.attempts == Sum(events[..i], ATTEMPTS_OF) && m.cost == Sum(events[..i], PricedCost(p))
    {
      Extends(events, i);
      TakeNext(events, i);
      var e := events[i];
      match e
      case TurnCompleted(_, _, usage, latency, attempts, calls, _) =>
        if usage.input < 0 || usage.output < 0 {
          assert !Priceable(e);
          return None;
        }
        m := RunMetrics(
          m.turns + 1, m.toolCalls + calls, m.input + usage.input, m.output + usage.output,
          m.resultBytes, m.latency + latency, m.attempts + attempts, m.cost + Estimate(p, usage));
      case ToolCompleted(size, _) =>
        if size < 0 {
          assert !Priceable(e);
          return None;
        }
        m := m.(resultBytes := m.resultBytes + size);
      case TurnFailed(attempts, latency) =>
        m := m.(attempts := m.attempts + attempts, latency := m.latency + latency);
      case AttemptDispatched =>
      case OtherAllowed =>
      case Unsupported =>
    }
    TakeAll(events);
    var physical := Count(events, IS_DISPATCH);
    if physical != 0 { m := m.(attempts := physical); }
    metrics := Some(m);
  }

  // ---- the two folds agree ------------------------------------------------------------------------

  /** A model turn as the provider returns it, and the event the engine stores for it. */
  datatype Turn = Turn(usage: Usage, latency: real, attempts: int, calls: nat)

  predicate Constructed(t: Turn) {
    0 <= t.usage.input && 0 <= t.usage.output
  }

  function StoreTurn(ordinal: int, identity: (Id, Id), t: Turn, p: Pricing): Event {
    TurnCompleted(ordinal, identity, t.usage, t.latency, t.attempts, t.calls, Estimate(p, t.usage))
  }

  ghost predicate StoredByEngine(e: Event, p: Pricing) {
    e.TurnCompleted? ==> exists t, ordinal, identity :: Constructed(t) && e == StoreTurn(ordinal, identity, t, p)
  }

  function Usages(events: seq<Event>): seq<Usage> {
    if events == [] then []
    else
      var last := events[|events| - 1];
      Usages(events[..|events| - 1]) + (if last.TurnCompleted? then [last.usage] else [])
  }

  lemma {:induction false} SameCosts(events: seq<Event>, p: Pricing)
    requires forall e :: e in events ==> StoredByEngine(e, p)
    ensures Sum(events, STORED_COST) == Sum(events, PricedCost(p)) == TotalEstimate(p, Usages(events))
    decreases |events|
  {
    if events != [] {
      var n := |events| - 1;
      SameCosts(events[..n], p);
      assert StoredByEngine(events[n], p);
      if events[n].TurnCompleted? {
        var us := Usages(events);
        assert us[..|us| - 1] == Usages(events[..n]) && us[|us| - 1] == events[n].usage;
      } else {
        assert Usages(events) == Usages(events[..n]);
      }
    }
  }

  lemma {:induction false} AcceptedSizesAreStored(events: seq<Event>, identity: Option<(Id, Id)>)
    requires AllReadable(events, identity)
    ensures forall e :: e in events && e.ToolCompleted? ==> 0 <= e.size
    decreases |events|
  {
    if events != [] { AcceptedSizesAreStored(events[..|events| - 1], identity); }
  }

  /** On a journal the reader accepts and whose turns the engine stored, the engine can
      price every turn, and both folds give the same metrics. */
  lemma {:induction false} FoldsAgree(events: seq<Event>, identity: Option<(Id, Id)>, requireTurn: bool, p: Pricing)
    requires Accepted(events, identity, requireTurn)
    requires forall e :: e in events ==> StoredByEngine(e, p)
    ensures forall e :: e in events ==> Priceable(e)
    ensures MetricsOf(events, STORED_COST) == MetricsOf(events, PricedCost(p))
  {
    AcceptedSizesAreStored(events, identity);
    SameCosts(events, p);
    forall e | e in events ensures Priceable(e) { assert StoredByEngine(e, p); }
  }

  lemma {:induction false} UsagesTotal(events: seq<Event>)
    ensures TotalUsage(Usages(events)) == Usage(Sum(events, INPUT_OF), Sum(events, OUTPUT_OF))
    ensures |Usages(events)| == Count(events, IS_TURN)
    decreases |events|
  {
    if events != [] {
      var n := |events| - 1;
      UsagesTotal(events[..n]);
      if events[n].TurnCompleted? {
        var us := Usages(events);
        assert us[..|us| - 1] == Usages(events[..n]) && us[|us| - 1] == events[n].usage;
      } else {
        assert Usages(events) == Usages(events[..n]);
      }
    }
  }

  /** The reported cost of a run lies between the exact cost of its reported tokens,
      rounded up once, and that plus one micro-dollar per further turn. */
  lemma {:induction false} ReportedCostIsTight(events: seq<Event>, p: Pricing)
    requires forall e :: e in events ==> StoredByEngine(e, p)
    requires Count(events, IS_TURN) != 0
    ensures var m := MetricsOf(events, STORED_COST);
      var exact := Estimate(p, Usage(m.input, m.output));
      exact <= m.cost <= exact + m.turns - 1
  {
    SameCosts(events, p);
    UsagesTotal(events);
    RoundingPerTurn(p, Usages(events));
  }
}
