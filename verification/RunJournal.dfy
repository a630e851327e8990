/** The run journal: one event table shared by every run, one hash chain per run.
    An event hash is a `Digest`: it determines the event it was taken of. */
module RunJournal {
  import opened Base

  datatype Digest = OfEvent(core: EventCore)

  datatype EventCore = EventCore(
    run: Id, event: Id, kind: Id, observedAt: Time, payload: Id, previous: Option<Digest>)

  /** `payload` is the content hash of the payload. */
  datatype Row = Row(sequence: int, core: EventCore, hash: Digest)

  datatype Status = Running | Completed | Failed | Cancelled | BudgetExhausted | HumanInputRequired

  /** `authority` is the harness authority of the journal that started the run. */
  datatype Run = Run(status: Status, config: Id, authority: Option<Id>, plan: Option<Id>, artifact: Option<Id>)

  datatype Journal = Journal(runs: map<Id, Run>, rows: seq<Row>)

  const EMPTY := Journal(map[], [])

  /** The signed sink and the plain append differ only in whom they turn away. */
  datatype Writer = Plain(refusesKinds: set<Id>) | Privileged

  datatype Request = Request(run: Id, event: Id, kind: Id, observedAt: Time, payload: Id)

  datatype Appended =
    | Written(row: Row) | AlreadyThere(row: Row) | UnknownRun | SignerRequired | TerminalRun | DifferentContent

  function FindEvent(rows: seq<Row>, event: Id): Option<Row> {
    if rows == [] then None
    else if rows[0].core.event == event then Some(rows[0])
    else FindEvent(rows[1..], event)
  }

  /** The events of one run, in sequence order. */
  function EventsOf(rows: seq<Row>, run: Id): seq<Row> {
    if rows == [] then []
    else
      var n := |rows| - 1;
      EventsOf(rows[..n], run) + (if rows[n].core.run == run then [rows[n]] else [])
  }

  function Tail(events: seq<Row>): Option<Digest> {
    if events == [] then None else Some(events[|events| - 1].hash)
  }

  function NextSequence(rows: seq<Row>): int {
    if rows == [] then 1 else rows[|rows| - 1].sequence + 1
  }

  predicate SameContent(row: Row, q: Request) {
    row.core.run == q.run && row.core.kind == q.kind && row.core.payload == q.payload
  }

  predicate Barred(w: Writer, run: Run, kind: Id) {
    w.Plain? && (run.plan.Some? || kind in w.refusesKinds)
  }

  function Append(j: Journal, w: Writer, q: Request): Appended {
    if q.run !in j.runs then UnknownRun
    else if Barred(w, j.runs[q.run], q.kind) then SignerRequired
    else if j.runs[q.run].status != Running then TerminalRun
    else
      var existing := FindEvent(j.rows, q.event);
      if existing.Some? then
        if SameContent(existing.value, q) then AlreadyThere(existing.value) else DifferentContent
      else
        var core := EventCore(q.run, q.event, q.kind, q.observedAt, q.payload, Tail(EventsOf(j.rows, q.run)));
        Written(Row(NextSequence(j.rows), core, OfEvent(core)))
  }

  datatype Started = Begun | Resumed | NotEligible | OtherConfiguration | OtherAuthority

  /** A run with a strategy plan needs an authority; a known run is resumed under its own binding. */
  function Start(j: Journal, run: Id, config: Id, authority: Option<Id>, plan: Option<Id>): Started {
    if plan.Some? && authority.None? then NotEligible
    else if run !in j.runs then Begun
    else if j.runs[run].config != config then OtherConfiguration
    else if j.runs[run].authority != authority || j.runs[run].plan != plan then OtherAuthority
    else Resumed
  }

  datatype Finished = Proceeds | SameResult | OtherResult | NoSuchRun | NotTerminal | ArtifactRequired

  /** What ending a run reads and decides first, outside any transaction. */
  function ReadToFinish(j: Journal, run: Id, status: Status, artifact: Option<Id>): Finished {
    if status == Running then NotTerminal
    else if run !in j.runs then NoSuchRun
    else
      var current := j.runs[run];
      if current.status != Running then
        if current.status == status && current.artifact == artifact then SameResult else OtherResult
      else if status == Completed && artifact.None? then ArtifactRequired
      else Proceeds
  }

  // ---- the tables after each write -------------------------------------------------------------

  function StartIn(j: Journal, run: Id, config: Id, authority: Option<Id>, plan: Option<Id>): Journal {
    if Start(j, run, config, authority, plan).Begun?
    then j.(runs := j.runs[run := Run(Running, config, authority, plan, None)]) else j
  }

  function AppendTo(j: Journal, w: Writer, q: Request): Journal {
    var answer := Append(j, w, q);
    if answer.Written? then j.(rows := j.rows + [answer.row]) else j
  }

  /** The UPDATE that ends a run. It names the run only, so it also overwrites a result
      that was written since its read. */
  function WriteResult(j: Journal, run: Id, status: Status, artifact: Option<Id>): Journal {
    if run in j.runs then j.(runs := j.runs[run := j.runs[run].(status := status, artifact := artifact)]) else j
  }

  // ---- any interleaving of calls on any runs -------------------------------------------------

  /** A caller that read its run as running and has not written yet. */
  datatype Finisher = Finisher(run: Id, status: Status, artifact: Option<Id>)

  datatype World = World(journal: Journal, finishers: map<nat, Finisher>)

  const WORLD := World(EMPTY, map[])

  datatype Step =
    | StartStep(run: Id, config: Id, authority: Option<Id>, plan: Option<Id>)
    | AppendStep(w: Writer, q: Request)
    | BeginFinish(id: nat, run: Id, status: Status, artifact: Option<Id>)
    | EndFinish(id: nat)
    | Crash(id: nat)

  function Next(w: World, step: Step): World {
    match step
    case StartStep(run, config, authority, plan) => w.(journal := StartIn(w.journal, run, config, authority, plan))
    case AppendStep(writer, q) => w.(journal := AppendTo(w.journal, writer, q))
    case BeginFinish(id, run, status, artifact) =>
      if id !in w.finishers && ReadToFinish(w.journal, run, status, artifact).Proceeds?
      then w.(finishers := w.finishers[id := Finisher(run, status, artifact)]) else w
    case EndFinish(id) =>
      if id in w.finishers then
        var f := w.finishers[id];
        World(WriteResult(w.journal, f.run, f.status, f.artifact), w.finishers - {id})
      else w
    case Crash(id) => w.(finishers := w.finishers - {id})
  }

  function RunSteps(w: World, steps: seq<Step>): World
    decreases |steps|
  {
    if steps == [] then w else Next(RunSteps(w, steps[..|steps| - 1]), steps[|steps| - 1])
  }

  // ---- what every reachable journal satisfies -------------------------------------------------

  predicate Chained(events: seq<Row>) {
    forall k :: 0 <= k < |events| ==> events[k].core.previous == Tail(events[..k])
  }

  predicate RowsSound(rows: seq<Row>) {
    && (forall k :: 0 <= k < |rows| ==> rows[k].hash == OfEvent(rows[k].core))
    && (forall a, b :: 0 <= a < b < |rows| ==> rows[a].sequence < rows[b].sequence)
    && (forall a, b :: 0 <= a < b < |rows| ==> rows[a].core.event != rows[b].core.event)
  }

  ghost predicate AllChained(rows: seq<Row>) {
    forall run {:trigger EventsOf(rows, run)} :: Chained(EventsOf(rows, run))
  }

  ghost predicate Sound(j: Journal) {
    && RowsSound(j.rows)
    && (forall k :: 0 <= k < |j.rows| ==> j.rows[k].core.run in j.runs)
    && AllChained(j.rows)
  }

  /** Whoever is about to end a run ends a known one with a terminal status. */
  predicate FinishersSane(w: World) {
    forall id :: id in w.finishers ==> w.finishers[id].status != Running && w.finishers[id].run in w.journal.runs
  }

  lemma {:induction false} FindsTheRow(rows: seq<Row>, event: Id)
    ensures var f := FindEvent(rows, event);
      if f.Some? then f.value in rows && f.value.core.event == event
      else forall k :: 0 <= k < |rows| ==> rows[k].core.event != event
  {
    if rows != [] && rows[0].core.event != event {
      FindsTheRow(rows[1..], event);
      forall k | 0 <= k < |rows| && FindEvent(rows, event).None? ensures rows[k].core.event != event {
        if 0 < k { assert rows[k] == rows[1..][k - 1]; }
      }
    }
  }

  lemma {:induction false} EventsAfter(rows: seq<Row>, row: Row, run: Id)
    ensures EventsOf(rows + [row], run) == EventsOf(rows, run) + (if row.core.run == run then [row] else [])
  {
    var all := rows + [row];
    assert all[..|all| - 1] == rows && all[|all| - 1] == row;
  }

  lemma {:induction false} ChainExtends(events: seq<Row>, row: Row)
    requires Chained(events) && row.core.previous == Tail(events)
    ensures Chained(events + [row])
  {
    var all := events + [row];
    forall k | 0 <= k < |all| ensures all[k].core.previous == Tail(all[..k]) {
      assert all[..k] == events[..k];
      if k == |events| { assert events[..k] == events; }
    }
  }

  lemma {:induction false} RowsExtend(rows: seq<Row>, row: Row)
    requires RowsSound(rows) && FindEvent(rows, row.core.event).None?
    requires row.hash == OfEvent(row.core) && row.sequence == NextSequence(rows)
    ensures RowsSound(rows + [row])
  {
    FindsTheRow(rows, row.core.event);
    assert forall a :: 0 <= a < |rows| ==> rows[a].sequence <= rows[|rows| - 1].sequence;
  }

  lemma {:induction false} ChainsExtend(rows: seq<Row>, row: Row)
    requires AllChained(rows) && row.core.previous == Tail(EventsOf(rows, row.core.run))
    ensures AllChained(rows + [row])
  {
    forall run ensures Chained(EventsOf(rows + [row], run)) {
      EventsAfter(rows, row, run);
      assert Chained(EventsOf(rows, run));
      if run == row.core.run { ChainExtends(EventsOf(rows, run), row); }
    }
  }

  lemma {:induction false} AppendStaysSound(j: Journal, w: Writer, q: Request)
    requires Sound(j)
    ensures Sound(AppendTo(j, w, q))
  {
    var answer := Append(j, w, q);
    if answer.Written? {
      RowsExtend(j.rows, answer.row);
      ChainsExtend(j.rows, answer.row);
    }
  }

  lemma {:induction false} SameRowsStaySound(j: Journal, j': Journal)
    requires Sound(j) && j'.rows == j.rows && j.runs.Keys <= j'.runs.Keys
    ensures Sound(j')
  {
  }

  lemma {:induction false} StepStaysSound(w: World, step: Step)
    requires Sound(w.journal) && FinishersSane(w)
    ensures Sound(Next(w, step).journal) && FinishersSane(Next(w, step))
  {
    if step.AppendStep? {
      AppendStaysSound(w.journal, step.w, step.q);
    } else {
      SameRowsStaySound(w.journal, Next(w, step).journal);
    }
  }

  /** Whatever the interleaving, every run's events form one chain of their own. */
  lemma {:induction false} EveryJournalIsSound(steps: seq<Step>)
    ensures Sound(RunSteps(WORLD, steps).journal) && FinishersSane(RunSteps(WORLD, steps))
    decreases |steps|
  {
    if steps == [] {
      forall run ensures Chained(EventsOf(EMPTY.rows, run)) {}
    } else {
      var n := |steps| - 1;
      EveryJournalIsSound(steps[..n]);
      StepStaysSound(RunSteps(WORLD, steps[..n]), steps[n]);
    }
  }

  // ---- what an append writes -------------------------------------------------------------------

  /** Row `k` is the last one of its run. */
  predicate LastOf(rows: seq<Row>, k: nat, run: Id) {
    k < |rows| && rows[k].core.run == run && forall m :: k < m < |rows| ==> rows[m].core.run != run
  }

  lemma {:induction false} TailIsTheLast(rows: seq<Row>, run: Id)
    ensures var tail := Tail(EventsOf(rows, run));
      if tail.Some? then exists k :: 0 <= k < |rows| && LastOf(rows, k, run) && tail == Some(rows[k].hash)
      else forall k :: 0 <= k < |rows| ==> rows[k].core.run != run
  {
    if rows != [] {
      var n := |rows| - 1;
      var front := rows[..n];
      if rows[n].core.run == run {
        assert LastOf(rows, n, run);
      } else {
        TailIsTheLast(front, run);
        if Tail(EventsOf(front, run)).Some? {
          var k :| 0 <= k < n && LastOf(front, k, run) && Tail(EventsOf(front, run)) == Some(front[k].hash);
          forall m | k < m < |rows| ensures rows[m].core.run != run { if m < n { assert front[m] == rows[m]; } }
          assert LastOf(rows, k, run);
        } else {
          forall k | 0 <= k < |rows| ensures rows[k].core.run != run { if k < n { assert front[k] == rows[k]; } }
        }
      }
    }
  }

  /** An event is written exactly when its run is running, its writer may write it, and
      its identity is new. */
  lemma {:induction false} WrittenIff(j: Journal, w: Writer, q: Request)
    ensures Append(j, w, q).Written? <==>
      && q.run in j.runs && j.runs[q.run].status == Running
      && (w.Plain? ==> j.runs[q.run].plan.None? && q.kind !in w.refusesKinds)
      && forall k :: 0 <= k < |j.rows| ==> j.rows[k].core.event != q.event
  {
    FindsTheRow(j.rows, q.event);
    var found := FindEvent(j.rows, q.event);
    if found.Some? { var k :| 0 <= k < |j.rows| && j.rows[k] == found.value; }
  }

  /** What is written is what was asked for, chained to the last event of the same run. */
  lemma {:induction false} WrittenRow(j: Journal, w: Writer, q: Request)
    requires Append(j, w, q).Written?
    ensures var row := Append(j, w, q).row;
      && AppendTo(j, w, q).rows == j.rows + [row]
      && row.core.run == q.run && row.core.event == q.event && row.core.kind == q.kind
      && row.core.observedAt == q.observedAt && row.core.payload == q.payload
      && (row.core.previous.None? <==> forall k :: 0 <= k < |j.rows| ==> j.rows[k].core.run != q.run)
      && (forall k: nat :: LastOf(j.rows, k, q.run) ==> row.core.previous == Some(j.rows[k].hash))
  {
    TailIsTheLast(j.rows, q.run);
    var tail := Tail(EventsOf(j.rows, q.run));
    if tail.Some? {
      var last :| 0 <= last < |j.rows| && LastOf(j.rows, last, q.run) && tail == Some(j.rows[last].hash);
    }
  }

  /** A run begins once, under a plan only with an authority; the same binding resumes it. */
  lemma {:induction false} BegunIff(j: Journal, run: Id, config: Id, authority: Option<Id>, plan: Option<Id>)
    ensures Start(j, run, config, authority, plan) == Begun <==> run !in j.runs && (plan.Some? ==> authority.Some?)
    ensures Start(j, run, config, authority, plan) == Resumed <==>
      && run in j.runs && (plan.Some? ==> authority.Some?)
      && j.runs[run].config == config && j.runs[run].authority == authority && j.runs[run].plan == plan
    ensures Start(j, run, config, authority, plan) == Begun ==>
      var r := StartIn(j, run, config, authority, plan).runs;
      run in r && r[run].status == Running && r[run].config == config && r[run].plan == plan && r[run].artifact.None?
  {
  }

  // ---- retries, and the end of a run ------------------------------------------------------------

  lemma {:induction false} FindsExactly(rows: seq<Row>, k: nat)
    requires RowsSound(rows) && k < |rows|
    ensures FindEvent(rows, rows[k].core.event) == Some(rows[k])
  {
    FindsTheRow(rows, rows[k].core.event);
    var f := FindEvent(rows, rows[k].core.event).value;
    var m :| 0 <= m < |rows| && rows[m] == f;
  }

  /** Asking again for an event that is already there changes nothing while the run is
      running, whatever time is given; the same identity with other content is refused. */
  lemma {:induction false} RetryIsANoOp(j: Journal, w: Writer, q: Request, k: nat)
    requires Sound(j) && k < |j.rows| && j.rows[k].core.event == q.event
    ensures AppendTo(j, w, q) == j
    ensures q.run in j.runs && j.runs[q.run].status == Running && !Barred(w, j.runs[q.run], q.kind) ==>
      Append(j, w, q) == if SameContent(j.rows[k], q) then AlreadyThere(j.rows[k]) else DifferentContent
  {
    FindsExactly(j.rows, k);
  }

  lemma {:induction false} StepOnlyExtends(w: World, step: Step, run: Id)
    requires FinishersSane(w)
    ensures FinishersSane(Next(w, step))
    ensures EventsOf(w.journal.rows, run) <= EventsOf(Next(w, step).journal.rows, run)
    ensures Ended(w.journal, run) ==>
      EventsOf(Next(w, step).journal.rows, run) == EventsOf(w.journal.rows, run) && Ended(Next(w, step).journal, run)
  {
    if step.AppendStep? {
      var answer := Append(w.journal, step.w, step.q);
      if answer.Written? { EventsAfter(w.journal.rows, answer.row, run); }
    }
  }

  predicate Ended(j: Journal, run: Id) {
    run in j.runs && j.runs[run].status != Running
  }

  /** No event is ever lost or rewritten, and a run that has ended stays ended and
      gets no further event. */
  lemma {:induction false} HistoriesOnlyGrow(w: World, steps: seq<Step>, run: Id)
    requires FinishersSane(w)
    ensures FinishersSane(RunSteps(w, steps))
    ensures EventsOf(w.journal.rows, run) <= EventsOf(RunSteps(w, steps).journal.rows, run)
    ensures Ended(w.journal, run) ==>
      && EventsOf(RunSteps(w, steps).journal.rows, run) == EventsOf(w.journal.rows, run)
      && Ended(RunSteps(w, steps).journal, run)
    decreases |steps|
  {
    if steps != [] {
      var n := |steps| - 1;
      HistoriesOnlyGrow(w, steps[..n], run);
      StepOnlyExtends(RunSteps(w, steps[..n]), steps[n], run);
    }
  }

  /** What a finisher reads decides what it does: it proceeds on a running run with what a
      completion needs, is content with the result it would write, and refuses the rest. */
  lemma {:induction false} FinishReadMeans(j: Journal, run: Id, status: Status, artifact: Option<Id>)
    ensures ReadToFinish(j, run, status, artifact) == Proceeds <==>
      && status != Running && run in j.runs && j.runs[run].status == Running && (status == Completed ==> artifact.Some?)
    ensures ReadToFinish(j, run, status, artifact) == SameResult <==>
      status != Running && HasResult(j, run, status, artifact)
    ensures ReadToFinish(j, run, status, artifact) == OtherResult <==>
      status != Running && Ended(j, run) && !HasResult(j, run, status, artifact)
  {
  }

  // ---- the result of a run ----------------------------------------------------------------------

  predicate HasResult(j: Journal, run: Id, status: Status, artifact: Option<Id>) {
    run in j.runs && j.runs[run].status == status && j.runs[run].artifact == artifact
  }

  /** A finisher that read the run as running and is about to write another result. */
  predicate WillOverwrite(w: World, id: nat, run: Id, status: Status, artifact: Option<Id>) {
    id in w.finishers && w.finishers[id].run == run
    && (w.finishers[id].status != status || w.finishers[id].artifact != artifact)
  }

  predicate NobodyOverwrites(w: World, run: Id, status: Status, artifact: Option<Id>) {
    forall id :: id in w.finishers ==> !WillOverwrite(w, id, run, status, artifact)
  }

  /** The result of an ended run changes in one way only: a finisher that read the run
      before it ended writes another result. */
  lemma {:induction false} ResultChangesIff(w: World, step: Step, run: Id, status: Status, artifact: Option<Id>)
    requires HasResult(w.journal, run, status, artifact)
    ensures !HasResult(Next(w, step).journal, run, status, artifact) <==>
      step.EndFinish? && WillOverwrite(w, step.id, run, status, artifact)
  {
  }

  lemma {:induction false} ResultStays(w: World, steps: seq<Step>, run: Id, status: Status, artifact: Option<Id>)
    requires HasResult(w.journal, run, status, artifact) && status != Running && NobodyOverwrites(w, run, status, artifact)
    ensures var w' := RunSteps(w, steps);
      HasResult(w'.journal, run, status, artifact) && NobodyOverwrites(w', run, status, artifact)
    decreases |steps|
  {
    if steps != [] {
      var n := |steps| - 1;
      ResultStays(w, steps[..n], run, status, artifact);
      ResultChangesIff(RunSteps(w, steps[..n]), steps[n], run, status, artifact);
    }
  }

  /** The result of an ended run is final exactly when no finisher that read the run
      before it ended has still to write another one. */
  lemma {:induction false} ResultIsFinalIff(w: World, run: Id, status: Status, artifact: Option<Id>)
    requires HasResult(w.journal, run, status, artifact) && status != Running
    ensures (forall steps :: HasResult(RunSteps(w, steps).journal, run, status, artifact)) <==>
      NobodyOverwrites(w, run, status, artifact)
  {
    if NobodyOverwrites(w, run, status, artifact) {
      forall steps ensures HasResult(RunSteps(w, steps).journal, run, status, artifact) {
        ResultStays(w, steps, run, status, artifact);
      }
    } else {
      var id :| id in w.finishers && WillOverwrite(w, id, run, status, artifact);
      OneStep(w, EndFinish(id));
      assert !HasResult(RunSteps(w, [EndFinish(id)]).journal, run, status, artifact);
    }
  }

  lemma {:induction false} OneStep(w: World, step: Step)
    ensures RunSteps(w, [step]) == Next(w, step)
  {
    assert [step][..0] == [];
  }

  /** Two callers that both read one run as running both end it, and the second
      overwrites the result of the first. */
  lemma {:induction false} TwoFinishersBothEnd(w: World, first: nat, second: nat, run: Id, a: Finisher, b: Finisher)
    requires first != second && first !in w.finishers && second !in w.finishers && a.run == b.run == run
    requires ReadToFinish(w.journal, run, a.status, a.artifact).Proceeds?
    requires ReadToFinish(w.journal, run, b.status, b.artifact).Proceeds?
    ensures var w' := Next(Next(Next(w, BeginFinish(first, run, a.status, a.artifact)),
                                BeginFinish(second, run, b.status, b.artifact)), EndFinish(first));
      && HasResult(w'.journal, run, a.status, a.artifact)
      && HasResult(Next(w', EndFinish(second)).journal, run, b.status, b.artifact)
  {
  }

  /** One such history: completed with an artifact, then failed without one. */
  lemma {:induction false} CompletedThenFailed()
    ensures exists steps ::
      && HasResult(RunSteps(WORLD, steps).journal, 1, Completed, Some(5))
      && HasResult(RunSteps(WORLD, steps + [EndFinish(1)]).journal, 1, Failed, None)
  {
    var steps := [StartStep(1, 2, None, None), BeginFinish(0, 1, Completed, Some(5)), BeginFinish(1, 1, Failed, None), EndFinish(0)];
    var w1 := RunSteps(WORLD, steps[..1]);
    OneStep(WORLD, steps[0]);
    assert steps[..1] == [steps[0]];
    assert steps[..2][..1] == steps[..1] && steps[..3][..2] == steps[..2] && steps[..4][..3] == steps[..3] && steps[..4] == steps;
    assert RunSteps(WORLD, steps[..2]) == Next(w1, steps[1]);
    assert RunSteps(WORLD, steps[..3]) == Next(Next(w1, steps[1]), steps[2]);
    assert RunSteps(WORLD, steps) == Next(Next(Next(w1, steps[1]), steps[2]), steps[3]);
    TwoFinishersBothEnd(w1, 0, 1, 1, Finisher(1, Completed, Some(5)), Finisher(1, Failed, None));
    assert (steps + [EndFinish(1)])[..4] == steps;
  }

  // ---- finishing under the run claim --------------------------------------------------------------

  /** At most one caller is between its read and its write, and its run is running. */
  predicate OneFinisherEach(w: World) {
    && (forall a, b :: a in w.finishers && b in w.finishers && w.finishers[a].run == w.finishers[b].run ==> a == b)
    && (forall a :: a in w.finishers ==> w.finishers[a].run in w.journal.runs && w.journal.runs[w.finishers[a].run].status == Running)
  }

  /** Nobody reads a run to finish it while another caller is about to. */
  predicate UnderClaim(w: World, step: Step) {
    step.BeginFinish? ==> forall id :: id in w.finishers ==> w.finishers[id].run != step.run
  }

  predicate AllUnderClaim(w: World, steps: seq<Step>) {
    forall k {:trigger steps[k]} :: 0 <= k < |steps| ==> UnderClaim(RunSteps(w, steps[..k]), steps[k])
  }

  lemma {:induction false} ClaimKeepsOneFinisher(w: World, step: Step)
    requires OneFinisherEach(w) && UnderClaim(w, step)
    ensures OneFinisherEach(Next(w, step))
  {
  }

  /** When every caller finishes under the claim of its run, a result is final as soon
      as it is there. */
  lemma {:induction false} ClaimedResultsAreFinal(w: World, steps: seq<Step>, run: Id, status: Status, artifact: Option<Id>)
    requires OneFinisherEach(w) && AllUnderClaim(w, steps)
    requires status != Running && HasResult(w.journal, run, status, artifact)
    ensures OneFinisherEach(RunSteps(w, steps)) && HasResult(RunSteps(w, steps).journal, run, status, artifact)
    decreases |steps|
  {
    if steps != [] {
      var n := |steps| - 1;
      forall k | 0 <= k < n ensures UnderClaim(RunSteps(w, steps[..n][..k]), steps[..n][k]) {
        assert steps[..n][..k] == steps[..k] && steps[..n][k] == steps[k];
      }
      ClaimedResultsAreFinal(w, steps[..n], run, status, artifact);
      var before := RunSteps(w, steps[..n]);
      assert UnderClaim(before, steps[n]);
      ClaimKeepsOneFinisher(before, steps[n]);
      ResultChangesIff(before, steps[n], run, status, artifact);
    }
  }

  // ---- the tail hash is the history --------------------------------------------------------------

  predicate HashesRight(events: seq<Row>) {
    forall k :: 0 <= k < |events| ==> events[k].hash == OfEvent(events[k].core)
  }

  lemma {:induction false} EventsKeepHashes(rows: seq<Row>, run: Id)
    requires HashesRight(rows)
    ensures HashesRight(EventsOf(rows, run))
    ensures forall k :: 0 <= k < |EventsOf(rows, run)| ==> EventsOf(rows, run)[k].core.run == run
    decreases |rows|
  {
    if rows != [] { EventsKeepHashes(rows[..|rows| - 1], run); }
  }

  function Cores(events: seq<Row>): seq<EventCore> {
    if events == [] then [] else Cores(events[..|events| - 1]) + [events[|events| - 1].core]
  }

  lemma {:induction false} TailDeterminesChain(a: seq<Row>, b: seq<Row>)
    requires Chained(a) && Chained(b) && HashesRight(a) && HashesRight(b) && Tail(a) == Tail(b)
    ensures Cores(a) == Cores(b)
    decreases |a|
  {
    if a != [] && b != [] {
      var m, n := |a| - 1, |b| - 1;
      assert a[m].core == b[n].core;
      assert forall k :: 0 <= k < m ==> a[..m][..k] == a[..k];
      assert forall k :: 0 <= k < n ==> b[..n][..k] == b[..k];
      TailDeterminesChain(a[..m], b[..n]);
    }
  }

  /** Two runs, of one journal or of two, whose last event hashes agree have had the
      same events: the same ones, in the same order, at the same times. */
  lemma {:induction false} EqualTailsEqualHistories(a: Journal, b: Journal, r: Id, s: Id)
    requires Sound(a) && Sound(b)
    requires EventsOf(a.rows, r) != [] && EventsOf(b.rows, s) != []
    requires Tail(EventsOf(a.rows, r)) == Tail(EventsOf(b.rows, s))
    ensures r == s && Cores(EventsOf(a.rows, r)) == Cores(EventsOf(b.rows, s))
  {
    EventsKeepHashes(a.rows, r);
    EventsKeepHashes(b.rows, s);
    TailDeterminesChain(EventsOf(a.rows, r), EventsOf(b.rows, s));
  }
}
