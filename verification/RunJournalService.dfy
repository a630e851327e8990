/** The journal as an object: the two append transactions, the end of a run, and the
    reader that walks a run's chain. */
module RunJournalService {
  import opened Base
  import opened RunJournal

  class JournalStore {
    var runs: map<Id, Run>
    var rows: seq<Row>

    constructor ()
      ensures View() == EMPTY && Sound(View())
    {
      runs, rows := map[], [];
      new;
      EveryJournalIsSound([]);
    }

    function View(): Journal
      reads this
    {
      Journal(runs, rows)
    }

    method StartRun(run: Id, config: Id, authority: Option<Id>, plan: Option<Id>) returns (started: Started)
      modifies this`runs
      ensures started == Start(old(View()), run, config, authority, plan)
      ensures View() == StartIn(old(View()), run, config, authority, plan)
    {
      if plan.Some? && authority.None? { return NotEligible; }
      if run in runs {
        var record := runs[run];
        if record.config != config { return OtherConfiguration; }
        if record.authority != authority || record.plan != plan { return OtherAuthority; }
        return Resumed;
      }
      runs := runs[run := Run(Running, config, authority, plan, None)];
      started := Begun;
    }

    method AppendEvent(w: Writer, q: Request) returns (answer: Appended)
      modifies this`rows
      ensures answer == Append(old(View()), w, q)
      ensures View() == AppendTo(old(View()), w, q)
    {
      if q.run !in runs { return UnknownRun; }
      if w.Plain? && (runs[q.run].plan.Some? || q.kind in w.refusesKinds) { return SignerRequired; }
      if runs[q.run].status != Running { return TerminalRun; }
      var existing := FindEvent(rows, q.event);
      if existing.Some? {
        var row := existing.value;
        if row.core.run != q.run || row.core.kind != q.kind || row.core.payload != q.payload {
          return DifferentContent;
        }
        return AlreadyThere(row);
      }
      var previous := Tail(EventsOf(rows, q.run));
      var core := EventCore(q.run, q.event, q.kind, q.observedAt, q.payload, previous);
      var row := Row(NextSequence(rows), core, OfEvent(core));
      rows := rows + [row];
      answer := Written(row);
    }

    /** The UPDATE that ends a run, whatever happened since the read. */
    method UpdateResult(run: Id, status: Status, artifact: Option<Id>)
      modifies this`runs
      ensures View() == WriteResult(old(View()), run, status, artifact)
    {
      if run in runs { runs := runs[run := runs[run].(status := status, artifact := artifact)]; }
    }

    /** The read and the UPDATE with nothing in between. */
    method FinishRun(run: Id, status: Status, artifact: Option<Id>) returns (finished: Finished)
      modifies this`runs
      ensures finished == ReadToFinish(old(View()), run, status, artifact)
      ensures View() == if finished.Proceeds? then WriteResult(old(View()), run, status, artifact) else old(View())
    {
      if status == Running { return NotTerminal; }
      if run !in runs { return NoSuchRun; }
      var current := runs[run];
      if current.status != Running {
        return if current.status == status && current.artifact == artifact then SameResult else OtherResult;
      }
      if status == Completed && artifact.None? { return ArtifactRequired; }
      UpdateResult(run, status, artifact);
      finished := Proceeds;
    }

    /** Reading a run checks its chain event by event, and on every reachable journal
        the check passes. */
    method Events(run: Id) returns (events: Option<seq<Row>>)
      ensures run !in runs ==> events == None
      ensures run in runs && Sound(View()) ==> events == Some(EventsOf(rows, run))
      ensures events.Some? ==> Chained(events.value) && HashesRight(events.value)
    {
      if run !in runs { return None; }
      var found := EventsOf(rows, run);
      ghost var sound := Sound(View());
      if sound {
        assert Chained(EventsOf(View().rows, run));
        EventsKeepHashes(rows, run);
      }
      var previous: Option<Digest> := None;
      for i := 0 to |found|
        invariant previous == Tail(found[..i])
        invariant Chained(found[..i]) && HashesRight(found[..i])
      {
        if found[i].hash != OfEvent(found[i].core) { return None; }
        if found[i].core.previous != previous { return None; }
        ChainExtends(found[..i], found[i]);
        TakeNext(found, i);
        previous := Some(found[i].hash);
      }
      TakeAll(found);
      events := Some(found);
    }
  }
}
