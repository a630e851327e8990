/** What any number of interrupted traversals leaves in the journal: the log of one
    uninterrupted run that is given the same decisions. */
module CoordinatorRuns {
  import opened Base
  import opened Coordinator

  // ---- the sessions behind a journal -----------------------------------------------------

  /** What the journal holds about one session. */
  datatype Rec = Rec(started: bool, decision: Option<Decision>, account: Option<Id>)

  function Write(j: seq<Event>, i: nat, r: Rec): seq<Event> {
    var j1 := if r.started then j + [Started(i)] else j;
    var j2 := if r.decision.Some? then j1 + [Completed(i, r.decision.value)] else j1;
    if r.account.Some? then j2 + [Account(i, r.account.value)] else j2
  }

  function Flat(recs: seq<Rec>): seq<Event> {
    if recs == [] then [] else Write(Flat(recs[..|recs| - 1]), |recs| - 1, recs[|recs| - 1])
  }

  /** The loop state that settled sessions leave. */
  function StateAfter(c: Config, recs: seq<Rec>): Live
    requires |recs| <= |c.frames|
  {
    if recs == [] then FRESH
    else
      var s, last := StateAfter(c, recs[..|recs| - 1]), recs[|recs| - 1];
      if last.decision.Some? then Reviewed(c, s, |recs| - 1, last.decision.value) else s
  }

  predicate SharedAt(c: Config, i: nat) {
    i == 0 && c.sharedInitial.Some?
  }

  predicate RecOk(c: Config, s: Live, i: nat, r: Rec)
    requires i < |c.frames|
  {
    && !c.frames[i].gaps
    && (r.decision.Some? ==> Acceptable(c, i, r.decision.value))
    && if !ReviewDue(c, s, i) then !r.started && r.decision.None? && r.account.Some?
       else if SharedAt(c, i) then !r.started && r.decision == c.sharedInitial
       else r.started && (r.account.Some? ==> r.decision.Some?)
  }

  predicate Settled(recs: seq<Rec>) {
    recs != [] ==> recs[|recs| - 1].account.Some?
  }

  predicate WellFormed(c: Config, recs: seq<Rec>) {
    |recs| <= |c.frames| &&
    (recs != [] ==>
       var front := recs[..|recs| - 1];
       WellFormed(c, front) && Settled(front) && RecOk(c, StateAfter(c, front), |recs| - 1, recs[|recs| - 1]))
  }

  /** Decision callbacks are made only after their start is durable and before any
      completion, and a session is decided afresh at most once ever. */
  predicate CallsOk(d: Disk) {
    && (forall k :: 0 <= k < |d.calls| ==>
          && d.calls[k].at <= |d.journal|
          && FindStarted(d.journal[..d.calls[k].at], d.calls[k].i)
          && FindCompleted(d.journal[..d.calls[k].at], d.calls[k].i).None?)
    && (forall a, b :: 0 <= a < b < |d.calls| && d.calls[a].i == d.calls[b].i ==> d.calls[b].resumed)
  }

  predicate Represents(c: Config, d: Disk, recs: seq<Rec>) {
    WellFormed(c, recs) && d.journal == Flat(recs) && CallsOk(d)
  }

  // ---- lookups ----------------------------------------------------------------------------

  lemma {:induction false} AppendFinds(j: seq<Event>, e: Event, i: nat)
    ensures FindStarted(j + [e], i) <==> FindStarted(j, i) || e == Started(i)
    ensures FindCompleted(j + [e], i) == if e.Completed? && e.i == i then Some(e.decision) else FindCompleted(j, i)
    ensures FindAccount(j + [e], i) == if e.Account? && e.i == i then Some(e.result) else FindAccount(j, i)
  {
    var j' := j + [e];
    assert j'[..|j|] == j && j'[|j|] == e;
    if FindStarted(j, i) {
      var k :| 0 <= k < |j| && j[k] == Started(i);
      assert j'[k] == Started(i);
    }
  }

  lemma {:induction false} WriteFinds(j: seq<Event>, n: nat, r: Rec, i: nat)
    ensures FindStarted(Write(j, n, r), i) <==> FindStarted(j, i) || (i == n && r.started)
    ensures FindCompleted(Write(j, n, r), i) == if i == n && r.decision.Some? then r.decision else FindCompleted(j, i)
    ensures FindAccount(Write(j, n, r), i) == if i == n && r.account.Some? then r.account else FindAccount(j, i)
  {
    var j1 := if r.started then j + [Started(n)] else j;
    var j2 := if r.decision.Some? then j1 + [Completed(n, r.decision.value)] else j1;
    AppendFinds(j, Started(n), i);
    if r.decision.Some? { AppendFinds(j1, Completed(n, r.decision.value), i); }
    if r.account.Some? { AppendFinds(j2, Account(n, r.account.value), i); }
  }

  /** Looking an event up in the journal answers what the session recorded. */
  lemma {:induction false} FlatFinds(recs: seq<Rec>, i: nat)
    ensures FindStarted(Flat(recs), i) <==> i < |recs| && recs[i].started
    ensures FindCompleted(Flat(recs), i) == if i < |recs| then recs[i].decision else None
    ensures FindAccount(Flat(recs), i) == if i < |recs| then recs[i].account else None
  {
    if recs != [] {
      FlatFinds(recs[..|recs| - 1], i);
      WriteFinds(Flat(recs[..|recs| - 1]), |recs| - 1, recs[|recs| - 1], i);
    }
  }

  lemma {:induction false} FrontOk(c: Config, recs: seq<Rec>, k: nat)
    requires WellFormed(c, recs) && k <= |recs|
    ensures WellFormed(c, recs[..k]) && (k < |recs| ==> Settled(recs[..k]) && RecOk(c, StateAfter(c, recs[..k]), k, recs[k]))
    decreases |recs|
  {
    if k == |recs| {
      assert recs[..k] == recs;
    } else {
      var front := recs[..|recs| - 1];
      assert front[..k] == recs[..k];
      if k < |front| { FrontOk(c, front, k); } else { assert front[..k] == front; }
    }
  }

  // ---- one session extends the records -----------------------------------------------------

  /** `recs` with the record of session `i`, its last or its next, replaced. */
  function Put(recs: seq<Rec>, i: nat, r: Rec): seq<Rec>
    requires |recs| <= i + 1 && i <= |recs|
  {
    recs[..i] + [r]
  }

  lemma {:induction false} PutOk(c: Config, recs: seq<Rec>, i: nat, r: Rec)
    requires WellFormed(c, recs) && |recs| <= i + 1 && i <= |recs| && i < |c.frames|
    requires Settled(recs[..i]) && RecOk(c, StateAfter(c, recs[..i]), i, r)
    ensures WellFormed(c, Put(recs, i, r)) && Flat(Put(recs, i, r)) == Write(Flat(recs[..i]), i, r)
    ensures Put(recs, i, r)[..i] == recs[..i] && Put(recs, i, r)[i] == r
  {
    var recs' := Put(recs, i, r);
    assert recs'[..|recs'| - 1] == recs[..i];
    FrontOk(c, recs, i);
  }

  lemma {:induction false} CallsSurvive(d: Disk, j: seq<Event>)
    requires CallsOk(d) && d.journal <= j
    ensures CallsOk(d.(journal := j))
  {
    forall k | 0 <= k < |d.calls| ensures j[..d.calls[k].at] == d.journal[..d.calls[k].at] {
    }
  }

  lemma {:induction false} CallAppended(d: Disk, call: Call)
    requires CallsOk(d) && call.at == |d.journal|
    requires FindStarted(d.journal, call.i) && FindCompleted(d.journal, call.i).None?
    requires !call.resumed ==> forall k :: 0 <= k < |d.calls| ==> d.calls[k].i != call.i
    ensures CallsOk(d.(calls := d.calls + [call]))
  {
    assert d.journal[..call.at] == d.journal;
  }

  lemma {:induction false} NoCallBeforeStart(d: Disk, i: nat)
    requires CallsOk(d) && !FindStarted(d.journal, i)
    ensures forall k :: 0 <= k < |d.calls| ==> d.calls[k].i != i
  {
    forall k | 0 <= k < |d.calls| ensures d.calls[k].i != i {
      assert forall m :: 0 <= m < d.calls[k].at ==> d.journal[..d.calls[k].at][m] == d.journal[m];
    }
  }

  /** A session that is not settled is the last one of the journal. */
  lemma {:induction false} UnsettledIsLast(c: Config, recs: seq<Rec>, i: nat)
    requires WellFormed(c, recs) && i < |recs| && recs[i].account.None?
    ensures |recs| == i + 1
  {
    if |recs| > i + 1 {
      FrontOk(c, recs, i + 1);
    }
  }

  /** Replacing the record of the session at the frontier keeps the representation. */
  lemma {:induction false} PutRepresents(c: Config, d: Disk, recs: seq<Rec>, i: nat, r: Rec, j: seq<Event>)
    requires Represents(c, d, recs) && |recs| <= i + 1 && i <= |recs| && i < |c.frames|
    requires Settled(recs[..i]) && RecOk(c, StateAfter(c, recs[..i]), i, r)
    requires d.journal <= j && j == Write(Flat(recs[..i]), i, r)
    ensures Represents(c, d.(journal := j), Put(recs, i, r))
    ensures Put(recs, i, r)[..i] == recs[..i] && Put(recs, i, r)[i] == r && |Put(recs, i, r)| == i + 1
  {
    PutOk(c, recs, i, r);
    CallsSurvive(d, j);
  }

  lemma {:induction false} FlatAtFrontier(recs: seq<Rec>, i: nat)
    requires |recs| <= i + 1 && i <= |recs|
    ensures Flat(recs) == Write(Flat(recs[..i]), i, if i < |recs| then recs[i] else Rec(false, None, None))
  {
    if i < |recs| {
      assert recs[..|recs| - 1] == recs[..i];
    } else {
      assert recs[..i] == recs;
    }
  }

  /** What one step may do to the records when it works on session `i`. */
  predicate Grown(recs: seq<Rec>, recs': seq<Rec>, i: nat)
    requires i <= |recs|
  {
    && i <= |recs'| && recs'[..i] == recs[..i] && |recs| <= |recs'|
    && (i < |recs'| && recs'[i].account.Some? ==> recs' == recs)
  }

  lemma {:induction false} CompleteExtends(c: Config, d: Disk, recs: seq<Rec>, i: nat, decision: Decision, fuel: nat) returns (recs': seq<Rec>)
    requires Represents(c, d, recs) && i <= |recs| && i < |c.frames| && Settled(recs[..i]) && |recs| <= i + 1
    requires !c.frames[i].gaps && ReviewDue(c, StateAfter(c, recs[..i]), i)
    requires if SharedAt(c, i) then |recs| == i && decision == c.sharedInitial.value
             else |recs| == i + 1 && recs[i] == Rec(true, None, None)
    ensures var (d', _, got) := Complete(c, d, i, decision, fuel);
      && Represents(c, d', recs') && Grown(recs, recs', i)
      && (got.GotDecision? ==> i < |recs'| && recs'[i].decision == Some(got.decision))
  {
    recs' := recs;
    if Checked(c, i, decision).GotDecision? && fuel > 0 {
      FlatAtFrontier(recs, i);
      var r := Rec(!SharedAt(c, i), Some(decision), None);
      PutRepresents(c, d, recs, i, r, d.journal + [Completed(i, decision)]);
      recs' := Put(recs, i, r);
    }
  }

  lemma {:induction false} StartExtends(c: Config, d: Disk, recs: seq<Rec>, i: nat) returns (recs': seq<Rec>)
    requires Represents(c, d, recs) && i <= |recs| && i < |c.frames| && Settled(recs[..i])
    requires !c.frames[i].gaps && ReviewDue(c, StateAfter(c, recs[..i]), i) && !SharedAt(c, i)
    requires FindCompleted(d.journal, i).None?
    ensures var resumed := FindStarted(d.journal, i);
      var d1 := if resumed then d else d.(journal := d.journal + [Started(i)]);
      var d2 := d1.(calls := d1.calls + [Call(i, resumed, |d1.journal|)]);
      && Represents(c, d1, recs') && Represents(c, d2, recs') && Grown(recs, recs', i)
      && |recs'| == i + 1 && recs'[i] == Rec(true, None, None)
  {
    FlatFinds(recs, i);
    recs' := recs;
    if i < |recs| { FrontOk(c, recs, i); UnsettledIsLast(c, recs, i); }
    var resumed := FindStarted(d.journal, i);
    var d1 := if resumed then d else d.(journal := d.journal + [Started(i)]);
    if !resumed {
      FlatAtFrontier(recs, i);
      var r := Rec(true, None, None);
      PutRepresents(c, d, recs, i, r, d1.journal);
      recs' := Put(recs, i, r);
      NoCallBeforeStart(d, i);
    }
    FlatFinds(recs', i);
    CallAppended(d1, Call(i, resumed, |d1.journal|));
  }

  /** The review part of a session that is due one and has none durable yet. */
  lemma {:induction false} NewReviewExtends(c: Config, d: Disk, recs: seq<Rec>, i: nat, env: Env, fuel: nat) returns (recs': seq<Rec>)
    requires Represents(c, d, recs) && i <= |recs| && i < |c.frames| && Settled(recs[..i])
    requires !c.frames[i].gaps && ReviewDue(c, StateAfter(c, recs[..i]), i)
    requires FindCompleted(d.journal, i).None? && !SharedAt(c, i)
    ensures var (d', _, got) := Review(c, d, i, env, fuel);
      && Represents(c, d', recs') && Grown(recs, recs', i)
      && (got.GotDecision? ==> i < |recs'| && recs'[i].decision == Some(got.decision))
  {
    recs' := recs;
    var resumed := FindStarted(d.journal, i);
    if !resumed && fuel == 0 {
      NotSettledYet(c, d, recs, i);
      return;
    }
    recs' := StartExtends(c, d, recs, i);
    var d1 := if resumed then d else d.(journal := d.journal + [Started(i)]);
    var fuel1 := if resumed then fuel else fuel - 1;
    if fuel1 == 0 { return; }
    var d2 := d1.(calls := d1.calls + [Call(i, resumed, |d1.journal|)]);
    var answer := env.decide(i, resumed);
    if answer.Pending? { return; }
    recs' := CompleteExtends(c, d2, recs', i, answer.decision, fuel1 - 1);
  }

  lemma {:induction false} NotSettledYet(c: Config, d: Disk, recs: seq<Rec>, i: nat)
    requires Represents(c, d, recs) && i <= |recs| && i < |c.frames|
    requires !c.frames[i].gaps && ReviewDue(c, StateAfter(c, recs[..i]), i)
    requires FindCompleted(d.journal, i).None?
    ensures i < |recs| ==> recs[i].account.None? && recs[i].decision.None? && |recs| == i + 1
  {
    FlatFinds(recs, i);
    if i < |recs| { FrontOk(c, recs, i); UnsettledIsLast(c, recs, i); }
  }

  /** The review part of a session that is due one. */
  lemma {:induction false} ReviewExtends(c: Config, d: Disk, recs: seq<Rec>, i: nat, env: Env, fuel: nat) returns (recs': seq<Rec>)
    requires Represents(c, d, recs) && i <= |recs| && i < |c.frames| && Settled(recs[..i])
    requires !c.frames[i].gaps && ReviewDue(c, StateAfter(c, recs[..i]), i)
    ensures var (d', _, got) := Review(c, d, i, env, fuel);
      && Represents(c, d', recs') && Grown(recs, recs', i)
      && (got.GotDecision? ==> i < |recs'| && recs'[i].decision == Some(got.decision))
  {
    if FindCompleted(d.journal, i).Some? {
      FlatFinds(recs, i);
      recs' := recs;
    } else if SharedAt(c, i) {
      NotSettledYet(c, d, recs, i);
      if i < |recs| { FrontOk(c, recs, i); }
      recs' := CompleteExtends(c, d, recs, i, c.sharedInitial.value, fuel);
    } else {
      recs' := NewReviewExtends(c, d, recs, i, env, fuel);
    }
  }

  /** The account part of a session whose review, if any, is durable. */
  lemma {:induction false} SettleExtends(c: Config, d: Disk, recs: seq<Rec>, i: nat, env: Env, fuel: nat) returns (recs': seq<Rec>)
    requires Represents(c, d, recs) && i <= |recs| && i < |c.frames| && Settled(recs[..i]) && !c.frames[i].gaps
    requires ReviewDue(c, StateAfter(c, recs[..i]), i) ==> i < |recs| && recs[i].decision.Some?
    ensures var (d', _, halted) := Settle(d, i, env, fuel);
      && Represents(c, d', recs') && i <= |recs'| && recs'[..i] == recs[..i]
      && (halted.None? ==>
            && i < |recs'| && recs'[i].account.Some?
            && recs'[i].decision == if i < |recs| then recs[i].decision else None)
  {
    FlatFinds(recs, i);
    recs' := recs;
    if (i < |recs| && recs[i].account.Some?) || fuel <= 1 { return; }
    if i < |recs| { FrontOk(c, recs, i); UnsettledIsLast(c, recs, i); }
    var was := if i < |recs| then recs[i] else Rec(false, None, None);
    var r := was.(account := Some(env.account(i)));
    FlatAtFrontier(recs, i);
    PutRepresents(c, d, recs, i, r, d.journal + [Account(i, env.account(i))]);
    recs' := Put(recs, i, r);
  }

  lemma {:induction false} StateStep(c: Config, recs: seq<Rec>, i: nat)
    requires i < |recs| <= |c.frames|
    ensures StateAfter(c, recs[..i + 1]) ==
      if recs[i].decision.Some? then Reviewed(c, StateAfter(c, recs[..i]), i, recs[i].decision.value)
      else StateAfter(c, recs[..i])
    ensures Settled(recs[..i + 1]) <==> recs[i].account.Some?
  {
    var front := recs[..i + 1];
    assert front[..|front| - 1] == recs[..i] && front[i] == recs[i];
  }

  lemma {:induction false} SessionExtends(c: Config, d: Disk, recs: seq<Rec>, i: nat, env: Env, fuel: nat) returns (recs': seq<Rec>)
    requires Represents(c, d, recs) && i <= |recs| && i < |c.frames| && Settled(recs[..i])
    ensures var (d', _, outcome) := Session(c, d, StateAfter(c, recs[..i]), i, env, fuel);
      && Represents(c, d', recs') && i <= |recs'| && recs'[..i] == recs[..i]
      && (outcome.NextSession? ==>
            i < |recs'| && Settled(recs'[..i + 1]) && outcome.live == StateAfter(c, recs'[..i + 1]))
  {
    var s := StateAfter(c, recs[..i]);
    recs' := recs;
    if c.frames[i].gaps { return; }
    if ReviewDue(c, s, i) {
      recs' := ReviewExtends(c, d, recs, i, env, fuel);
      var (d1, fuel1, got) := Review(c, d, i, env, fuel);
      if got.Halt? { return; }
      recs' := SettleExtends(c, d1, recs', i, env, fuel1);
    } else {
      if i < |recs| { FrontOk(c, recs, i); }
      recs' := SettleExtends(c, d, recs, i, env, fuel);
    }
    if i < |recs'| { StateStep(c, recs', i); }
  }

  lemma {:induction false} TraversalExtends(c: Config, d: Disk, recs: seq<Rec>, i: nat, stop: nat, env: Env, fuel: nat)
    returns (recs': seq<Rec>)
    requires Represents(c, d, recs) && i <= |recs| && i <= stop <= |c.frames| && Settled(recs[..i])
    ensures var (d', report) := Traverse(c, d, StateAfter(c, recs[..i]), i, stop, env, fuel);
      && Represents(c, d', recs')
      && (report.Frontier? ==> report.completed == stop && stop <= |recs'| && Settled(recs'[..stop]))
    decreases stop - i
  {
    recs' := recs;
    if i < stop {
      recs' := SessionExtends(c, d, recs, i, env, fuel);
      var (d', fuel', outcome) := Session(c, d, StateAfter(c, recs[..i]), i, env, fuel);
      if outcome.NextSession? {
        recs' := TraversalExtends(c, d', recs', i + 1, stop, env, fuel');
      }
    }
  }

  // ---- any number of attempts ----------------------------------------------------------------

  datatype Attempt = Attempt(stop: nat, env: Env, fuel: nat)

  const BLANK := Disk([], [])

  function Attempts(c: Config, d: Disk, attempts: seq<Attempt>): Disk
    decreases |attempts|
  {
    if attempts == [] then d
    else
      var a := attempts[0];
      Attempts(c, if a.stop <= |c.frames| then Traverse(c, d, FRESH, 0, a.stop, a.env, a.fuel).0 else d, attempts[1..])
  }

  lemma {:induction false} AttemptsStayRepresented(c: Config, d: Disk, recs: seq<Rec>, attempts: seq<Attempt>)
    returns (recs': seq<Rec>)
    requires Represents(c, d, recs)
    ensures Represents(c, Attempts(c, d, attempts), recs')
    decreases |attempts|
  {
    recs' := recs;
    if attempts != [] {
      var a := attempts[0];
      var d' := d;
      if a.stop <= |c.frames| {
        assert recs[..0] == [];
        recs' := TraversalExtends(c, d, recs, 0, a.stop, a.env, a.fuel);
        d' := Traverse(c, d, FRESH, 0, a.stop, a.env, a.fuel).0;
      }
      recs' := AttemptsStayRepresented(c, d', recs', attempts[1..]);
    }
  }

  // ---- the loop state is in the journal ----------------------------------------------------------

  const NOTHING := Rec(false, None, None)

  function RecAt(j: seq<Event>, i: nat): Rec {
    Rec(FindStarted(j, i), FindCompleted(j, i), FindAccount(j, i))
  }

  function RecordsFrom(j: seq<Event>, i: nat, n: nat): seq<Rec>
    requires i <= n
    decreases n - i
  {
    if i == n || RecAt(j, i) == NOTHING then [] else [RecAt(j, i)] + RecordsFrom(j, i + 1, n)
  }

  /** What a journal holds, session by session, up to the first without any event. */
  function RecordsOf(c: Config, j: seq<Event>): seq<Rec> {
    RecordsFrom(j, 0, |c.frames|)
  }

  lemma {:induction false} RecordsReadBack(c: Config, recs: seq<Rec>, i: nat)
    requires WellFormed(c, recs) && i <= |recs|
    ensures RecordsFrom(Flat(recs), i, |c.frames|) == recs[i..]
    decreases |recs| - i
  {
    FlatFinds(recs, i);
    if i < |recs| {
      FrontOk(c, recs, i);
      RecordsReadBack(c, recs, i + 1);
    }
  }

  /** A journal has one reading: the records of a represented journal are those that
      its events say, so two readings of one journal are the same. */
  lemma {:induction false} JournalDeterminesRecords(c: Config, recs: seq<Rec>)
    requires WellFormed(c, recs)
    ensures RecordsOf(c, Flat(recs)) == recs
  {
    RecordsReadBack(c, recs, 0);
  }

  lemma {:induction false} RecordsAreUnique(c: Config, a: seq<Rec>, b: seq<Rec>)
    requires WellFormed(c, a) && WellFormed(c, b) && Flat(a) == Flat(b)
    ensures a == b
  {
    JournalDeterminesRecords(c, a);
    JournalDeterminesRecords(c, b);
  }

  /** The disk and the live state with which a traversal comes to session `stop`, if it does. */
  function Reached(c: Config, d: Disk, s: Live, i: nat, stop: nat, env: Env, fuel: nat): Option<(Disk, Live)>
    requires i <= stop <= |c.frames|
    decreases stop - i
  {
    if i == stop then Some((d, s))
    else
      var (d', fuel', outcome) := Session(c, d, s, i, env, fuel);
      if outcome.Stopped? then None else Reached(c, d', outcome.live, i + 1, stop, env, fuel')
  }

  lemma {:induction false} ReachedIsRecorded(c: Config, d: Disk, recs: seq<Rec>, i: nat, stop: nat, env: Env, fuel: nat)
    returns (recs': seq<Rec>)
    requires Represents(c, d, recs) && i <= |recs| && i <= stop <= |c.frames| && Settled(recs[..i])
    requires Reached(c, d, StateAfter(c, recs[..i]), i, stop, env, fuel).Some?
    ensures var (d', live) := Reached(c, d, StateAfter(c, recs[..i]), i, stop, env, fuel).value;
      && d' == Traverse(c, d, StateAfter(c, recs[..i]), i, stop, env, fuel).0
      && Represents(c, d', recs') && stop <= |recs'| && live == StateAfter(c, recs'[..stop])
    decreases stop - i
  {
    recs' := recs;
    if i < stop {
      recs' := SessionExtends(c, d, recs, i, env, fuel);
      var (d', fuel', outcome) := Session(c, d, StateAfter(c, recs[..i]), i, env, fuel);
      recs' := ReachedIsRecorded(c, d', recs', i + 1, stop, env, fuel');
    }
  }

  /** After any stops, crashes and pending answers, the live state with which a further
      traversal comes to a session is a function of the frames and its journal. */
  lemma {:induction false} LiveStateIsInTheJournal(c: Config, attempts: seq<Attempt>, stop: nat, env: Env, fuel: nat)
    requires stop <= |c.frames|
    requires Reached(c, Attempts(c, BLANK, attempts), FRESH, 0, stop, env, fuel).Some?
    ensures var (d', live) := Reached(c, Attempts(c, BLANK, attempts), FRESH, 0, stop, env, fuel).value;
      var recs := RecordsOf(c, d'.journal);
      WellFormed(c, recs) && Flat(recs) == d'.journal && stop <= |recs| && live == StateAfter(c, recs[..stop])
  {
    var d := Attempts(c, BLANK, attempts);
    var recs := AttemptsStayRepresented(c, BLANK, [], attempts);
    assert recs[..0] == [];
    recs := ReachedIsRecorded(c, d, recs, 0, stop, env, fuel);
    JournalDeterminesRecords(c, recs);
  }

  /** A traversal comes past a session only if its account replays to the frozen result:
      every result before it is the one the outside gives now. */
  lemma {:induction false} ReachedAccountsAgree(c: Config, d: Disk, s: Live, i: nat, stop: nat, env: Env, fuel: nat, k: nat)
    requires i <= k < stop <= |c.frames| && Reached(c, d, s, i, stop, env, fuel).Some?
    ensures FindAccount(Reached(c, d, s, i, stop, env, fuel).value.0.journal, k) == Some(env.account(k))
    decreases stop - i
  {
    var (d', fuel', outcome) := Session(c, d, s, i, env, fuel);
    if k == i {
      SessionSettlesAs(c, d, s, i, env, fuel);
      ReachedKeepsAccount(c, d', outcome.live, i + 1, stop, env, fuel', i);
    } else {
      ReachedAccountsAgree(c, d', outcome.live, i + 1, stop, env, fuel', k);
    }
  }

  lemma {:induction false} SettlesAs(d: Disk, i: nat, env: Env, fuel: nat)
    requires Settle(d, i, env, fuel).2.None?
    ensures FindAccount(Settle(d, i, env, fuel).0.journal, i) == Some(env.account(i))
  {
    AppendFinds(d.journal, Account(i, env.account(i)), i);
  }

  lemma {:induction false} SessionSettlesAs(c: Config, d: Disk, s: Live, i: nat, env: Env, fuel: nat)
    requires i < |c.frames| && Session(c, d, s, i, env, fuel).2.NextSession?
    ensures FindAccount(Session(c, d, s, i, env, fuel).0.journal, i) == Some(env.account(i))
  {
    if ReviewDue(c, s, i) {
      var (d1, fuel1, got) := Review(c, d, i, env, fuel);
      SettlesAs(d1, i, env, fuel1);
    } else {
      SettlesAs(d, i, env, fuel);
    }
  }

  lemma {:induction false} ReviewKeepsAccount(c: Config, d: Disk, i: nat, env: Env, fuel: nat, k: nat)
    requires i < |c.frames|
    ensures FindAccount(Review(c, d, i, env, fuel).0.journal, k) == FindAccount(d.journal, k)
  {
    AppendFinds(d.journal, Started(i), k);
    var started := d.journal + [Started(i)];
    forall decision { AppendFinds(d.journal, Completed(i, decision), k); }
    forall decision { AppendFinds(started, Completed(i, decision), k); }
  }

  lemma {:induction false} SessionKeepsAccount(c: Config, d: Disk, s: Live, i: nat, env: Env, fuel: nat, k: nat)
    requires i < |c.frames| && k != i
    ensures FindAccount(Session(c, d, s, i, env, fuel).0.journal, k) == FindAccount(d.journal, k)
  {
    if ReviewDue(c, s, i) {
      ReviewKeepsAccount(c, d, i, env, fuel, k);
      var (d1, fuel1, got) := Review(c, d, i, env, fuel);
      SettleKeepsAccount(d1, i, env, fuel1, k);
    } else {
      SettleKeepsAccount(d, i, env, fuel, k);
    }
  }

  lemma {:induction false} SettleKeepsAccount(d: Disk, i: nat, env: Env, fuel: nat, k: nat)
    requires k != i
    ensures FindAccount(Settle(d, i, env, fuel).0.journal, k) == FindAccount(d.journal, k)
  {
    AppendFinds(d.journal, Account(i, env.account(i)), k);
  }

  lemma {:induction false} ReachedKeepsAccount(c: Config, d: Disk, s: Live, i: nat, stop: nat, env: Env, fuel: nat, k: nat)
    requires k < i <= stop <= |c.frames| && Reached(c, d, s, i, stop, env, fuel).Some?
    ensures FindAccount(Reached(c, d, s, i, stop, env, fuel).value.0.journal, k) == FindAccount(d.journal, k)
    decreases stop - i
  {
    if i < stop {
      SessionKeepsAccount(c, d, s, i, env, fuel, k);
      var (d', fuel', outcome) := Session(c, d, s, i, env, fuel);
      ReachedKeepsAccount(c, d', outcome.live, i + 1, stop, env, fuel', k);
    }
  }

  // ---- the uninterrupted run -------------------------------------------------------------------

  /** An outside that gives, for every session the journal has settled or decided,
      the answer the journal holds. */
  ghost predicate SameAnswers(env: Env, j: seq<Event>) {
    && (forall i, resumed :: FindCompleted(j, i).Some? ==> env.decide(i, resumed) == Decided(FindCompleted(j, i).value))
    && (forall i :: FindAccount(j, i).Some? ==> env.account(i) == FindAccount(j, i).value)
  }

  /** No session needs more than five actions. */
  function Ample(c: Config): nat {
    5 * |c.frames|
  }

  lemma {:induction false} ReviewGrows(c: Config, d: Disk, i: nat, env: Env, fuel: nat)
    requires i < |c.frames|
    ensures d.journal <= Review(c, d, i, env, fuel).0.journal
  {
  }

  lemma {:induction false} SettleGrows(d: Disk, i: nat, env: Env, fuel: nat)
    ensures d.journal <= Settle(d, i, env, fuel).0.journal
  {
  }

  lemma {:induction false} SessionGrows(c: Config, d: Disk, s: Live, i: nat, env: Env, fuel: nat)
    requires i < |c.frames|
    ensures d.journal <= Session(c, d, s, i, env, fuel).0.journal
  {
    SettleGrows(d, i, env, fuel);
    ReviewGrows(c, d, i, env, fuel);
    var (d1, fuel1, got) := Review(c, d, i, env, fuel);
    SettleGrows(d1, i, env, fuel1);
  }

  lemma {:induction false} TraverseGrows(c: Config, d: Disk, s: Live, i: nat, stop: nat, env: Env, fuel: nat)
    requires i <= stop <= |c.frames|
    ensures d.journal <= Traverse(c, d, s, i, stop, env, fuel).0.journal
    decreases stop - i
  {
    if i < stop {
      SessionGrows(c, d, s, i, env, fuel);
      var (d', fuel', outcome) := Session(c, d, s, i, env, fuel);
      if outcome.NextSession? { TraverseGrows(c, d', outcome.live, i + 1, stop, env, fuel'); }
    }
  }

  /** Nothing is recorded yet about the session after the recorded ones. */
  lemma {:induction false} NothingRecorded(recs: seq<Rec>, i: nat)
    requires i <= |recs|
    ensures var j := Flat(recs[..i]); !FindStarted(j, i) && FindCompleted(j, i).None? && FindAccount(j, i).None?
  {
    FlatFinds(recs[..i], i);
  }

  predicate Unrecorded(j: seq<Event>, i: nat) {
    !FindStarted(j, i) && FindCompleted(j, i).None? && FindAccount(j, i).None?
  }

  predicate AnswersAlike(c: Config, env: Env, i: nat, r: Rec) {
    && (r.decision.Some? && !SharedAt(c, i) ==> env.decide(i, false) == Decided(r.decision.value))
    && (r.account.Some? ==> env.account(i) == r.account.value)
  }

  function NextState(c: Config, s: Live, i: nat, r: Rec): Live
    requires i < |c.frames|
  {
    if r.decision.Some? then Reviewed(c, s, i, r.decision.value) else s
  }

  lemma {:induction false} ReviewRewrites(c: Config, s: Live, i: nat, d: Disk, env: Env, fuel: nat, r: Rec)
    requires i < |c.frames| && RecOk(c, s, i, r) && ReviewDue(c, s, i) && fuel >= 5
    requires !FindStarted(d.journal, i) && FindCompleted(d.journal, i).None?
    requires r.decision.Some? && !SharedAt(c, i) ==> env.decide(i, false) == Decided(r.decision.value)
    ensures var (d1, fuel1, got) := Review(c, d, i, env, fuel);
      && Write(d.journal, i, r.(account := None)) <= d1.journal
      && (r.decision.Some? ==>
            && d1.journal == Write(d.journal, i, r.(account := None)) && fuel1 >= fuel - 3
            && got == GotDecision(r.decision.value))
  {
  }

  /** A settlement over a journal that has no result for the session yet. */
  lemma {:induction false} SettleRewrites(d: Disk, i: nat, env: Env, fuel: nat, account: Option<Id>)
    requires FindAccount(d.journal, i).None? && fuel >= 2 && (account.Some? ==> env.account(i) == account.value)
    ensures var (d', fuel', halted) := Settle(d, i, env, fuel);
      && d.journal <= d'.journal && fuel' >= fuel - 2
      && (account.Some? ==> d'.journal == d.journal + [Account(i, account.value)] && halted.None?)
  {
  }

  lemma {:induction false} WrittenIsUnsettled(j: seq<Event>, i: nat, r: Rec)
    requires Unrecorded(j, i)
    ensures FindAccount(Write(j, i, r.(account := None)), i).None?
  {
    WriteFinds(j, i, r.(account := None), i);
  }

  lemma {:induction false} QuietSessionRewrites(c: Config, s: Live, i: nat, d: Disk, env: Env, fuel: nat, r: Rec)
    requires i < |c.frames| && RecOk(c, s, i, r) && !ReviewDue(c, s, i) && fuel >= 5
    requires Unrecorded(d.journal, i) && AnswersAlike(c, env, i, r)
    ensures var (d', fuel', outcome) := Session(c, d, s, i, env, fuel);
      d'.journal == Write(d.journal, i, r) && fuel' >= fuel - 5 && outcome == NextSession(NextState(c, s, i, r))
  {
    SettleRewrites(d, i, env, fuel, r.account);
  }

  lemma {:induction false} DueSessionRewrites(c: Config, s: Live, i: nat, d: Disk, env: Env, fuel: nat, r: Rec)
    requires i < |c.frames| && RecOk(c, s, i, r) && ReviewDue(c, s, i) && fuel >= 5
    requires Unrecorded(d.journal, i) && AnswersAlike(c, env, i, r)
    ensures var (d', fuel', outcome) := Session(c, d, s, i, env, fuel);
      && Write(d.journal, i, r) <= d'.journal
      && (r.account.Some? ==>
            && d'.journal == Write(d.journal, i, r) && fuel' >= fuel - 5
            && outcome == NextSession(NextState(c, s, i, r)))
  {
    ReviewRewrites(c, s, i, d, env, fuel, r);
    var (d1, fuel1, got) := Review(c, d, i, env, fuel);
    if r.decision.Some? {
      WrittenIsUnsettled(d.journal, i, r);
      SettleRewrites(d1, i, env, fuel1, r.account);
    } else {
      SessionGrowsPastReview(c, s, i, d, env, fuel);
    }
  }

  lemma {:induction false} SessionGrowsPastReview(c: Config, s: Live, i: nat, d: Disk, env: Env, fuel: nat)
    requires i < |c.frames| && ReviewDue(c, s, i) && !c.frames[i].gaps
    ensures Review(c, d, i, env, fuel).0.journal <= Session(c, d, s, i, env, fuel).0.journal
  {
  }

  lemma {:induction false} AnswersFor(c: Config, recs: seq<Rec>, i: nat, env: Env)
    requires i < |recs| && SameAnswers(env, Flat(recs))
    ensures AnswersAlike(c, env, i, recs[i])
  {
    FlatFinds(recs, i);
  }

  /** One uninterrupted session writes at least what the record holds, and exactly
      that when the record is settled. */
  lemma {:induction false} SessionRewrites(c: Config, recs: seq<Rec>, i: nat, d: Disk, env: Env, fuel: nat)
    requires WellFormed(c, recs) && i < |recs| && d.journal == Flat(recs[..i]) && fuel >= 5
    requires SameAnswers(env, Flat(recs))
    ensures var (d', fuel', outcome) := Session(c, d, StateAfter(c, recs[..i]), i, env, fuel);
      && Write(Flat(recs[..i]), i, recs[i]) <= d'.journal
      && (recs[i].account.Some? ==>
            && d'.journal == Write(Flat(recs[..i]), i, recs[i]) && fuel' >= fuel - 5
            && outcome == NextSession(StateAfter(c, recs[..i + 1])))
  {
    FrontOk(c, recs, i);
    AnswersFor(c, recs, i, env);
    NothingRecorded(recs, i);
    StateStep(c, recs, i);
    var s := StateAfter(c, recs[..i]);
    if ReviewDue(c, s, i) {
      DueSessionRewrites(c, s, i, d, env, fuel, recs[i]);
    } else {
      QuietSessionRewrites(c, s, i, d, env, fuel, recs[i]);
    }
  }

  lemma {:induction false} FlatStep(recs: seq<Rec>, i: nat)
    requires i < |recs|
    ensures Flat(recs[..i + 1]) == Write(Flat(recs[..i]), i, recs[i])
  {
    var front := recs[..i + 1];
    assert front[..|front| - 1] == recs[..i] && front[i] == recs[i];
  }

  /** The traversal from a recorded session whose record is the last and unsettled. */
  lemma {:induction false} UnsettledEndRewrites(c: Config, recs: seq<Rec>, i: nat, d: Disk, env: Env, fuel: nat)
    requires WellFormed(c, recs) && i + 1 == |recs| && d.journal == Flat(recs[..i]) && fuel >= 5
    requires SameAnswers(env, Flat(recs)) && recs[i].account.None?
    ensures Flat(recs) <= Traverse(c, d, StateAfter(c, recs[..i]), i, |c.frames|, env, fuel).0.journal
  {
    SessionRewrites(c, recs, i, d, env, fuel);
    FlatStep(recs, i);
    TakeAll(recs);
    var (d', fuel', outcome) := Session(c, d, StateAfter(c, recs[..i]), i, env, fuel);
    if outcome.NextSession? { TraverseGrows(c, d', outcome.live, i + 1, |c.frames|, env, fuel'); }
  }

  lemma {:induction false} RunRewrites(c: Config, recs: seq<Rec>, i: nat, d: Disk, env: Env, fuel: nat)
    requires WellFormed(c, recs) && i <= |recs| && d.journal == Flat(recs[..i]) && fuel >= 5 * (|c.frames| - i)
    requires SameAnswers(env, Flat(recs))
    ensures var (d', report) := Traverse(c, d, StateAfter(c, recs[..i]), i, |c.frames|, env, fuel);
      && Flat(recs) <= d'.journal
      && (|recs| == |c.frames| && Settled(recs) ==> d'.journal == Flat(recs) && report == Frontier(|c.frames|))
    decreases |c.frames| - i
  {
    if i == |recs| {
      TakeAll(recs);
      TraverseGrows(c, d, StateAfter(c, recs), i, |c.frames|, env, fuel);
    } else if recs[i].account.None? {
      UnsettledIsLast(c, recs, i);
      UnsettledEndRewrites(c, recs, i, d, env, fuel);
    } else {
      SessionRewrites(c, recs, i, d, env, fuel);
      FlatStep(recs, i);
      var (d', fuel', outcome) := Session(c, d, StateAfter(c, recs[..i]), i, env, fuel);
      RunRewrites(c, recs, i + 1, d', env, fuel');
    }
  }

  // ---- the statements about every history ---------------------------------------------------------

  /** The journal after any stops, crashes and pending answers is a prefix of the log
      of one uninterrupted run that is given the same answers. */
  lemma {:induction false} InterruptedRunsArePrefixes(c: Config, attempts: seq<Attempt>, env: Env)
    requires SameAnswers(env, Attempts(c, BLANK, attempts).journal)
    ensures Attempts(c, BLANK, attempts).journal
         <= Traverse(c, BLANK, FRESH, 0, |c.frames|, env, Ample(c)).0.journal
  {
    var recs := AttemptsStayRepresented(c, BLANK, [], attempts);
    assert recs[..0] == [];
    RunRewrites(c, recs, 0, BLANK, env, Ample(c));
  }

  /** And when an attempt reaches the last session, the journal is that log. */
  lemma {:induction false} CompletedRunsAreUninterrupted(c: Config, attempts: seq<Attempt>, last: Attempt, env: Env)
    requires var d := Attempts(c, BLANK, attempts);
      && Traverse(c, d, FRESH, 0, |c.frames|, last.env, last.fuel).1.Frontier?
      && SameAnswers(env, Traverse(c, d, FRESH, 0, |c.frames|, last.env, last.fuel).0.journal)
    ensures var d := Attempts(c, BLANK, attempts);
      Traverse(c, d, FRESH, 0, |c.frames|, last.env, last.fuel).0.journal
        == Traverse(c, BLANK, FRESH, 0, |c.frames|, env, Ample(c)).0.journal
  {
    var d := Attempts(c, BLANK, attempts);
    var recs := AttemptsStayRepresented(c, BLANK, [], attempts);
    assert recs[..0] == [];
    recs := TraversalExtends(c, d, recs, 0, |c.frames|, last.env, last.fuel);
    assert recs[..|c.frames|] == recs && recs[..0] == [];
    RunRewrites(c, recs, 0, BLANK, env, Ample(c));
  }

  /** A session with a durable completion is never decided again, and no session is
      ever handed twice to a decision that has no earlier start to resume. */
  lemma {:induction false} NeverDecidedTwice(c: Config, attempts: seq<Attempt>)
    ensures CallsOk(Attempts(c, BLANK, attempts))
  {
    var recs := AttemptsStayRepresented(c, BLANK, [], attempts);
  }

  /** Whether event `p` of `j`, if it settles session `i`, comes after what `r` had to decide. */
  predicate SettledInOrder(j: seq<Event>, recs: seq<Rec>, p: nat)
    requires p < |j|
  {
    j[p].Account? ==> j[p].i < |recs| && FindCompleted(j[..p], j[p].i) == recs[j[p].i].decision
  }

  lemma {:induction false} FlatSettlesInOrder(recs: seq<Rec>, p: nat)
    requires p < |Flat(recs)|
    ensures SettledInOrder(Flat(recs), recs, p)
  {
    var n := |recs| - 1;
    var front, last := recs[..n], recs[n];
    var j, j0 := Flat(recs), Flat(front);
    if p < |j0| {
      FlatSettlesInOrder(front, p);
      assert j[p] == j0[p] && j[..p] == j0[..p];
    } else if j[p].Account? {
      assert p == |j| - 1;
      var before := last.(account := None);
      assert j[..p] == Write(j0, n, before);
      WriteFinds(j0, n, before, n);
      FlatFinds(front, n);
    }
  }

  /** Each account event follows its review's durable completion. */
  lemma {:induction false} AccountsFollowReviews(c: Config, attempts: seq<Attempt>) returns (recs: seq<Rec>)
    ensures var j := Attempts(c, BLANK, attempts).journal;
      && WellFormed(c, recs) && j == Flat(recs)
      && forall p :: 0 <= p < |j| && j[p].Account? ==>
           && j[p].i < |recs|
           && (ReviewDue(c, StateAfter(c, recs[..j[p].i]), j[p].i) ==> FindCompleted(j[..p], j[p].i).Some?)
  {
    recs := AttemptsStayRepresented(c, BLANK, [], attempts);
    var j := Flat(recs);
    forall p | 0 <= p < |j| && j[p].Account?
      ensures j[p].i < |recs|
      ensures ReviewDue(c, StateAfter(c, recs[..j[p].i]), j[p].i) ==> FindCompleted(j[..p], j[p].i).Some?
    {
      FlatSettlesInOrder(recs, p);
      AccountRecorded(recs, p);
      FrontOk(c, recs, j[p].i);
    }
  }

  lemma {:induction false} AccountRecorded(recs: seq<Rec>, p: nat)
    requires p < |Flat(recs)| && Flat(recs)[p].Account?
    ensures Flat(recs)[p].i < |recs| && recs[Flat(recs)[p].i].account.Some?
  {
    var front := recs[..|recs| - 1];
    if p < |Flat(front)| {
      assert Flat(recs)[p] == Flat(front)[p];
      AccountRecorded(front, p);
    }
  }

  // ---- review cycles ----------------------------------------------------------------------------

  /** After every recorded session the cycle still covers it and ends inside the window. */
  lemma {:induction false} CyclesCoverTheWindow(c: Config, recs: seq<Rec>)
    requires WellFormed(c, recs) && recs != [] && Settled(recs)
    ensures var s := StateAfter(c, recs);
      s.previous.Some? && |recs| - 1 < s.expires <= |c.frames|
  {
    var front := recs[..|recs| - 1];
    if front != [] { CyclesCoverTheWindow(c, front); }
  }

  lemma {:induction false} CompletedEpisodeEndsAtTheEndpoint(c: Config, recs: seq<Rec>)
    requires WellFormed(c, recs) && |recs| == |c.frames| > 0 && Settled(recs)
    ensures StateAfter(c, recs).expires == |c.frames|
  {
    CyclesCoverTheWindow(c, recs);
  }

  function HorizonSum(recs: seq<Rec>): nat {
    if recs == [] then 0
    else
      var last := recs[|recs| - 1];
      HorizonSum(recs[..|recs| - 1]) + if last.decision.Some? then last.decision.value.horizon else 0
  }

  /** Without scheduled or event reviews the chosen horizons tile the window. */
  lemma {:induction false} ExpiryCyclesTile(c: Config, recs: seq<Rec>)
    requires c.cadence.ExpiryOnly? && WellFormed(c, recs) && Settled(recs)
    ensures HorizonSum(recs) == StateAfter(c, recs).expires
    ensures |recs| == |c.frames| ==> HorizonSum(recs) == |c.frames|
  {
    if recs != [] {
      var front := recs[..|recs| - 1];
      ExpiryCyclesTile(c, front);
      if front != [] { CyclesCoverTheWindow(c, front); }
      CyclesCoverTheWindow(c, recs);
    }
  }

  predicate IsReview(c: Config, recs: seq<Rec>, k: nat)
    requires k < |recs| <= |c.frames|
  {
    recs[k].decision.Some?
  }

  /** The reviews since, and not counting, the last one that an expiry started. */
  function ReviewsInCycle(c: Config, recs: seq<Rec>): nat
    requires |recs| <= |c.frames|
  {
    if recs == [] then 0
    else
      var front := recs[..|recs| - 1];
      if !IsReview(c, recs, |recs| - 1) then ReviewsInCycle(c, front)
      else if ExpiryDue(StateAfter(c, front), |recs| - 1) then 0
      else ReviewsInCycle(c, front) + 1
  }

  /** Under the event cadence a cycle has at most three reviews before its expiry,
      and each of them uses a fact that no review had consumed. */
  lemma {:induction false} AtMostThreeEventReviews(c: Config, recs: seq<Rec>)
    requires c.cadence.EventDriven? && WellFormed(c, recs) && Settled(recs)
    ensures ReviewsInCycle(c, recs) == StateAfter(c, recs).eventCount <= 3
    ensures forall k :: 0 <= k < |recs| && IsReview(c, recs, k) && !ExpiryDue(StateAfter(c, recs[..k]), k) ==>
              && c.frames[k].facts - StateAfter(c, recs[..k]).consumed != {}
              && c.frames[k].facts <= StateAfter(c, recs[..k + 1]).consumed
  {
    if recs != [] {
      var front := recs[..|recs| - 1];
      AtMostThreeEventReviews(c, front);
      if front != [] { CyclesCoverTheWindow(c, front); }
      forall k | 0 <= k < |recs| && IsReview(c, recs, k) && !ExpiryDue(StateAfter(c, recs[..k]), k)
        ensures c.frames[k].facts - StateAfter(c, recs[..k]).consumed != {}
        ensures c.frames[k].facts <= StateAfter(c, recs[..k + 1]).consumed
      {
        if k < |front| {
          assert recs[..k] == front[..k] && recs[..k + 1] == front[..k + 1] && recs[k] == front[k];
          assert IsReview(c, front, k);
        } else {
          assert recs[..k] == front && recs[..k + 1] == recs;
        }
      }
    }
  }

  /** A fact once consumed stays consumed. */
  lemma {:induction false} ConsumedForever(c: Config, recs: seq<Rec>, k: nat)
    requires k <= |recs| <= |c.frames|
    ensures StateAfter(c, recs[..k]).consumed <= StateAfter(c, recs).consumed
    decreases |recs|
  {
    if k == |recs| {
      assert recs[..k] == recs;
    } else {
      var front := recs[..|recs| - 1];
      assert front[..k] == recs[..k];
      ConsumedForever(c, front, k);
    }
  }

  // ---- revisions and the running cycle -------------------------------------------------------------

  /** Whether some decision that the loop accepts for session `i` would end its cycle
      later than it ends now. */
  ghost predicate CanLengthen(c: Config, s: Live, i: nat)
    requires i < |c.frames|
  {
    exists d: Decision {:trigger Acceptable(c, i, d)} :: Acceptable(c, i, d) && Reviewed(c, s, i, d).expires > s.expires
  }

  /** The guard a caller can check before the review: an allowed horizon, with a
      decision the caller would accept, that reaches beyond the running cycle. */
  ghost predicate ReachesBeyond(c: Config, s: Live, i: nat)
    requires i < |c.frames|
  {
    exists d: Decision {:trigger c.valid(d, c.frames[i])} ::
      d.horizon in HORIZONS && s.expires < i + d.horizon <= |c.frames| && c.valid(d, c.frames[i])
  }

  /** A session's record may lengthen the running cycle exactly when a review is due
      there and a horizon reaches beyond the cycle. */
  lemma {:induction false} RevisionLengthensIff(c: Config, recs: seq<Rec>)
    requires WellFormed(c, recs) && Settled(recs) && |recs| < |c.frames| && !c.frames[|recs|].gaps
    requires var s := StateAfter(c, recs); |recs| < s.expires
    ensures var s, i := StateAfter(c, recs), |recs|;
      (exists r {:trigger recs + [r]} :: WellFormed(c, recs + [r]) && StateAfter(c, recs + [r]).expires > s.expires)
      <==> ReviewDue(c, s, i) && ReachesBeyond(c, s, i)
  {
    var s, i := StateAfter(c, recs), |recs|;
    if r: Rec :| WellFormed(c, recs + [r]) && StateAfter(c, recs + [r]).expires > s.expires {
      assert (recs + [r])[..i] == recs;
      assert c.valid(r.decision.value, c.frames[i]);
    }
    if ReviewDue(c, s, i) && ReachesBeyond(c, s, i) {
      var d: Decision :| d.horizon in HORIZONS && s.expires < i + d.horizon <= |c.frames| && c.valid(d, c.frames[i]);
      var r := Rec(true, Some(d), None);
      assert (recs + [r])[..i] == recs;
      assert RecOk(c, s, i, r);
      assert WellFormed(c, recs + [r]) && StateAfter(c, recs + [r]).expires > s.expires;
    }
  }

  /** Where the caller accepts every decision, the guard is about horizons alone. */
  lemma {:induction false} ReachIsAHorizon(c: Config, s: Live, i: nat)
    requires i < |c.frames| && forall d, f :: c.valid(d, f)
    ensures CanLengthen(c, s, i) <==> exists h :: h in HORIZONS && s.expires < i + h <= |c.frames|
    ensures ReachesBeyond(c, s, i) <==> CanLengthen(c, s, i)
  {
    if h :| h in HORIZONS && s.expires < i + h <= |c.frames| {
      var d := Decision(h, 0);
      assert c.valid(d, c.frames[i]);
      assert Acceptable(c, i, d) && Reviewed(c, s, i, d).expires > s.expires;
    }
    if d: Decision :| Acceptable(c, i, d) && Reviewed(c, s, i, d).expires > s.expires {
      assert d.horizon in HORIZONS && s.expires < i + d.horizon <= |c.frames|;
      assert c.valid(d, c.frames[i]);
    }
  }

  /** Session `k` was reviewed before its cycle expired and moved the expiry out. */
  predicate Lengthened(c: Config, recs: seq<Rec>, k: nat)
    requires k < |recs| <= |c.frames|
  {
    k < StateAfter(c, recs[..k]).expires < StateAfter(c, recs[..k + 1]).expires
  }

  /** In a recorded run a session lengthened its cycle exactly when its review was not
      due by expiry and chose a horizon that reaches beyond the expiry. */
  lemma {:induction false} LengthenedIff(c: Config, recs: seq<Rec>, k: nat)
    requires WellFormed(c, recs) && k < |recs|
    ensures Lengthened(c, recs, k) <==>
      && !ExpiryDue(StateAfter(c, recs[..k]), k)
      && recs[k].decision.Some? && k + recs[k].decision.value.horizon > StateAfter(c, recs[..k]).expires
  {
    StateStep(c, recs, k);
  }

  /** A position at which an episode could be lengthened next. */
  ghost predicate Stretchable(c: Config, recs: seq<Rec>) {
    && WellFormed(c, recs) && Settled(recs) && |recs| < |c.frames| && !c.frames[|recs|].gaps
    && |recs| < StateAfter(c, recs).expires
    && ReviewDue(c, StateAfter(c, recs), |recs|) && ReachesBeyond(c, StateAfter(c, recs), |recs|)
  }

  lemma {:induction false} LengthenedWasStretchable(c: Config, recs: seq<Rec>, k: nat)
    requires WellFormed(c, recs) && k < |recs| && Lengthened(c, recs, k)
    ensures Stretchable(c, recs[..k])
  {
    FrontOk(c, recs, k);
    LengthenedIff(c, recs, k);
    assert c.valid(recs[k].decision.value, c.frames[k]);
  }

  /** An episode's cycles are never lengthened, in any recorded run, exactly when no
      recorded run comes to a session with a review due and a longer reach. */
  lemma {:induction false} NeverLengthenedIff(c: Config)
    ensures (forall recs, k :: WellFormed(c, recs) && 0 <= k < |recs| ==> !Lengthened(c, recs, k))
      <==> (forall recs :: !Stretchable(c, recs))
  {
    if recs: seq<Rec>, k: nat :| WellFormed(c, recs) && 0 <= k < |recs| && Lengthened(c, recs, k) {
      LengthenedWasStretchable(c, recs, k);
    }
    if recs :| Stretchable(c, recs) {
      RevisionLengthensIff(c, recs);
      var r :| WellFormed(c, recs + [r]) && StateAfter(c, recs + [r]).expires > StateAfter(c, recs).expires;
      assert (recs + [r])[..|recs|] == recs && (recs + [r])[..|recs| + 1] == recs + [r];
      assert Lengthened(c, recs + [r], |recs|);
    }
  }

  /** Reviews by expiry alone never come before the expiry, so nothing is lengthened. */
  lemma {:induction false} ExpiryReviewsNeverLengthen(c: Config, recs: seq<Rec>, k: nat)
    requires c.cadence.ExpiryOnly? && WellFormed(c, recs) && k < |recs|
    ensures !Lengthened(c, recs, k)
  {
    if Lengthened(c, recs, k) {
      LengthenedWasStretchable(c, recs, k);
      if recs[..k] != [] { CyclesCoverTheWindow(c, recs[..k]); }
    }
  }

  /** An event revision may lengthen the running cycle: here it moves from 3 to 6. */
  lemma {:induction false} RevisionMayExtend(c: Config)
    requires c.cadence.EventDriven? && c.sharedInitial.None? && |c.frames| == 10
    requires forall i :: 0 <= i < 10 ==> c.frames[i] == Frame({i}, false)
    requires forall d, f :: c.valid(d, f)
    ensures var first := Rec(true, Some(Decision(3, 0)), Some(0)); var revised := Rec(true, Some(Decision(5, 1)), Some(0));
      && WellFormed(c, [first, revised])
      && StateAfter(c, [first]).expires == 3 && StateAfter(c, [first, revised]).expires == 6
      && !ExpiryDue(StateAfter(c, [first]), 1)
  {
    var first, revised := Rec(true, Some(Decision(3, 0)), Some(0)), Rec(true, Some(Decision(5, 1)), Some(0));
    assert [first, revised][..1] == [first] && [first][..0] == [];
    assert 1 in c.frames[1].facts - StateAfter(c, [first]).consumed;
  }
}
