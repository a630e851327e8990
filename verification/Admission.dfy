/** The admission table: which agent requests own, share or are refused a watch,
    and how an owner's watch is activated after its admission is durable. */
module Admission {
  import opened Base
  import opened WatchStore

  datatype Profile = Profile(
    id: Id, maxChildren: nat, maxActive: nat, maxPolls: nat, maxBytes: nat, maxWakes: nat)

  /** The table's unique key: one sticky decision for a request under a parent. */
  datatype Key = Key(request: Id, parentRef: Id, parentType: Id, depth: nat)

  datatype Blocker = Precheck(code: nat) | BranchLimit | WatchBudget | ActiveWatchLimit

  datatype Outcome = Admitted | Reused | Rejected(blocker: Blocker)

  /** `policy` is stored on owner rows only. Rows are ordered by `admittedAt`, then `id`. */
  datatype Admission = Admission(
    id: Id, key: Key, authorityHash: Id, profile: Profile, outcome: Outcome, opKey: Option<Id>,
    watch: Option<WatchId>, policy: Option<Policy>, expiresAt: Option<Time>, admittedAt: Time)

  /** What `admit` has computed when it reaches the acceptance transaction; `id` is
      the content hash of whichever admission results. */
  datatype Candidate = Candidate(
    id: Id, key: Key, authorityHash: Id, profile: Profile, opKey: Id, policy: Policy, decidedAt: Time)

  predicate Accepted(a: Admission) {
    a.outcome.Admitted? || a.outcome.Reused?
  }

  // ---- queries ---------------------------------------------------------------------

  predicate Before(a: Admission, b: Admission) {
    a.admittedAt < b.admittedAt || (a.admittedAt == b.admittedAt && a.id < b.id)
  }

  /** The first row of `ORDER BY admitted_at, admission_id` that satisfies `p`. */
  function Earliest(t: seq<Admission>, p: Admission -> bool): (found: Option<Admission>)
    ensures found.None? ==> forall a :: a in t ==> !p(a)
    ensures found.Some? ==> found.value in t && p(found.value) && forall a :: a in t && p(a) ==> !Before(a, found.value)
  {
    if t == [] then None
    else
      var last, rest := t[|t| - 1], Earliest(t[..|t| - 1], p);
      assert forall a :: a in t ==> a == last || a in t[..|t| - 1];
      if p(last) && (rest.None? || Before(last, rest.value)) then Some(last) else rest
  }

  function InsertSorted(s: seq<Admission>, a: Admission): (r: seq<Admission>)
    ensures multiset(r) == multiset(s) + multiset{a}
  {
    if s == [] || Before(a, s[0]) then
      assert multiset([a] + s) == multiset{a} + multiset(s);
      [a] + s
    else
      assert s == [s[0]] + s[1..];
      [s[0]] + InsertSorted(s[1..], a)
  }

  /** All rows that satisfy `p`, in the order of the table's queries. */
  function InOrder(t: seq<Admission>, p: Admission -> bool): seq<Admission> {
    if t == [] then []
    else
      var last, rest := t[|t| - 1], InOrder(t[..|t| - 1], p);
      if p(last) then InsertSorted(rest, last) else rest
  }

  lemma {:induction false} InOrderSelects(t: seq<Admission>, p: Admission -> bool, a: Admission)
    ensures a in InOrder(t, p) <==> a in t && p(a)
  {
    if t != [] {
      var last, rest := t[|t| - 1], t[..|t| - 1];
      InOrderSelects(rest, p, a);
      assert a in t <==> a == last || a in rest;
      assert a in InOrder(t, p) <==> a in multiset(InOrder(t, p));
    }
  }

  function ForKey(t: seq<Admission>, key: Key): Option<Admission> {
    Earliest(t, (a: Admission) => a.key == key)
  }

  function AcceptedUnder(t: seq<Admission>, parentRef: Id): nat {
    if t == [] then 0
    else
      var last := t[|t| - 1];
      AcceptedUnder(t[..|t| - 1], parentRef) + if Accepted(last) && last.key.parentRef == parentRef then 1 else 0
  }

  /** The watch of `a` is live, or it is still to be created from the stored policy. */
  predicate LiveOrPending(a: Admission, rows: map<WatchId, Row>) {
    if a.watch.Some? && a.watch.value in rows then !Terminal(rows[a.watch.value].status) else a.policy.Some?
  }

  predicate Equivalent(a: Admission, rows: map<WatchId, Row>, opKey: Id, profileId: Id, expiresAt: Time) {
    && a.opKey == Some(opKey) && a.profile.id == profileId && a.outcome.Admitted?
    && a.expiresAt.Some? && a.expiresAt.value >= expiresAt
    && LiveOrPending(a, rows)
  }

  function ActiveWatches(t: seq<Admission>, rows: map<WatchId, Row>, at: Time): set<WatchId> {
    set a | a in t && a.outcome.Admitted? && a.expiresAt.Some? && a.expiresAt.value >= at
            && LiveOrPending(a, rows) && a.watch.Some? :: a.watch.value
  }

  predicate Exhausted(w: WatchId, rows: map<WatchId, Row>, p: Profile) {
    w in rows && (rows[w].polls >= p.maxPolls || rows[w].bytes >= p.maxBytes || rows[w].wakes >= p.maxWakes)
  }

  // ---- the transactions --------------------------------------------------------------

  function Reject(c: Candidate, b: Blocker): Admission {
    Admission(c.id, c.key, c.authorityHash, c.profile, Rejected(b), None, None, None, None, c.decidedAt)
  }

  function Reuse(c: Candidate, owner: Admission): Admission {
    Admission(c.id, c.key, c.authorityHash, c.profile, Reused, Some(c.opKey), owner.watch, None,
              Some(c.policy.expiresAt), c.decidedAt)
  }

  function Own(c: Candidate): Admission {
    Admission(c.id, c.key, c.authorityHash, c.profile, Admitted, Some(c.opKey), Some(c.policy.watchId),
              Some(c.policy), Some(c.policy.expiresAt), c.decidedAt)
  }

  /** The decision for a candidate whose key is not in the table yet. */
  function Decide(t: seq<Admission>, rows: map<WatchId, Row>, c: Candidate): Admission {
    if AcceptedUnder(t, c.key.parentRef) >= c.profile.maxChildren then Reject(c, BranchLimit)
    else
      var owner := Earliest(t, (a: Admission) => Equivalent(a, rows, c.opKey, c.profile.id, c.policy.expiresAt));
      if owner.Some? then
        if owner.value.watch.Some? && Exhausted(owner.value.watch.value, rows, c.profile)
        then Reject(c, WatchBudget) else Reuse(c, owner.value)
      else if |ActiveWatches(t, rows, c.decidedAt)| >= c.profile.maxActive then Reject(c, ActiveWatchLimit)
      else Own(c)
  }

  /** The primary key of the table. */
  predicate IdTaken(t: seq<Admission>, id: Id) {
    exists i :: 0 <= i < |t| && t[i].id == id
  }

  /** One insertion; a known key answers with its sticky decision, and an
      identity that is already taken rolls the transaction back. */
  function Insert(t: seq<Admission>, a: Admission): (seq<Admission>, Option<Admission>) {
    if ForKey(t, a.key).Some? then (t, ForKey(t, a.key))
    else if IdTaken(t, a.id) then (t, None)
    else (t + [a], Some(a))
  }

  function CommitAcceptance(t: seq<Admission>, rows: map<WatchId, Row>, c: Candidate): (seq<Admission>, Option<Admission>) {
    Insert(t, Decide(t, rows, c))
  }

  function PersistRejection(t: seq<Admission>, c: Candidate, code: nat): (seq<Admission>, Option<Admission>) {
    Insert(t, Reject(c, Precheck(code)))
  }

  // ---- activation ----------------------------------------------------------------------

  predicate Owns(a: Admission, w: WatchId) {
    a.watch == Some(w) && a.outcome.Admitted? && a.policy.Some?
  }

  datatype Activation = NothingToActivate | AlreadyActive | NoOwningPolicy | Attempted(created: CreateOutcome)

  function Activate(t: seq<Admission>, db: Db, a: Admission, cutoff: Time): (Db, Activation) {
    if a.outcome.Rejected? || a.watch.None? then (db, NothingToActivate)
    else if a.watch.value in db.rows then (db, AlreadyActive)
    else
      var owner := Earliest(t, (o: Admission) => Owns(o, a.watch.value));
      if owner.None? then (db, NoOwningPolicy)
      else
        var (db', created) := CreateWatch(db, owner.value.policy.value, owner.value.admittedAt, cutoff);
        (db', Attempted(created))
  }

  // ---- the owner of a lineage ------------------------------------------------------------

  /** The parent type that may own a rebaselined watch, "triage.coordinator". */
  const TRIAGE_COORDINATOR: Id := 1

  /** The rows of the owner query for a root watch. */
  function OwnerRows(t: seq<Admission>, root: WatchId): set<Admission> {
    set a | a in t && Owns(a, root)
  }

  /** What the one row must say about the policy of the root; scope and plan are part of it. */
  predicate SpeaksFor(a: Admission, p: Policy) {
    a.policy == Some(p) && a.key.parentType == TRIAGE_COORDINATOR && a.key.parentRef == p.origin
  }

  function OwnerIn(a: Admission): Owner {
    Owner(a.key.parentRef, a.authorityHash)
  }

  /** The owner query: there must be one admitted row, and it must speak for the root. */
  function OwnerOf(t: seq<Admission>, root: WatchId, p: Policy): Option<Owner> {
    var first := Earliest(t, (a: Admission) => Owns(a, root));
    if |OwnerRows(t, root)| == 1 && first.Some? && SpeaksFor(first.value, p) then Some(OwnerIn(first.value)) else None
  }

  lemma {:induction false} OwnerIsTheRow(t: seq<Admission>, root: WatchId, p: Policy, a: Admission)
    requires a in OwnerRows(t, root) && SpeaksFor(a, p)
    ensures OwnerOf(t, root, p) == Some(OwnerIn(a)) <==> |OwnerRows(t, root)| == 1
  {
    var first := Earliest(t, (x: Admission) => Owns(x, root));
    if |OwnerRows(t, root)| == 1 {
      OnlyMember(OwnerRows(t, root), a, first.value);
    }
  }

  // ---- the invariant -------------------------------------------------------------------

  /** `admit` builds the watch policy it offers: a new root, starting at the decision. */
  predicate Offered(c: Candidate) {
    c.policy.lineage.None? && c.policy.startsAt == c.decidedAt && c.policy.startsAt < c.policy.expiresAt
    && c.policy.origin == c.key.parentRef
  }

  predicate SaneAdmission(a: Admission) {
    match a.outcome
    case Rejected(_) => a.watch.None? && a.policy.None? && a.opKey.None? && a.expiresAt.None?
    case Reused => a.watch.Some? && a.policy.None? && a.opKey.Some? && a.expiresAt.Some?
    case Admitted =>
      && a.policy.Some? && a.watch == Some(a.policy.value.watchId) && a.opKey.Some?
      && a.expiresAt == Some(a.policy.value.expiresAt)
      && a.policy.value.lineage.None? && a.policy.value.origin == a.key.parentRef
      && a.admittedAt == a.policy.value.startsAt < a.policy.value.expiresAt
  }

  predicate OneDecisionPerKey(t: seq<Admission>) {
    forall i, j :: 0 <= i < j < |t| ==> t[i].key != t[j].key && t[i].id != t[j].id
  }

  /** A sharing row follows an owner of the same watch, profile and scope that ends no earlier. */
  predicate OwnedBy(o: Admission, a: Admission) {
    && o.outcome.Admitted? && o.watch == a.watch && o.opKey == a.opKey && o.profile.id == a.profile.id
    && o.expiresAt.Some? && a.expiresAt.Some? && o.expiresAt.value >= a.expiresAt.value
  }

  predicate EveryShareIsOwned(t: seq<Admission>) {
    forall i {:trigger t[i].outcome} :: 0 <= i < |t| && t[i].outcome.Reused? ==> exists j :: 0 <= j < i && OwnedBy(t[j], t[i])
  }

  predicate BranchLimitsKept(t: seq<Admission>) {
    forall i {:trigger t[i].profile} :: 0 <= i < |t| && Accepted(t[i]) ==>
      AcceptedUnder(t[..i + 1], t[i].key.parentRef) <= t[i].profile.maxChildren
  }

  predicate SoundTable(t: seq<Admission>) {
    && (forall i :: 0 <= i < |t| ==> SaneAdmission(t[i]))
    && OneDecisionPerKey(t) && EveryShareIsOwned(t) && BranchLimitsKept(t)
  }

  // ---- the transactions keep it ----------------------------------------------------------

  lemma {:induction false} DecisionIsSane(t: seq<Admission>, rows: map<WatchId, Row>, c: Candidate)
    requires SoundTable(t) && Offered(c)
    ensures var a := Decide(t, rows, c);
      && SaneAdmission(a) && a.key == c.key && a.id == c.id && a.profile == c.profile
      && (a.outcome.Reused? ==> exists o :: o in t && OwnedBy(o, a))
      && (Accepted(a) ==> AcceptedUnder(t, c.key.parentRef) < c.profile.maxChildren)
  {
    var owner := Earliest(t, (a: Admission) => Equivalent(a, rows, c.opKey, c.profile.id, c.policy.expiresAt));
    if owner.Some? {
      var i :| 0 <= i < |t| && t[i] == owner.value;
      assert SaneAdmission(t[i]);
      assert Decide(t, rows, c).outcome.Reused? ==> OwnedBy(owner.value, Decide(t, rows, c));
    }
  }

  lemma {:induction false} SharesStayOwned(t: seq<Admission>, a: Admission)
    requires EveryShareIsOwned(t)
    requires a.outcome.Reused? ==> exists o :: o in t && OwnedBy(o, a)
    ensures EveryShareIsOwned(t + [a])
  {
    var t' := t + [a];
    forall i | 0 <= i < |t'| && t'[i].outcome.Reused? ensures exists j :: 0 <= j < i && OwnedBy(t'[j], t'[i]) {
      if i < |t| {
        assert t[i].outcome.Reused?;
        var j :| 0 <= j < i && OwnedBy(t[j], t[i]);
        assert OwnedBy(t'[j], t'[i]);
      } else {
        var o :| o in t && OwnedBy(o, a);
        var j :| 0 <= j < |t| && t[j] == o;
        assert OwnedBy(t'[j], t'[i]);
      }
    }
  }

  lemma {:induction false} LimitsStayKept(t: seq<Admission>, a: Admission)
    requires BranchLimitsKept(t)
    requires Accepted(a) ==> AcceptedUnder(t, a.key.parentRef) < a.profile.maxChildren
    ensures BranchLimitsKept(t + [a])
  {
    var t' := t + [a];
    forall i | 0 <= i < |t'| && Accepted(t'[i])
      ensures AcceptedUnder(t'[..i + 1], t'[i].key.parentRef) <= t'[i].profile.maxChildren
    {
      if i < |t| {
        assert t'[..i + 1] == t[..i + 1];
        assert t[i].profile == t'[i].profile;
      } else {
        assert t'[..i + 1] == t' && t'[..|t'| - 1] == t;
      }
    }
  }

  lemma {:induction false} InsertStaysSound(t: seq<Admission>, a: Admission)
    requires SoundTable(t) && SaneAdmission(a)
    requires a.outcome.Reused? ==> exists o :: o in t && OwnedBy(o, a)
    requires Accepted(a) ==> AcceptedUnder(t, a.key.parentRef) < a.profile.maxChildren
    ensures SoundTable(Insert(t, a).0)
  {
    SharesStayOwned(t, a);
    LimitsStayKept(t, a);
    if Insert(t, a).0 == t + [a] {
      assert forall b :: b in t ==> b.key != a.key;
    }
  }

  /** Every sequence of admissions, against whatever the watches are doing, keeps one
      sticky decision per key, an owner for every share, and every branch limit. */
  lemma {:induction false} AcceptanceStaysSound(t: seq<Admission>, rows: map<WatchId, Row>, c: Candidate)
    requires SoundTable(t) && Offered(c)
    ensures SoundTable(CommitAcceptance(t, rows, c).0)
  {
    DecisionIsSane(t, rows, c);
    InsertStaysSound(t, Decide(t, rows, c));
  }

  /** A decision to share binds an owner of the same scope and profile, ending no
      earlier, whose watch is live with budget left or still to be created. */
  lemma {:induction false} ReuseIsSound(t: seq<Admission>, rows: map<WatchId, Row>, c: Candidate)
    requires SoundTable(t) && Offered(c) && ForKey(t, c.key).None?
    requires CommitAcceptance(t, rows, c).1.Some? && CommitAcceptance(t, rows, c).1.value.outcome.Reused?
    ensures var a := CommitAcceptance(t, rows, c).1.value;
      && a.watch.Some?
      && (a.watch.value in rows ==> !Terminal(rows[a.watch.value].status) && !Exhausted(a.watch.value, rows, c.profile))
      && exists o :: o in t && OwnedBy(o, a) && Owns(o, a.watch.value) && o.expiresAt.value >= c.policy.expiresAt
  {
    var owner := Earliest(t, (a: Admission) => Equivalent(a, rows, c.opKey, c.profile.id, c.policy.expiresAt));
    var i :| 0 <= i < |t| && t[i] == owner.value;
    assert SaneAdmission(t[i]);
    assert OwnedBy(owner.value, Reuse(c, owner.value)) && Owns(owner.value, owner.value.watch.value);
  }

  /** An accepted admission's watch has an admitted owner row, with its stored policy. */
  lemma {:induction false} OwnerIsThere(t: seq<Admission>, i: nat)
    requires SoundTable(t) && i < |t| && Accepted(t[i])
    ensures t[i].watch.Some?
    ensures var owner := Earliest(t, (x: Admission) => Owns(x, t[i].watch.value));
      owner.Some? && owner.value.outcome.Admitted? && owner.value.watch == t[i].watch && SaneAdmission(owner.value)
  {
    var a := t[i];
    assert SaneAdmission(a);
    var w := a.watch.value;
    var o := i;
    if a.outcome.Reused? {
      o :| 0 <= o < i && OwnedBy(t[o], a);
    }
    assert SaneAdmission(t[o]) && Owns(t[o], w) && t[o] in t;
    var owner := Earliest(t, (x: Admission) => Owns(x, w));
    var k :| 0 <= k < |t| && t[k] == owner.value;
    assert SaneAdmission(t[k]);
  }

  /** After a crash between acceptance and creation, the owner's policy is always
      found, it is a root that has not expired at its admission, and creating from it
      leaves the watch in the table unless its baseline lies in the future. */
  lemma {:induction false} ActivationFindsItsOwner(t: seq<Admission>, db: Db, i: nat, cutoff: Time)
    requires SoundTable(t) && i < |t| && Accepted(t[i])
    ensures var (db', done) := Activate(t, db, t[i], cutoff);
      && (done.AlreadyActive? || done == Attempted(Created) || done == Attempted(FutureBaseline))
      && (done != Attempted(FutureBaseline) ==> t[i].watch.Some? && t[i].watch.value in db'.rows)
  {
    OwnerIsThere(t, i);
  }
}
