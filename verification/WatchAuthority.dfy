/** Who owns a lineage: the owner query over the admission table, and the re-check
    of grant, rows and owner that every step along a lineage repeats. */
module WatchAuthority {
  import opened Base
  import opened WatchStore
  import opened WatchLineage
  import opened Admission

  /** The grants from `w` back to its root, newest first. */
  function Ancestry(grants: seq<Grant>, w: WatchId): seq<Grant> {
    if grants == [] then []
    else
      var last, rest := grants[|grants| - 1], grants[..|grants| - 1];
      if w == last.successor then [last] + Ancestry(rest, last.original) else Ancestry(rest, w)
  }

  function GrantIds(gs: seq<Grant>): (ids: seq<Id>)
    ensures |ids| == |gs| && forall i :: 0 <= i < |gs| ==> ids[i] == gs[i].grantId
  {
    seq(|gs|, i requires 0 <= i < |gs| => gs[i].grantId)
  }

  /** The owner lookup: along the policies to the root, then the owner query. */
  function OwnerFor(t: seq<Admission>, db: Db, w: WatchId): Option<Owner> {
    var root := Root(db.grants, w);
    if root in db.rows then OwnerOf(t, root, db.rows[root].policy) else None
  }

  /** The whole re-check of one grant. */
  predicate Confirmed(t: seq<Admission>, db: Db, g: Grant) {
    && g.original in db.rows && g.successor in db.rows
    && Rebinds(g, db.rows[g.original], db.rows[g.successor].policy)
    && OwnerFor(t, db, g.original) == Some(g.owner)
  }

  /** Whether the walk from `w` back to its root passes every re-check. */
  predicate LineageConfirmed(t: seq<Admission>, db: Db, w: WatchId) {
    forall g :: g in Ancestry(db.grants, w) ==> Confirmed(t, db, g)
  }

  /** Later grants that do not create `w` do not matter to it. */
  lemma {:induction false} OnlyEarlierGrantsMatter(grants: seq<Grant>, n: nat, w: WatchId)
    requires n <= |grants| && forall j :: n <= j < |grants| ==> grants[j].successor != w
    ensures Root(grants, w) == Root(grants[..n], w) && Ancestry(grants, w) == Ancestry(grants[..n], w)
    decreases |grants|
  {
    if n < |grants| {
      var rest := grants[..|grants| - 1];
      assert rest[..n] == grants[..n];
      OnlyEarlierGrantsMatter(rest, n, w);
    } else {
      assert grants[..n] == grants;
    }
  }

  lemma {:induction false} OneStepBack(grants: seq<Grant>, i: nat)
    requires Ordered(grants) && i < |grants|
    ensures Root(grants, grants[i].successor) == Root(grants, grants[i].original)
    ensures Ancestry(grants, grants[i].successor) == [grants[i]] + Ancestry(grants, grants[i].original)
  {
    var upTo := grants[..i + 1];
    assert upTo[|upTo| - 1] == grants[i] && upTo[..|upTo| - 1] == grants[..i];
    OnlyEarlierGrantsMatter(grants, i + 1, grants[i].successor);
    OnlyEarlierGrantsMatter(grants, i, grants[i].original);
  }

  lemma {:induction false} AtTheRoot(grants: seq<Grant>, w: WatchId)
    requires !IsSuccessor(grants, w)
    ensures Root(grants, w) == w && Ancestry(grants, w) == []
  {
    OnlyEarlierGrantsMatter(grants, 0, w);
  }

  lemma {:induction false} IdsOfNext(g: Grant, gs: seq<Grant>)
    ensures GrantIds([g] + gs) == [g.grantId] + GrantIds(gs)
  {
  }

  /** Every grant on the way back belongs to the same lineage, and there is one
      exactly when the watch was created by a grant. */
  lemma {:induction false} AncestryIsTheLineage(grants: seq<Grant>, w: WatchId)
    ensures forall g :: g in Ancestry(grants, w) ==> g in grants
    ensures Ordered(grants) ==> forall g :: g in Ancestry(grants, w) ==> Root(grants, g.original) == Root(grants, w)
    ensures Ancestry(grants, w) != [] <==> IsSuccessor(grants, w)
  {
    if grants != [] {
      var n := |grants| - 1;
      var last, rest := grants[n], grants[..n];
      assert forall i :: 0 <= i < n ==> rest[i] == grants[i];
      var next := if w == last.successor then last.original else w;
      AncestryIsTheLineage(rest, next);
      if Ordered(grants) {
        assert Ordered(rest);
        if w == last.successor { OneStepBack(grants, n); }
        forall g | g in Ancestry(rest, next) ensures Root(grants, g.original) == Root(grants, w) {
          var i :| 0 <= i < n && grants[i] == g;
          OnlyEarlierGrantsMatter(grants, n, g.original);
        }
      }
    }
  }
}
