/** The gate's verdict does not depend on the order of its evidence, is sound when it
    accepts, and never fails to construct. */
module CalibrationGate {
  import opened Base
  import opened Calibration

  // ---- consistent evidence ------------------------------------------------------------------

  /** One partition and one visibility per cluster, and nothing different for a variant
      that is given twice. */
  predicate Agree(a: Evidence, b: Evidence) {
    && (a.Key() == b.Key() ==> a == b)
    && (a.cluster == b.cluster ==> a.partition == b.partition && a.visibleAt == b.visibleAt)
  }

  predicate Coherent(evidence: seq<Evidence>) {
    forall i, j :: 0 <= i < j < |evidence| ==> Agree(evidence[i], evidence[j])
  }

  predicate Compatible(a: Evidence, b: Evidence) {
    && a.Key() != b.Key()
    && (a.cluster == b.cluster ==> a.partition == b.partition && a.visibleAt == b.visibleAt)
  }

  /** No variant of a cluster twice, and one partition and one visibility per cluster. */
  predicate Consistent(evidence: seq<Evidence>) {
    forall i, j :: 0 <= i < j < |evidence| ==> Compatible(evidence[i], evidence[j])
  }

  lemma {:induction false} ConsistentIsCoherent(evidence: seq<Evidence>)
    requires Consistent(evidence)
    ensures Coherent(evidence)
    ensures forall r :: !Repeats(evidence, r)
  {
    forall i, j | 0 <= i < j < |evidence| ensures Agree(evidence[i], evidence[j]) && evidence[i].Key() != evidence[j].Key() {
      assert Compatible(evidence[i], evidence[j]);
    }
  }

  predicate Conflict(r: Reason) {
    r.DuplicateVariant? || r.CrossesPartitions? || r.VisibilityMismatch?
  }

  /** What each table holds of the evidence read, as long as that is consistent. */
  predicate KeysEvidence(m: map<(Cluster, Variant), Evidence>, evidence: seq<Evidence>) {
    && (forall e :: e in evidence ==> e.Key() in m && m[e.Key()] == e)
    && (forall k :: k in m ==> m[k] in evidence && m[k].Key() == k)
  }

  predicate KeepsPerCluster<V(==)>(m: map<Cluster, V>, evidence: seq<Evidence>, of: Evidence -> V) {
    && (forall e :: e in evidence ==> e.cluster in m && m[e.cluster] == of(e))
    && (forall c :: c in m ==> exists e :: e in evidence && e.cluster == c)
  }

  /** The reason for a variant that is given more than once. */
  predicate Repeats(evidence: seq<Evidence>, r: Reason) {
    r.DuplicateVariant? && exists i, j :: 0 <= i < j < |evidence| && evidence[i].Key() == evidence[j].Key() == (r.c, r.v)
  }

  ghost predicate CollectsReasons(reasons: set<Reason>, evidence: seq<Evidence>) {
    && (forall r :: r in reasons ==> Repeats(evidence, r) || exists e :: e in evidence && r in ItemReasons(e))
    && (forall e :: e in evidence ==> ItemReasons(e) <= reasons)
    && (forall r :: Repeats(evidence, r) ==> r in reasons)
  }

  const PARTITION_OF := (e: Evidence) => e.partition
  const VISIBILITY_OF := (e: Evidence) => e.visibleAt

  ghost predicate Describes(t: Tables, evidence: seq<Evidence>) {
    && KeysEvidence(t.keyed, evidence)
    && KeepsPerCluster(t.partitions, evidence, PARTITION_OF)
    && KeepsPerCluster(t.visibility, evidence, VISIBILITY_OF)
    && CollectsReasons(t.reasons, evidence)
  }

  lemma {:induction false} KeysOneMore(m: map<(Cluster, Variant), Evidence>, evidence: seq<Evidence>, e: Evidence)
    requires KeysEvidence(m, evidence) && e.Key() !in m
    ensures KeysEvidence(m[e.Key() := e], evidence + [e])
  {
    assert forall x :: x in evidence + [e] <==> x in evidence || x == e;
  }

  lemma {:induction false} KeepsOneMore<V>(m: map<Cluster, V>, evidence: seq<Evidence>, e: Evidence, of: Evidence -> V)
    requires KeepsPerCluster(m, evidence, of)
    requires forall x :: x in evidence && x.cluster == e.cluster ==> of(x) == of(e)
    ensures KeepsPerCluster(SetDefault(m, e.cluster, of(e)), evidence + [e], of)
    ensures SetDefault(m, e.cluster, of(e))[e.cluster] == of(e)
  {
    var all := evidence + [e];
    assert forall x :: x in all <==> x in evidence || x == e;
    if e.cluster in m {
      var x :| x in evidence && x.cluster == e.cluster;
    }
  }

  lemma {:induction false} RepeatsOneMore(evidence: seq<Evidence>, e: Evidence, r: Reason)
    ensures Repeats(evidence + [e], r) <==>
      Repeats(evidence, r) || (r == DuplicateVariant(e.cluster, e.variant) && exists x :: x in evidence && x.Key() == e.Key())
  {
    var all := evidence + [e];
    if Repeats(all, r) {
      var i, j :| 0 <= i < j < |all| && all[i].Key() == all[j].Key() == (r.c, r.v);
      assert all[i] == evidence[i] && evidence[i] in evidence;
      if j < |evidence| { assert evidence[i].Key() == evidence[j].Key() == (r.c, r.v); }
    }
    if Repeats(evidence, r) {
      var i, j :| 0 <= i < j < |evidence| && evidence[i].Key() == evidence[j].Key() == (r.c, r.v);
      assert all[i].Key() == all[j].Key() == (r.c, r.v);
    }
    if x :| x in evidence && x.Key() == e.Key() && r == DuplicateVariant(e.cluster, e.variant) {
      var i :| 0 <= i < |evidence| && evidence[i] == x;
      assert all[i].Key() == all[|evidence|].Key() == (r.c, r.v);
    }
  }

  lemma {:induction false} CollectsOneMore(reasons: set<Reason>, evidence: seq<Evidence>, e: Evidence)
    requires CollectsReasons(reasons, evidence) && forall x :: x in evidence ==> x.Key() != e.Key()
    ensures CollectsReasons(reasons + ItemReasons(e), evidence + [e])
  {
    var all := evidence + [e];
    assert forall x :: x in all <==> x in evidence || x == e;
    forall r ensures Repeats(all, r) <==> Repeats(evidence, r) { RepeatsOneMore(evidence, e, r); }
    forall r | r in reasons + ItemReasons(e) ensures Repeats(all, r) || exists x :: x in all && r in ItemReasons(x) {
      if r in ItemReasons(e) {
        assert e in all;
      } else if !Repeats(evidence, r) {
        var x :| x in evidence && r in ItemReasons(x);
        assert x in all;
      }
    }
  }

  lemma {:induction false} CollectsRepeat(reasons: set<Reason>, evidence: seq<Evidence>, e: Evidence)
    requires CollectsReasons(reasons, evidence) && e in evidence
    ensures CollectsReasons(reasons + {DuplicateVariant(e.cluster, e.variant)}, evidence + [e])
  {
    var all := evidence + [e];
    assert forall x :: x in all <==> x in evidence;
    forall r ensures Repeats(all, r) <==> Repeats(evidence, r) || r == DuplicateVariant(e.cluster, e.variant) {
      RepeatsOneMore(evidence, e, r);
    }
    forall r | r in reasons && !Repeats(evidence, r) ensures exists x :: x in all && r in ItemReasons(x) {
      var x :| x in evidence && r in ItemReasons(x);
      assert x in all;
    }
  }

  lemma {:induction false} AddShape(t: Tables, e: Evidence)
    requires e.Key() !in t.keyed
    requires SetDefault(t.partitions, e.cluster, e.partition)[e.cluster] == e.partition
    requires SetDefault(t.visibility, e.cluster, e.visibleAt)[e.cluster] == e.visibleAt
    ensures Add(t, e).keyed == t.keyed[e.Key() := e] && Add(t, e).reasons == t.reasons + ItemReasons(e)
    ensures Add(t, e).partitions == SetDefault(t.partitions, e.cluster, e.partition)
    ensures Add(t, e).visibility == SetDefault(t.visibility, e.cluster, e.visibleAt)
  {
  }

  lemma {:induction false} SameMembersKeep<V>(m: map<Cluster, V>, evidence: seq<Evidence>, e: Evidence, of: Evidence -> V)
    requires KeepsPerCluster(m, evidence, of) && e in evidence
    ensures KeepsPerCluster(m, evidence + [e], of)
  {
    assert forall x :: x in evidence + [e] <==> x in evidence;
  }

  lemma {:induction false} RepeatDescribes(t: Tables, evidence: seq<Evidence>, e: Evidence)
    requires Describes(t, evidence) && e in evidence
    ensures Describes(Add(t, e), evidence + [e])
  {
    assert forall x :: x in evidence + [e] <==> x in evidence;
    SameMembersKeep(t.partitions, evidence, e, PARTITION_OF);
    SameMembersKeep(t.visibility, evidence, e, VISIBILITY_OF);
    CollectsRepeat(t.reasons, evidence, e);
  }

  lemma {:induction false} NewDescribes(t: Tables, evidence: seq<Evidence>, e: Evidence)
    requires Describes(t, evidence) && e.Key() !in t.keyed
    requires forall x :: x in evidence ==> Agree(x, e)
    ensures Describes(Add(t, e), evidence + [e])
  {
    assert forall x :: x in evidence && x.cluster == e.cluster ==> Agree(x, e);
    KeysOneMore(t.keyed, evidence, e);
    KeepsOneMore(t.partitions, evidence, e, PARTITION_OF);
    KeepsOneMore(t.visibility, evidence, e, VISIBILITY_OF);
    CollectsOneMore(t.reasons, evidence, e);
    AddShape(t, e);
  }

  lemma {:induction false} AddDescribes(t: Tables, evidence: seq<Evidence>, e: Evidence)
    requires Describes(t, evidence)
    requires forall x :: x in evidence ==> Agree(x, e)
    ensures Describes(Add(t, e), evidence + [e])
  {
    if e.Key() in t.keyed {
      assert Agree(t.keyed[e.Key()], e);
      RepeatDescribes(t, evidence, e);
    } else {
      NewDescribes(t, evidence, e);
    }
  }

  lemma {:induction false} LastAgrees(front: seq<Evidence>, e: Evidence)
    requires Coherent(front + [e])
    ensures Coherent(front) && forall x :: x in front ==> Agree(x, e)
  {
    var all := front + [e];
    forall i, j | 0 <= i < j < |front| ensures Agree(front[i], front[j]) {
      assert Agree(all[i], all[j]);
    }
    forall i | 0 <= i < |front| ensures Agree(front[i], e) {
      assert Agree(all[i], all[|front|]);
    }
  }

  lemma {:induction false} FillExtends(evidence: seq<Evidence>, e: Evidence)
    ensures Fill(evidence + [e]) == Add(Fill(evidence), e)
  {
    var all := evidence + [e];
    assert all[..|all| - 1] == evidence && all[|all| - 1] == e;
  }

  /** Coherent evidence is all that its tables say, in whatever order it came. */
  lemma {:induction false} CoherentIsDescribed(evidence: seq<Evidence>)
    requires Coherent(evidence)
    ensures Describes(Fill(evidence), evidence)
  {
    if evidence != [] {
      var front, e := evidence[..|evidence| - 1], evidence[|evidence| - 1];
      SplitLast(evidence);
      LastAgrees(front, e);
      CoherentIsDescribed(front);
      AddDescribes(Fill(front), front, e);
      FillExtends(front, e);
    }
  }

  lemma {:induction false} ConsistentExtends(front: seq<Evidence>, e: Evidence)
    requires Consistent(front) && forall x :: x in front ==> Compatible(x, e)
    ensures Consistent(front + [e])
  {
    var all := front + [e];
    forall i, j | 0 <= i < j < |all| ensures Compatible(all[i], all[j]) {
      assert all[i] == front[i] && front[i] in front;
      if j < |front| { assert all[j] == front[j]; }
    }
  }

  lemma {:induction false} AddKeepsReasons(t: Tables, e: Evidence)
    ensures t.reasons <= Add(t, e).reasons
  {
  }

  lemma {:induction false} FirstConflictIsReported(front: seq<Evidence>, e: Evidence)
    requires Consistent(front) && !Consistent(front + [e])
    ensures Add(Fill(front), e).reasons != {}
  {
    ConsistentIsCoherent(front);
    CoherentIsDescribed(front);
    if forall x :: x in front ==> Compatible(x, e) { ConsistentExtends(front, e); }
    var x :| x in front && !Compatible(x, e);
    ReportsConflict(Fill(front), front, x, e);
  }

  /** Inconsistent evidence always leaves a reason behind. */
  lemma {:induction false} InconsistentIsReported(evidence: seq<Evidence>)
    requires !Consistent(evidence)
    ensures Fill(evidence).reasons != {}
  {
    var front, e := evidence[..|evidence| - 1], evidence[|evidence| - 1];
    SplitLast(evidence);
    FillExtends(front, e);
    if Consistent(front) {
      FirstConflictIsReported(front, e);
    } else {
      InconsistentIsReported(front);
      AddKeepsReasons(Fill(front), e);
    }
  }

  lemma {:induction false} ReportsConflict(t: Tables, front: seq<Evidence>, x: Evidence, e: Evidence)
    requires Describes(t, front) && x in front && !Compatible(x, e)
    ensures Add(t, e).reasons != {}
  {
    if e.Key() in t.keyed {
      assert DuplicateVariant(e.cluster, e.variant) in Add(t, e).reasons;
    } else if x.partition != e.partition {
      assert CrossesPartitions(e.cluster) in Add(t, e).reasons;
    } else {
      assert VisibilityMismatch(e.cluster) in Add(t, e).reasons;
    }
  }

  // ---- order independence ------------------------------------------------------------------------

  lemma {:induction false} TwoPlaces<T>(s: seq<T>, i: nat, j: nat)
    requires i < j < |s| && s[i] == s[j]
    ensures 2 <= multiset(s)[s[i]]
  {
    assert s == s[..j] + s[j..];
    assert s[..j][i] == s[i] && s[j..][0] == s[j];
    assert s[i] in multiset(s[..j]) && s[j] in multiset(s[j..]);
  }

  lemma {:induction false} TwoOccurrences<T>(s: seq<T>, x: T) returns (i: nat, j: nat)
    requires 2 <= multiset(s)[x]
    ensures i < j < |s| && s[i] == s[j] == x
  {
    assert x in multiset(s);
    j :| 0 <= j < |s| && s[j] == x;
    var others := s[..j] + s[j + 1..];
    assert s == s[..j] + [x] + s[j + 1..];
    assert multiset(s) == multiset(others) + multiset{x};
    assert x in multiset(others);
    i :| 0 <= i < |others| && others[i] == x;
    if j <= i {
      i, j := j, i + 1;
    }
  }

  lemma {:induction false} PermutedStaysCoherent(a: seq<Evidence>, b: seq<Evidence>)
    requires multiset(a) == multiset(b) && Coherent(a)
    ensures Coherent(b)
  {
    forall i, j | 0 <= i < j < |b| ensures Agree(b[i], b[j]) {
      assert b[i] in multiset(b) && b[j] in multiset(b);
      var k :| 0 <= k < |a| && a[k] == b[i];
      var m :| 0 <= m < |a| && a[m] == b[j];
      if k < m { assert Agree(a[k], a[m]); } else if m < k { assert Agree(a[m], a[k]); }
    }
  }

  lemma {:induction false} PermutedRepeats(a: seq<Evidence>, b: seq<Evidence>, r: Reason)
    requires multiset(a) == multiset(b) && Coherent(a) && Repeats(a, r)
    ensures Repeats(b, r)
  {
    var i, j :| 0 <= i < j < |a| && a[i].Key() == a[j].Key() == (r.c, r.v);
    assert Agree(a[i], a[j]);
    TwoPlaces(a, i, j);
    var k, m := TwoOccurrences(b, a[i]);
  }

  lemma {:induction false} KeyedIsUnique(
      s: map<(Cluster, Variant), Evidence>, t: map<(Cluster, Variant), Evidence>, a: seq<Evidence>, b: seq<Evidence>)
    requires KeysEvidence(s, a) && KeysEvidence(t, b) && forall e :: e in a <==> e in b
    ensures s == t
  {
    forall k ensures k in s <==> k in t {
      if k in s { assert s[k] in b; }
      if k in t { assert t[k] in a; }
    }
    forall k | k in s ensures s[k] == t[k] { assert s[k] in b; }
  }

  lemma {:induction false} PerClusterIsUnique<V>(
      s: map<Cluster, V>, t: map<Cluster, V>, a: seq<Evidence>, b: seq<Evidence>, of: Evidence -> V)
    requires KeepsPerCluster(s, a, of) && KeepsPerCluster(t, b, of) && forall e :: e in a <==> e in b
    ensures s == t
  {
    forall c | c in s ensures c in t && s[c] == t[c] {
      var e :| e in a && e.cluster == c;
      assert e in b;
    }
    forall c | c in t ensures c in s {
      var e :| e in b && e.cluster == c;
      assert e in a;
    }
  }

  lemma {:induction false} ReasonsAreKept(s: set<Reason>, t: set<Reason>, a: seq<Evidence>, b: seq<Evidence>)
    requires multiset(a) == multiset(b) && Coherent(a) && CollectsReasons(s, a) && CollectsReasons(t, b)
    ensures s <= t
  {
    forall r | r in s ensures r in t {
      if Repeats(a, r) {
        PermutedRepeats(a, b, r);
      } else {
        var e :| e in a && r in ItemReasons(e);
        assert e in multiset(b);
      }
    }
  }

  // ---- the hashed rows ----------------------------------------------------------------------------

  predicate SameKey(a: HashRow, b: HashRow) {
    a.cluster == b.cluster && a.variant == b.variant
  }

  /** In key order, and the rows of one key are all the same. */
  predicate RowsOrdered(rows: seq<HashRow>) {
    forall i, j :: 0 <= i < j < |rows| ==> RowBefore(rows[i], rows[j]) || rows[i] == rows[j]
  }

  lemma {:induction false} InsertionAdds(rows: seq<HashRow>, row: HashRow)
    ensures multiset(InsertRow(rows, row)) == multiset(rows) + multiset{row}
  {
    if rows != [] {
      var n := |rows| - 1;
      SplitLast(rows);
      if RowBefore(row, rows[n]) {
        InsertionAdds(rows[..n], row);
        assert multiset(rows) == multiset(rows[..n]) + multiset{rows[n]};
      }
    }
  }

  lemma {:induction false} InsertKeepsOrdered(rows: seq<HashRow>, row: HashRow)
    requires RowsOrdered(rows) && forall r :: r in rows && SameKey(r, row) ==> r == row
    ensures RowsOrdered(InsertRow(rows, row))
  {
    if rows != [] {
      var n := |rows| - 1;
      var front := rows[..n];
      SplitLast(rows);
      if RowBefore(row, rows[n]) {
        InsertKeepsOrdered(front, row);
        InsertionAdds(front, row);
        var inserted := InsertRow(front, row);
        forall i | 0 <= i < |inserted| ensures RowBefore(inserted[i], rows[n]) || inserted[i] == rows[n] {
          assert inserted[i] in multiset(inserted);
          if inserted[i] != row { assert inserted[i] in front; }
        }
      } else {
        assert rows[n] in rows;
        forall i | 0 <= i < |rows| ensures RowBefore(rows[i], row) || rows[i] == row {
          assert rows[i] in rows;
        }
      }
    }
  }

  function RowsIn(evidence: seq<Evidence>): seq<HashRow> {
    seq(|evidence|, i requires 0 <= i < |evidence| => RowOf(evidence[i]))
  }

  function Without<T>(s: seq<T>, k: nat): seq<T>
    requires k < |s|
  {
    s[..k] + s[k + 1..]
  }

  lemma {:induction false} OneWithout<T>(s: seq<T>, k: nat)
    requires k < |s|
    ensures multiset(s) == multiset(Without(s, k)) + multiset{s[k]}
  {
    assert s == s[..k] + [s[k]] + s[k + 1..];
  }

  lemma {:induction false} RowsWithout(s: seq<Evidence>, k: nat)
    requires k < |s|
    ensures multiset(RowsIn(s)) == multiset(RowsIn(Without(s, k))) + multiset{RowOf(s[k])}
  {
    OneWithout(RowsIn(s), k);
    assert Without(RowsIn(s), k) == RowsIn(Without(s, k));
  }

  lemma {:induction false} SameRest<T>(a: multiset<T>, b: multiset<T>, x: T)
    requires a + multiset{x} == b + multiset{x}
    ensures a == b
  {
    assert a == (a + multiset{x}) - multiset{x} && b == (b + multiset{x}) - multiset{x};
  }

  lemma {:induction false} HashRowsAreTheRows(evidence: seq<Evidence>)
    ensures multiset(HashRows(evidence)) == multiset(RowsIn(evidence))
  {
    if evidence != [] {
      var n := |evidence| - 1;
      HashRowsAreTheRows(evidence[..n]);
      InsertionAdds(HashRows(evidence[..n]), RowOf(evidence[n]));
      RowsWithout(evidence, n);
      assert Without(evidence, n) == evidence[..n];
    }
  }

  lemma {:induction false} HashRowsAreOrdered(evidence: seq<Evidence>)
    requires Coherent(evidence)
    ensures RowsOrdered(HashRows(evidence))
  {
    if evidence != [] {
      var n := |evidence| - 1;
      var front, e := evidence[..n], evidence[n];
      SplitLast(evidence);
      LastAgrees(front, e);
      HashRowsAreOrdered(front);
      HashRowsAreTheRows(front);
      forall r | r in HashRows(front) && SameKey(r, RowOf(e)) ensures r == RowOf(e) {
        assert r in multiset(RowsIn(front));
        var i :| 0 <= i < n && RowsIn(front)[i] == r;
        assert front[i] in front && Agree(front[i], e);
      }
      InsertKeepsOrdered(HashRows(front), RowOf(e));
    }
  }

  /** Rows permute with their evidence. */
  lemma {:induction false} PermutedRows(a: seq<Evidence>, b: seq<Evidence>)
    requires multiset(a) == multiset(b)
    ensures multiset(RowsIn(a)) == multiset(RowsIn(b))
    decreases |a|
  {
    assert |a| == |multiset(a)| == |multiset(b)| == |b|;
    if a != [] {
      var n := |a| - 1;
      assert a[n] in multiset(b);
      var k :| 0 <= k < |b| && b[k] == a[n];
      OneWithout(a, n);
      OneWithout(b, k);
      SameRest(multiset(Without(a, n)), multiset(Without(b, k)), a[n]);
      PermutedRows(Without(a, n), Without(b, k));
      RowsWithout(a, n);
      RowsWithout(b, k);
    }
  }

  lemma {:induction false} LastIsGreatest(a: seq<HashRow>, b: seq<HashRow>)
    requires RowsOrdered(a) && RowsOrdered(b) && a != [] && multiset(a) == multiset(b)
    ensures b != [] && a[|a| - 1] == b[|b| - 1]
  {
    assert a[|a| - 1] in multiset(b);
    assert b[|b| - 1] in multiset(a);
    var i :| 0 <= i < |b| && b[i] == a[|a| - 1];
    var j :| 0 <= j < |a| && a[j] == b[|b| - 1];
  }

  lemma {:induction false} OrderedRowsAreUnique(a: seq<HashRow>, b: seq<HashRow>)
    requires RowsOrdered(a) && RowsOrdered(b) && multiset(a) == multiset(b)
    ensures a == b
  {
    assert |a| == |multiset(a)| == |multiset(b)| == |b|;
    if a != [] {
      LastIsGreatest(a, b);
      SplitLast(a);
      SplitLast(b);
      assert multiset(a[..|a| - 1]) == multiset(a) - multiset{a[|a| - 1]};
      assert multiset(b[..|b| - 1]) == multiset(b) - multiset{b[|b| - 1]};
      OrderedRowsAreUnique(a[..|a| - 1], b[..|b| - 1]);
    }
  }

  lemma {:induction false} TablesIgnoreOrder(a: seq<Evidence>, b: seq<Evidence>)
    requires multiset(a) == multiset(b) && Coherent(a) && Coherent(b)
    ensures Fill(a) == Fill(b)
  {
    CoherentIsDescribed(a);
    CoherentIsDescribed(b);
    forall e ensures e in a <==> e in b { assert e in multiset(a) <==> e in multiset(b); }
    KeyedIsUnique(Fill(a).keyed, Fill(b).keyed, a, b);
    PerClusterIsUnique(Fill(a).partitions, Fill(b).partitions, a, b, PARTITION_OF);
    PerClusterIsUnique(Fill(a).visibility, Fill(b).visibility, a, b, VISIBILITY_OF);
    ReasonsAreKept(Fill(a).reasons, Fill(b).reasons, a, b);
    ReasonsAreKept(Fill(b).reasons, Fill(a).reasons, b, a);
  }

  /** Without conflicting rows the whole report, its hash included, is the same whatever
      the order of the evidence; a row that is given twice does not matter. */
  lemma {:induction false} ReportIgnoresOrder(a: seq<Evidence>, b: seq<Evidence>)
    requires multiset(a) == multiset(b) && Coherent(a)
    ensures Assess(a) == Assess(b)
  {
    PermutedStaysCoherent(a, b);
    TablesIgnoreOrder(a, b);
    HashRowsAreOrdered(a);
    HashRowsAreOrdered(b);
    HashRowsAreTheRows(a);
    HashRowsAreTheRows(b);
    PermutedRows(a, b);
    OrderedRowsAreUnique(HashRows(a), HashRows(b));
  }

  lemma {:induction false} AcceptedMeansConsistent(evidence: seq<Evidence>)
    requires Assess(evidence).core.accepted
    ensures Consistent(evidence)
  {
    assert Fill(evidence).reasons <= Assess(evidence).core.reasons;
    if !Consistent(evidence) { InconsistentIsReported(evidence); }
  }

  /** Reordering the evidence never changes whether it is accepted. */
  lemma {:induction false} AcceptanceIgnoresOrder(a: seq<Evidence>, b: seq<Evidence>)
    requires multiset(a) == multiset(b)
    ensures Assess(a).core.accepted == Assess(b).core.accepted
  {
    if Assess(a).core.accepted {
      AcceptedMeansConsistent(a);
      ConsistentIsCoherent(a);
      ReportIgnoresOrder(a, b);
    } else if Assess(b).core.accepted {
      AcceptedMeansConsistent(b);
      ConsistentIsCoherent(b);
      ReportIgnoresOrder(b, a);
    }
  }

  // ---- where the order shows -----------------------------------------------------------------------

  /** The rows of one key, in order. */
  function OfKey(rows: seq<HashRow>, c: Cluster, v: Variant): seq<HashRow> {
    if rows == [] then []
    else
      var last := rows[|rows| - 1];
      OfKey(rows[..|rows| - 1], c, v) + (if last.cluster == c && last.variant == v then [last] else [])
  }

  lemma {:induction false} OfKeyJoins(a: seq<HashRow>, b: seq<HashRow>, c: Cluster, v: Variant)
    ensures OfKey(a + b, c, v) == OfKey(a, c, v) + OfKey(b, c, v)
  {
    if b == [] {
      assert a + b == a;
    } else {
      var n := |b| - 1;
      assert (a + b)[..|a + b| - 1] == a + b[..n];
      OfKeyJoins(a, b[..n], c, v);
    }
  }

  /** Insertion is stable: the rows of a key keep the order in which they came. */
  lemma {:induction false} InsertionIsStable(rows: seq<HashRow>, row: HashRow, c: Cluster, v: Variant)
    ensures OfKey(InsertRow(rows, row), c, v) == OfKey(rows + [row], c, v)
  {
    OfKeyJoins(rows, [row], c, v);
    if rows != [] && RowBefore(row, rows[|rows| - 1]) {
      var front, last := rows[..|rows| - 1], rows[|rows| - 1];
      InsertionIsStable(front, row, c, v);
      OfKeyJoins(front, [row], c, v);
      OfKeyJoins(InsertRow(front, row), [last], c, v);
    }
  }

  lemma {:induction false} HashRowsAreStable(evidence: seq<Evidence>, c: Cluster, v: Variant)
    ensures OfKey(HashRows(evidence), c, v) == OfKey(RowsIn(evidence), c, v)
  {
    if evidence != [] {
      var n := |evidence| - 1;
      var rows := HashRows(evidence[..n]);
      HashRowsAreStable(evidence[..n], c, v);
      InsertionIsStable(rows, RowOf(evidence[n]), c, v);
      OfKeyJoins(rows, [RowOf(evidence[n])], c, v);
      OfKeyJoins(RowsIn(evidence[..n]), [RowOf(evidence[n])], c, v);
      assert RowsIn(evidence) == RowsIn(evidence[..n]) + [RowOf(evidence[n])];
    }
  }

  function Swapped(s: seq<Evidence>, i: nat, j: nat): seq<Evidence>
    requires i < j < |s|
  {
    s[i := s[j]][j := s[i]]
  }

  lemma {:induction false} SwappedIsPermuted(s: seq<Evidence>, i: nat, j: nat)
    requires i < j < |s|
    ensures multiset(Swapped(s, i, j)) == multiset(s) && Swapped(s, i, j)[..i] == s[..i]
  {
  }

  /** The first row of a key after a common beginning. */
  lemma {:induction false} FirstAfter(s: seq<Evidence>, i: nat, c: Cluster, v: Variant)
    requires i < |s| && s[i].Key() == (c, v)
    ensures var before := OfKey(RowsIn(s[..i]), c, v); var all := OfKey(RowsIn(s), c, v);
      |before| < |all| && all[|before|] == RowOf(s[i])
  {
    assert RowsIn(s) == RowsIn(s[..i]) + ([RowOf(s[i])] + RowsIn(s[i + 1..]));
    OfKeyJoins(RowsIn(s[..i]), [RowOf(s[i])] + RowsIn(s[i + 1..]), c, v);
    OfKeyJoins([RowOf(s[i])], RowsIn(s[i + 1..]), c, v);
    assert OfKey([RowOf(s[i])], c, v) == [RowOf(s[i])];
  }

  /** Exchanging two different rows of one key changes the hash. */
  lemma {:induction false} DuplicatesRevealOrder(s: seq<Evidence>, i: nat, j: nat)
    requires i < j < |s| && s[i].Key() == s[j].Key() && RowOf(s[i]) != RowOf(s[j])
    ensures multiset(Swapped(s, i, j)) == multiset(s) && Assess(Swapped(s, i, j)) != Assess(s)
    ensures !Assess(s).core.accepted && !Assess(Swapped(s, i, j)).core.accepted
  {
    var b, c, v := Swapped(s, i, j), s[i].cluster, s[i].variant;
    SwappedIsPermuted(s, i, j);
    FirstAfter(s, i, c, v);
    FirstAfter(b, i, c, v);
    HashRowsAreStable(s, c, v);
    HashRowsAreStable(b, c, v);
    assert !Compatible(s[i], s[j]) && !Consistent(s);
    if Assess(s).core.accepted { AcceptedMeansConsistent(s); }
    AcceptanceIgnoresOrder(s, b);
  }

  function MovedFirst(s: seq<Evidence>, i: nat): seq<Evidence>
    requires i < |s|
  {
    [s[i]] + s[..i] + s[i + 1..]
  }

  lemma {:induction false} MovedFirstIsPermuted(s: seq<Evidence>, i: nat)
    requires i < |s|
    ensures multiset(MovedFirst(s, i)) == multiset(s)
  {
    assert s == s[..i] + [s[i]] + s[i + 1..];
  }

  lemma {:induction false} FirstRowFiles(s: seq<Evidence>)
    requires s != []
    ensures s[0].cluster in Fill(s).partitions && Fill(s).partitions[s[0].cluster] == s[0].partition
  {
    SplitLast(s);
    var front := s[..|s| - 1];
    if front == [] {
      assert Fill(front) == NO_TABLES;
    } else {
      FirstRowFiles(front);
    }
  }

  lemma {:induction false} FirstRowDecides(s: seq<Evidence>)
    requires s != []
    ensures s[0].cluster in Assess(s).core.train <==> s[0].partition == Train
  {
    FirstRowFiles(s);
  }

  /** A cluster that crosses partitions is reported in the partition of its first row,
      so the report depends on which of them that is. */
  lemma {:induction false} CrossingRevealsOrder(s: seq<Evidence>, i: nat, j: nat) returns (b: seq<Evidence>)
    requires i < j < |s| && s[i].cluster == s[j].cluster && s[i].partition != s[j].partition
    ensures multiset(b) == multiset(s) && Assess(b) != Assess(s)
    ensures !Assess(s).core.accepted && !Assess(b).core.accepted
  {
    var x, y := MovedFirst(s, i), MovedFirst(s, j);
    MovedFirstIsPermuted(s, i);
    MovedFirstIsPermuted(s, j);
    FirstRowDecides(x);
    FirstRowDecides(y);
    b := if Assess(x) != Assess(s) then x else y;
    assert !Compatible(s[i], s[j]) && !Consistent(s);
    if Assess(s).core.accepted { AcceptedMeansConsistent(s); }
    AcceptanceIgnoresOrder(s, b);
  }

  /** Equal hash rows are hashes of equal evidence, and a cluster has one visibility. */
  predicate HashesTell(s: seq<Evidence>) {
    && (forall i, j :: 0 <= i < j < |s| && RowOf(s[i]) == RowOf(s[j]) ==> s[i] == s[j])
    && (forall i, j :: 0 <= i < j < |s| && s[i].cluster == s[j].cluster ==> s[i].visibleAt == s[j].visibleAt)
  }

  /** Where the visibilities agree, the report is the same in every order exactly when
      no variant has two different rows and no cluster crosses partitions. */
  lemma {:induction false} ReportIgnoresOrderIff(s: seq<Evidence>)
    requires HashesTell(s)
    ensures (forall b :: multiset(b) == multiset(s) ==> Assess(b) == Assess(s)) <==> Coherent(s)
  {
    if Coherent(s) {
      forall b | multiset(b) == multiset(s) ensures Assess(b) == Assess(s) { ReportIgnoresOrder(s, b); }
    } else {
      var i, j :| 0 <= i < j < |s| && !Agree(s[i], s[j]);
      if s[i].cluster == s[j].cluster && s[i].partition != s[j].partition {
        var b := CrossingRevealsOrder(s, i, j);
      } else {
        DuplicatesRevealOrder(s, i, j);
      }
    }
  }

  // ---- what every report satisfies, and what acceptance means ------------------------------------

  lemma {:induction false} ContributionsAreWeights(t: Tables, cs: seq<Cluster>)
    ensures forall x :: x in Contributions(t, cs) ==> 0.0 <= x
  {
    if cs != [] { ContributionsAreWeights(t, cs[..|cs| - 1]); }
  }

  lemma {:induction false} MaxWithinSum(values: seq<real>)
    requires values != [] && forall x :: x in values ==> 0.0 <= x
    ensures forall x :: x in values ==> x <= MaxOf(values)
    ensures 0.0 <= MaxOf(values) <= SumOf(values)
  {
    var front, last := values[..|values| - 1], values[|values| - 1];
    SplitLast(values);
    assert last in values;
    if front == [] {
      assert SumOf(front) == 0.0;
    } else {
      assert forall x :: x in front ==> x in values;
      MaxWithinSum(front);
    }
  }

  lemma {:induction false} ShareIsAFraction(values: seq<real>)
    requires forall x :: x in values ==> 0.0 <= x
    ensures var share := Share(values);
      share.Some? ==> 0.0 <= share.value <= 1.0
  {
    if Share(values).Some? {
      MaxWithinSum(values);
      FractionBounds(MaxOf(values), SumOf(values));
    }
  }

  lemma {:induction false} FractionBounds(most: real, sum: real)
    requires 0.0 <= most <= sum && 0.0 < sum
    ensures 0.0 <= most / sum <= 1.0
  {
  }

  /** Every report the gate computes satisfies its own constructor. */
  lemma {:induction false} ReportsAlwaysConstruct(evidence: seq<Evidence>)
    ensures Constructible(Assess(evidence))
  {
    var t := Fill(evidence);
    var core := Assess(evidence).core;
    ContributionsAreWeights(t, core.test);
    ShareIsAFraction(Contributions(t, core.test));
    assert GateReasons(t, core.train, core.test) <= core.reasons;
    if core.accepted && core.beaten == {} {
      forall v | v in BASELINES ensures !Beats(t, core.test, v) { assert v !in core.beaten; }
      assert NoBaselineBeaten in GateReasons(t, core.train, core.test);
    }
  }

  lemma {:induction false} NoGateReasons(t: Tables, train: seq<Cluster>, test: seq<Cluster>)
    requires GateReasons(t, train, test) == {}
    ensures !WalkForwardBroken(t) && ClusterReasons(t, train + test) == {}
    ensures var share := Share(Contributions(t, test)); share.Some? && share.value <= HALF
  {
    var all := GateReasons(t, train, test);
    assert WalkForwardInvalid !in all && DominanceNotCleared !in all;
    assert ClusterReasons(t, train + test) <= all;
  }

  lemma {:induction false} AcceptedMeansNoReasons(evidence: seq<Evidence>)
    requires Assess(evidence).core.accepted
    ensures Describes(Fill(evidence), evidence) && Fill(evidence).reasons == {}
    ensures var t := Fill(evidence); var train, test := Sorted(ClustersIn(t, Train)), Sorted(ClustersIn(t, Test));
      Assess(evidence).core.test == test && GateReasons(t, train, test) == {}
  {
    AcceptedMeansConsistent(evidence);
    ConsistentIsCoherent(evidence);
    CoherentIsDescribed(evidence);
    var core := Assess(evidence).core;
    assert core.reasons == Fill(evidence).reasons + GateReasons(Fill(evidence), core.train, core.test);
  }

  lemma {:induction false} AcceptedItemsAreClear(evidence: seq<Evidence>, e: Evidence)
    requires Assess(evidence).core.accepted && e in evidence
    ensures ItemReasons(e) == {}
  {
    AcceptedMeansNoReasons(evidence);
    assert CollectsReasons(Fill(evidence).reasons, evidence);
  }

  lemma {:induction false} ItsClusterIsFiled(t: Tables, evidence: seq<Evidence>, e: Evidence)
    requires Describes(t, evidence) && e in evidence
    ensures e.cluster in ClustersIn(t, e.partition)
    ensures e.cluster in t.visibility && t.visibility[e.cluster] == e.visibleAt
    ensures e.Key() in t.keyed && t.keyed[e.Key()] == e
  {
    assert t.partitions[e.cluster] == PARTITION_OF(e) && t.visibility[e.cluster] == VISIBILITY_OF(e);
  }

  /** Accepted evidence never trains on what it tests: every training event was visible
      strictly before every test event. */
  lemma {:induction false} AcceptedIsWalkForward(evidence: seq<Evidence>, a: Evidence, b: Evidence)
    requires Assess(evidence).core.accepted
    requires a in evidence && b in evidence && a.partition == Train && b.partition == Test
    ensures a.visibleAt < b.visibleAt
  {
    AcceptedMeansNoReasons(evidence);
    var t := Fill(evidence);
    NoGateReasons(t, Sorted(ClustersIn(t, Train)), Sorted(ClustersIn(t, Test)));
    ItsClusterIsFiled(t, evidence, a);
    ItsClusterIsFiled(t, evidence, b);
  }

  lemma {:induction false} EveryVariantListed(v: Variant)
    ensures v in VARIANTS
  {
    assert VARIANTS[0] == EventReasoning && VARIANTS[1] == Sentiment && VARIANTS[2] == Momentum;
    assert VARIANTS[3] == FixedMapping && VARIANTS[4] == SimpleHold;
  }

  lemma {:induction false} ClusterReasonsInclude(t: Tables, cs: seq<Cluster>, c: Cluster)
    requires c in cs
    ensures ClusterReason(t, c) <= ClusterReasons(t, cs)
  {
    SplitLast(cs);
    if c != cs[|cs| - 1] { ClusterReasonsInclude(t, cs[..|cs| - 1], c); }
  }

  lemma {:induction false} FiledClusterIsComparable(t: Tables, train: seq<Cluster>, test: seq<Cluster>, c: Cluster)
    requires ClusterReasons(t, train + test) == {} && (c in train || c in test)
    ensures Comparable(t, c)
  {
    ClusterReasonsInclude(t, train + test, c);
  }

  lemma {:induction false} ComparableHasAll(t: Tables, evidence: seq<Evidence>, e: Evidence, v: Variant) returns (f: Evidence)
    requires Describes(t, evidence) && e in evidence && Comparable(t, e.cluster)
    ensures f in evidence && f.cluster == e.cluster && f.variant == v
    ensures ComparisonKey(f.first) == ComparisonKey(e.first)
  {
    EveryVariantListed(v);
    EveryVariantListed(e.variant);
    assert SameWindow(t, e.cluster, v) && SameWindow(t, e.cluster, e.variant);
    ItsClusterIsFiled(t, evidence, e);
    f := t.keyed[(e.cluster, v)];
    assert f in evidence && f.Key() == (e.cluster, v);
  }

  lemma {:induction false} ClearTablesCompare(t: Tables, train: seq<Cluster>, test: seq<Cluster>, c: Cluster)
    requires GateReasons(t, train, test) == {} && (c in train || c in test)
    ensures Comparable(t, c)
  {
    NoGateReasons(t, train, test);
    FiledClusterIsComparable(t, train, test, c);
  }

  lemma {:induction false} FiledIsListed(t: Tables, evidence: seq<Evidence>, e: Evidence)
    requires Describes(t, evidence) && e in evidence
    ensures e.cluster in Sorted(ClustersIn(t, Train)) || e.cluster in Sorted(ClustersIn(t, Test))
  {
    ItsClusterIsFiled(t, evidence, e);
  }

  /** In accepted evidence every cluster has every variant, run over the same window. */
  lemma {:induction false} AcceptedIsComparable(evidence: seq<Evidence>, e: Evidence, v: Variant) returns (f: Evidence)
    requires Assess(evidence).core.accepted && e in evidence
    ensures f in evidence && f.cluster == e.cluster && f.variant == v
    ensures ComparisonKey(f.first) == ComparisonKey(e.first)
  {
    AcceptedMeansNoReasons(evidence);
    var t := Fill(evidence);
    FiledIsListed(t, evidence, e);
    ClearTablesCompare(t, Sorted(ClustersIn(t, Train)), Sorted(ClustersIn(t, Test)), e.cluster);
    f := ComparableHasAll(Fill(evidence), evidence, e, v);
  }

  lemma {:induction false} ContributionIncluded(t: Tables, cs: seq<Cluster>, c: Cluster)
    requires c in cs && ReturnsFor(t, c, EventReasoning).Some?
    ensures Contribution(ReturnsFor(t, c, EventReasoning).value) in Contributions(t, cs)
  {
    SplitLast(cs);
    if c != cs[|cs| - 1] { ContributionIncluded(t, cs[..|cs| - 1], c); }
  }

  /** No single test event carries more than half of what all test events contribute. */
  lemma {:induction false} AcceptedIsNotDominated(evidence: seq<Evidence>, e: Evidence)
    requires Assess(evidence).core.accepted
    requires e in evidence && e.partition == Test && e.variant == EventReasoning
    ensures NetReturns(e.first).Some?
    ensures Contribution(NetReturns(e.first).value) <=
      HALF * SumOf(Contributions(Fill(evidence), Assess(evidence).core.test))
  {
    AcceptedMeansNoReasons(evidence);
    var t := Fill(evidence);
    var test := Sorted(ClustersIn(t, Test));
    NoGateReasons(t, Sorted(ClustersIn(t, Train)), test);
    AcceptedItemsAreClear(evidence, e);
    MetricsArePresent(e);
    ItsClusterIsFiled(t, evidence, e);
    ContributionIncluded(t, test, e.cluster);
    AtMostHalf(t, test, Contribution(NetReturns(e.first).value));
  }

  lemma {:induction false} MetricsArePresent(e: Evidence)
    requires ItemReasons(e) == {}
    ensures NetReturns(e.first).Some?
  {
    assert MetricsMissing(e.cluster, e.variant) !in ItemReasons(e);
  }

  lemma {:induction false} AtMostHalf(t: Tables, test: seq<Cluster>, x: real)
    requires x in Contributions(t, test)
    requires var share := Share(Contributions(t, test)); share.Some? && share.value <= HALF
    ensures x <= HALF * SumOf(Contributions(t, test))
  {
    ContributionsAreWeights(t, test);
    ShareAtMostHalf(Contributions(t, test), x);
  }

  lemma {:induction false} ShareAtMostHalf(values: seq<real>, x: real)
    requires x in values && forall y :: y in values ==> 0.0 <= y
    requires Share(values).Some? && Share(values).value <= HALF
    ensures x <= HALF * SumOf(values)
  {
    MaxWithinSum(values);
    var most, sum := MaxOf(values), SumOf(values);
    if HALF * sum < most {
      FractionAbove(most, sum);
    }
  }

  lemma {:induction false} FractionAbove(most: real, sum: real)
    requires 0.0 < sum && HALF * sum < most
    ensures HALF < most / sum
  {
  }

  /** Every accepted row was run twice, completely, at different times, with one result. */
  lemma {:induction false} AcceptedIsReproducible(evidence: seq<Evidence>, e: Evidence)
    requires Assess(evidence).core.accepted && e in evidence
    ensures e.first.completed && e.repeated.completed
    ensures e.first.requestHash == e.repeated.requestHash && e.first.resultHash == e.repeated.resultHash
    ensures e.first.metrics == e.repeated.metrics
    ensures e.first.run != e.repeated.run && e.first.executedAt != e.repeated.executedAt
    ensures e.first.request.event == e.cluster && e.first.request.asOf == e.visibleAt
  {
    AcceptedItemsAreClear(evidence, e);
    var c, v := e.cluster, e.variant;
    assert RepeatReasons(e) <= ItemReasons(e);
    assert NonCompletedRepeat(c, v) !in RepeatReasons(e) && RepeatRequestMismatch(c, v) !in RepeatReasons(e);
    assert NondeterministicRepeat(c, v) !in RepeatReasons(e) && RepeatRunReused(c, v) !in RepeatReasons(e);
    assert RepeatTimeReused(c, v) !in RepeatReasons(e);
    assert EventIdentityMismatch(c, v) !in ItemReasons(e) && AsOfMismatch(c, v) !in ItemReasons(e);
  }
}
