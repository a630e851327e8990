/** Skill manifests as a dependency graph: walks, cycles, reachability, and the two
    depth-first traversals, each over the sets it updates in place. */
module SkillGraph {
  import opened Base

  type Name = string

  datatype Skill = Skill(dependencies: seq<Name>, capabilities: set<Name>, conflicts: set<Name>)

  type Graph = map<Name, Skill>

  predicate Edge(g: Graph, a: Name, b: Name) {
    a in g && b in g[a].dependencies
  }

  predicate Closed(g: Graph) {
    forall a :: a in g ==> forall b :: b in g[a].dependencies ==> b in g
  }

  // ---- walks --------------------------------------------------------------------------------

  predicate Walk(g: Graph, p: seq<Name>) {
    p != [] && forall i :: 0 <= i < |p| - 1 ==> Edge(g, p[i], p[i + 1])
  }

  predicate WalkBetween(g: Graph, p: seq<Name>, a: Name, b: Name) {
    Walk(g, p) && p[0] == a && p[|p| - 1] == b
  }

  ghost predicate Reaches(g: Graph, a: Name, b: Name) {
    exists p :: WalkBetween(g, p, a, b)
  }

  /** A closed walk with at least one edge, through n. */
  ghost predicate OnCycle(g: Graph, n: Name) {
    exists b :: Edge(g, n, b) && Reaches(g, b, n)
  }

  ghost predicate Acyclic(g: Graph) {
    forall n :: n in g ==> !OnCycle(g, n)
  }

  ghost function Reach(g: Graph, a: Name): set<Name> {
    set b | b in g && Reaches(g, a, b)
  }

  lemma {:induction false} ReachesSelf(g: Graph, a: Name)
    ensures Reaches(g, a, a)
  {
    assert WalkBetween(g, [a], a, a);
  }

  lemma {:induction false} StepThenReach(g: Graph, a: Name, b: Name, c: Name)
    requires Edge(g, a, b) && Reaches(g, b, c)
    ensures Reaches(g, a, c)
  {
    var p :| WalkBetween(g, p, b, c);
    var q := [a] + p;
    forall i | 0 <= i < |q| - 1 ensures Edge(g, q[i], q[i + 1]) {
      if 0 < i { assert Edge(g, p[i - 1], p[i]); }
    }
    assert WalkBetween(g, q, a, c);
  }

  lemma {:induction false} FirstStep(g: Graph, a: Name, c: Name)
    requires Reaches(g, a, c) && a != c
    ensures exists b :: Edge(g, a, b) && Reaches(g, b, c)
  {
    var p :| WalkBetween(g, p, a, c);
    assert Edge(g, p[0], p[1]);
    forall i | 0 <= i < |p[1..]| - 1 ensures Edge(g, p[1..][i], p[1..][i + 1]) {
      assert Edge(g, p[i + 1], p[i + 2]);
    }
    assert WalkBetween(g, p[1..], p[1], c);
  }

  /** A dependency reaches strictly less than its dependant: no traversal can go on for ever. */
  lemma {:induction false} DependencyReachesLess(g: Graph, a: Name, b: Name)
    requires Closed(g) && Acyclic(g) && Edge(g, a, b)
    ensures Reach(g, b) < Reach(g, a) && a !in Reach(g, b)
  {
    ReachesSelf(g, a);
    forall c | c in Reach(g, b) ensures c in Reach(g, a) { StepThenReach(g, a, b, c); }
    assert !OnCycle(g, a);
    assert a in Reach(g, a) && !Reaches(g, b, a);
  }

  lemma {:induction false} ReachIsOneStepOrSelf(g: Graph, a: Name, c: Name)
    requires a in g
    ensures c in Reach(g, a) <==> c == a || exists b :: Edge(g, a, b) && c in Reach(g, b)
  {
    ReachesSelf(g, a);
    if c in g && Reaches(g, a, c) && c != a { FirstStep(g, a, c); }
    if b :| Edge(g, a, b) && c in Reach(g, b) { StepThenReach(g, a, b, c); }
  }

  // ---- orders in which every skill comes after its dependencies --------------------------------

  predicate DependenciesFirst(g: Graph, f: seq<Name>) {
    forall i :: 0 <= i < |f| ==> f[i] in g && forall b :: b in g[f[i]].dependencies ==> b in f[..i]
  }

  function Members(f: seq<Name>): set<Name> {
    set n | n in f
  }

  lemma {:induction false} OrderExtends(g: Graph, f: seq<Name>, name: Name)
    requires DependenciesFirst(g, f) && name in g
    requires forall b :: b in g[name].dependencies ==> b in f
    ensures DependenciesFirst(g, f + [name])
  {
    var longer := f + [name];
    forall i | 0 <= i < |longer|
      ensures longer[i] in g && forall b :: b in g[longer[i]].dependencies ==> b in longer[..i]
    {
      if i < |f| {
        assert longer[..i] == f[..i];
      } else {
        assert longer[..i] == f;
      }
    }
  }

  /** In such an order everything reachable comes no later. */
  lemma {:induction false} ReachableComesEarlier(g: Graph, f: seq<Name>, p: seq<Name>, i: nat)
    requires DependenciesFirst(g, f) && i < |f| && Walk(g, p) && p[0] == f[i]
    ensures p[|p| - 1] in f[..i + 1]
    ensures 1 < |p| ==> p[|p| - 1] in f[..i]
    decreases |p|
  {
    if 1 < |p| {
      assert Edge(g, p[0], p[1]);
      var j :| 0 <= j < i && f[j] == p[1];
      assert Walk(g, p[1..]) by {
        forall k | 0 <= k < |p[1..]| - 1 ensures Edge(g, p[1..][k], p[1..][k + 1]) {
          assert Edge(g, p[k + 1], p[k + 2]);
        }
      }
      ReachableComesEarlier(g, f, p[1..], j);
      assert p[1..][|p[1..]| - 1] == p[|p| - 1];
    }
  }

  lemma {:induction false} OrderedMeansAcyclic(g: Graph, f: seq<Name>)
    requires Distinct(f) && DependenciesFirst(g, f) && g.Keys <= Members(f)
    ensures Acyclic(g)
  {
    forall n | n in g ensures !OnCycle(g, n) {
      assert n in Members(f);
      var i :| 0 <= i < |f| && f[i] == n;
      if OnCycle(g, n) {
        var b :| Edge(g, n, b) && Reaches(g, b, n);
        StepThenReach(g, n, b, n);
        var p :| WalkBetween(g, p, b, n);
        var j :| 0 <= j < i && f[j] == b;
        ReachableComesEarlier(g, f, p, j);
      }
    }
  }

  // ---- validation ------------------------------------------------------------------------------

  datatype Verdict = Valid | MissingDependency(dependant: Name) | DependencyCycle(through: Name)

  /** The depth-first visit: `visiting` is the current branch, `visited` is finished. */
  class DependencyVisit {
    const graph: Graph
    var visiting: set<Name>
    var visited: set<Name>
    ghost var finished: seq<Name>

    constructor (graph: Graph)
      ensures this.graph == graph && visiting == {} && Sound()
    {
      this.graph := graph;
      visiting, visited, finished := {}, {}, [];
    }

    ghost predicate Sound()
      reads this
    {
      && visited == Members(finished)
      && Distinct(finished) && DependenciesFirst(graph, finished)
      && visited !! visiting
    }

    /** `branch` is the walk from the first name visited to the caller of this visit. */
    method Visit(name: Name, ghost branch: seq<Name>) returns (cycle: Option<Name>)
      requires Closed(graph) && name in graph && Sound()
      requires visiting == Members(branch) && visiting <= graph.Keys
      requires branch == [] || Walk(graph, branch + [name])
      modifies this
      ensures cycle.None? ==> Sound() && visiting == old(visiting) && name in visited && old(visited) <= visited
      ensures cycle.Some? ==> cycle.value in graph && OnCycle(graph, cycle.value)
      decreases graph.Keys - visiting
    {
      if name in visiting {
        BranchReturns(graph, branch, name);
        return Some(name);
      }
      if name in visited { return None; }
      visiting := visiting + {name};
      ghost var deeper := branch + [name];
      var dependencies := graph[name].dependencies;
      for i := 0 to |dependencies|
        invariant Sound() && visiting == Members(deeper) && visiting == old(visiting) + {name}
        invariant old(visited) <= visited
        invariant forall b :: b in dependencies[..i] ==> b in visited
      {
        var b := dependencies[i];
        assert b in dependencies && Edge(graph, name, b);
        cycle := Visit(b, deeper);
        if cycle.Some? { return; }
      }
      visiting := visiting - {name};
      visited := visited + {name};
      assert forall b :: b in dependencies ==> b in finished by { TakeAll(dependencies); }
      OrderExtends(graph, finished, name);
      ghost var before := finished;
      finished := finished + [name];
      assert name in finished;
      assert forall n :: n in before ==> n in finished;
      cycle := None;
    }
  }

  lemma {:induction false} BranchReturns(g: Graph, branch: seq<Name>, name: Name)
    requires name in branch && Walk(g, branch + [name])
    ensures OnCycle(g, name)
  {
    var k :| 0 <= k < |branch| && branch[k] == name;
    var p := branch + [name];
    assert Edge(g, p[k], p[k + 1]);
    var q := p[k + 1..];
    forall i | 0 <= i < |q| - 1 ensures Edge(g, q[i], q[i + 1]) { assert Edge(g, p[k + 1 + i], p[k + 2 + i]); }
    assert WalkBetween(g, q, p[k + 1], name);
  }

  /** Missing dependencies are reported first; with none missing, a cycle is reported
      exactly when there is one. */
  method ValidateSkillDependencies(g: Graph, names: seq<Name>) returns (verdict: Verdict)
    requires Members(names) == g.Keys
    ensures match verdict
      case Valid => Closed(g) && Acyclic(g)
      case MissingDependency(n) => n in g && exists b :: b in g[n].dependencies && b !in g
      case DependencyCycle(n) => Closed(g) && n in g && OnCycle(g, n)
  {
    for i := 0 to |names|
      invariant forall n :: n in names[..i] ==> n in g && forall b :: b in g[n].dependencies ==> b in g
    {
      assert names[i] in Members(names);
      var missing := set b | b in g[names[i]].dependencies && b !in g;
      if missing != {} {
        var b :| b in missing;
        return MissingDependency(names[i]);
      }
      forall b | b in g[names[i]].dependencies ensures b in g { assert b !in missing; }
      TakeNext(names, i);
    }
    assert Closed(g) by {
      forall a | a in g ensures forall b :: b in g[a].dependencies ==> b in g { assert a in Members(names); }
    }
    var visit := new DependencyVisit(g);
    for i := 0 to |names|
      invariant visit.graph == g && visit.Sound() && visit.visiting == {}
      invariant forall n :: n in names[..i] ==> n in visit.visited
    {
      assert names[i] in Members(names);
      var cycle := visit.Visit(names[i], []);
      if cycle.Some? { return DependencyCycle(cycle.value); }
    }
    assert forall n :: n in g ==> n in Members(names);
    OrderedMeansAcyclic(g, visit.finished);
    verdict := Valid;
  }

  // ---- closure -----------------------------------------------------------------------------------

  /** Everything reachable from the requested names. */
  ghost function ReachAll(g: Graph, names: seq<Name>): set<Name> {
    set b | b in g && exists k :: 0 <= k < |names| && Reaches(g, names[k], b)
  }

  /** The closure walk keeps no mark on the current branch. */
  class ClosureWalk {
    const graph: Graph
    var ordered: seq<Name>
    var seen: set<Name>

    constructor (graph: Graph)
      ensures this.graph == graph && ordered == [] && seen == {}
    {
      this.graph := graph;
      ordered, seen := [], {};
    }

    ghost predicate Sound()
      reads this
    {
      seen == Members(ordered) && Distinct(ordered) && DependenciesFirst(graph, ordered)
    }

    method Add(name: Name) returns (known: bool)
      requires Closed(graph) && Acyclic(graph) && Sound()
      modifies this
      ensures known <==> name in graph
      ensures Sound()
      ensures seen == old(seen) + Reach(graph, name)
      ensures old(ordered) <= ordered
      decreases Reach(graph, name)
    {
      if name in seen {
        SeenIsClosed(graph, ordered, name);
        return true;
      }
      if name !in graph {
        UnknownReachesNothing(graph, name);
        return false;
      }
      var dependencies := graph[name].dependencies;
      for i := 0 to |dependencies|
        invariant Sound() && old(ordered) <= ordered
        invariant seen == old(seen) + ReachAll(graph, dependencies[..i])
        invariant name !in seen
      {
        var b := dependencies[i];
        assert Edge(graph, name, b);
        DependencyReachesLess(graph, name, b);
        var _ := Add(b);
        ReachAllNext(graph, dependencies, i);
      }
      assert dependencies[..|dependencies|] == dependencies;
      ReachFromDependencies(graph, name);
      assert forall b :: b in dependencies ==> b in ordered by {
        forall b | b in dependencies ensures b in ordered {
          ReachesSelf(graph, b);
          assert b in ReachAll(graph, dependencies);
        }
      }
      OrderExtends(graph, ordered, name);
      seen := seen + {name};
      ordered := ordered + [name];
      known := true;
    }
  }

  lemma {:induction false} SeenIsClosed(g: Graph, f: seq<Name>, name: Name)
    requires DependenciesFirst(g, f) && name in f
    ensures Reach(g, name) <= Members(f)
  {
    var i :| 0 <= i < |f| && f[i] == name;
    forall b | b in Reach(g, name) ensures b in Members(f) {
      var p :| WalkBetween(g, p, name, b);
      ReachableComesEarlier(g, f, p, i);
    }
  }

  lemma {:induction false} UnknownReachesNothing(g: Graph, name: Name)
    requires name !in g
    ensures Reach(g, name) == {}
  {
    forall b | b in Reach(g, name) ensures false { FirstStep(g, name, b); }
  }

  lemma {:induction false} ReachAllNext(g: Graph, names: seq<Name>, i: nat)
    requires i < |names|
    ensures ReachAll(g, names[..i + 1]) == ReachAll(g, names[..i]) + Reach(g, names[i])
  {
    var longer := names[..i + 1];
    assert forall k :: 0 <= k < i ==> longer[k] == names[..i][k];
    assert longer[i] == names[i];
  }

  lemma {:induction false} ReachFromDependencies(g: Graph, a: Name)
    requires a in g
    ensures Reach(g, a) == {a} + ReachAll(g, g[a].dependencies)
  {
    var deps := g[a].dependencies;
    forall c ensures c in Reach(g, a) <==> c == a || c in ReachAll(g, deps) {
      ReachIsOneStepOrSelf(g, a, c);
      if b :| Edge(g, a, b) && c in Reach(g, b) {
        var k :| 0 <= k < |deps| && deps[k] == b;
      }
      if c in ReachAll(g, deps) {
        var k :| 0 <= k < |deps| && Reaches(g, deps[k], c);
        assert Edge(g, a, deps[k]);
      }
    }
  }

  /** On every valid graph the closure ends, and is the reachable skills without
      repetition, each after all its dependencies. */
  method SkillClosure(g: Graph, requested: seq<Name>) returns (closure: Option<seq<Name>>)
    requires Closed(g) && Acyclic(g)
    ensures closure.None? <==> exists k :: 0 <= k < |requested| && requested[k] !in g
    ensures closure.Some? ==>
      && Members(closure.value) == ReachAll(g, requested)
      && Distinct(closure.value)
      && DependenciesFirst(g, closure.value)
  {
    var walk := new ClosureWalk(g);
    for i := 0 to |requested|
      invariant walk.graph == g && walk.Sound()
      invariant walk.seen == ReachAll(g, requested[..i])
      invariant forall k :: 0 <= k < i ==> requested[k] in g
    {
      var known := walk.Add(requested[i]);
      if !known { return None; }
      ReachAllNext(g, requested, i);
    }
    assert requested[..|requested|] == requested;
    closure := Some(walk.ordered);
  }

  // ---- the registry ------------------------------------------------------------------------------

  datatype Discovery = Discovered | DuplicateName(name: Name) | Refused(verdict: Verdict)

  datatype Selection =
    | Loaded(skills: seq<Name>) | UnknownSkill | UndeclaredCapability(name: Name) | Conflict(name: Name)
    | InstructionsChanged(name: Name) | NotDiscovered(why: Discovery)

  predicate Allowed(g: Graph, n: Name, allowed: set<Name>) {
    n in g && g[n].capabilities <= allowed
  }

  predicate ConflictFree(g: Graph, n: Name, selected: set<Name>) {
    n in g && selected * g[n].conflicts == {}
  }

  class SkillRegistry {
    var manifests: Option<Graph>

    constructor ()
      ensures manifests.None? && Valid()
    {
      manifests := None;
    }

    ghost predicate Valid()
      reads this
    {
      manifests.Some? ==> Closed(manifests.value) && Acyclic(manifests.value)
    }

    /** Only a graph that passed validation is ever kept. */
    method Discover(found: seq<(Name, Skill)>) returns (result: Discovery)
      requires Valid()
      modifies this
      ensures Valid()
      ensures !result.Discovered? ==> manifests == old(manifests)
      ensures result.DuplicateName? <==> exists i, j :: 0 <= i < j < |found| && found[i].0 == found[j].0
      ensures result.Discovered? ==> manifests.Some?
      ensures result.Discovered? ==>
        forall n, skill :: (n in manifests.value && manifests.value[n] == skill) <==> (n, skill) in found
    {
      var g: Graph, names: seq<Name> := map[], [];
      for i := 0 to |found|
        invariant Members(names) == g.Keys && |names| == i
        invariant forall k :: 0 <= k < i ==> names[k] == found[k].0 && found[k].0 in g && g[found[k].0] == found[k].1
        invariant forall k, m :: 0 <= k < m < i ==> found[k].0 != found[m].0
      {
        var (name, skill) := found[i];
        if name in g {
          assert name in Members(names);
          var k :| 0 <= k < i && names[k] == name;
          assert found[k].0 == found[i].0;
          return DuplicateName(name);
        }
        ghost var before := names;
        g, names := g[name := skill], names + [name];
        assert forall n :: n in names <==> n in before || n == name;
      }
      var verdict := ValidateSkillDependencies(g, names);
      if verdict != Verdict.Valid { return Refused(verdict); }
      manifests := Some(g);
      forall n, skill ensures n in g && g[n] == skill <==> (n, skill) in found {
        if n in g {
          assert n in Members(names);
          var k :| 0 <= k < |names| && names[k] == n;
          assert found[k] == (n, g[n]);
        }
      }
      result := Discovered;
    }

    /** The requested skills with everything they depend on, unless one of those needs
        an undeclared capability, conflicts with another of them, or has instructions
        that changed since discovery. A first load discovers what is `found`. */
    method Load(names: seq<Name>, allowed: set<Name>, found: seq<(Name, Skill)>, changed: set<Name>)
      returns (selection: Selection)
      requires Valid()
      modifies this
      ensures Valid() && (old(manifests).Some? ==> manifests == old(manifests))
      ensures manifests.None? <==> selection.NotDiscovered?
      ensures manifests.Some? ==> SelectionMeans(manifests.value, names, allowed, changed, selection)
    {
      if manifests.None? {
        var result := Discover(found);
        if !result.Discovered? { return NotDiscovered(result); }
      }
      selection := Select(manifests.value, names, allowed, changed);
    }
  }

  ghost predicate SelectionMeans(g: Graph, names: seq<Name>, allowed: set<Name>, changed: set<Name>, selection: Selection)
    requires Closed(g)
  {
    var needed := ReachAll(g, names);
    match selection
    case UnknownSkill => exists k :: 0 <= k < |names| && names[k] !in g
    case Loaded(s) =>
      && Members(s) == needed && Distinct(s) && DependenciesFirst(g, s)
      && forall n :: n in s ==> Allowed(g, n, allowed) && ConflictFree(g, n, needed) && n !in changed
    case UndeclaredCapability(n) => n in needed && !Allowed(g, n, allowed)
    case Conflict(n) => n in needed && !ConflictFree(g, n, needed)
    case InstructionsChanged(n) =>
      && n in needed && n in changed
      && forall m :: m in needed ==> Allowed(g, m, allowed) && ConflictFree(g, m, needed)
    case NotDiscovered(_) => false
  }

  method Select(g: Graph, names: seq<Name>, allowed: set<Name>, changed: set<Name>) returns (selection: Selection)
    requires Closed(g) && Acyclic(g)
    ensures SelectionMeans(g, names, allowed, changed, selection)
  {
    var closure := SkillClosure(g, names);
    if closure.None? { return UnknownSkill; }
    var s := closure.value;
    var selected := Members(s);
    for i := 0 to |s|
      invariant forall k :: 0 <= k < i ==> Allowed(g, s[k], allowed) && ConflictFree(g, s[k], selected)
    {
      assert s[i] in selected;
      if !(g[s[i]].capabilities <= allowed) { return UndeclaredCapability(s[i]); }
      if selected * g[s[i]].conflicts != {} { return Conflict(s[i]); }
    }
    for i := 0 to |s|
      invariant forall k :: 0 <= k < i ==> s[k] !in changed
    {
      if s[i] in changed {
        assert s[i] in selected;
        return InstructionsChanged(s[i]);
      }
    }
    selection := Loaded(s);
  }
}
