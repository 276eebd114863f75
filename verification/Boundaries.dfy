/** The package layering check: what a clean report on single dependencies says about whole dependency paths. */
module Boundaries {
  import opened Common

  datatype Project = Project(path: string, name: string, tags: seq<string>, isPrivate: bool, dependencies: seq<string>)

  datatype Violation =
    | Untyped(path: string)
    | Layering(path: string, from: string, to: string, dependency: string)
    | Unpublished(path: string, dependency: string)

  /** `new Map(...)`: the last project of a name wins. */
  function ByName(projects: seq<Project>): (byName: map<string, Project>)
    ensures forall name :: name in byName ==> byName[name] in projects && byName[name].name == name
    ensures forall p :: p in projects ==> p.name in byName
  {
    if projects == [] then map[]
    else
      var last := projects[|projects| - 1];
      assert projects == projects[..|projects| - 1] + [last];
      ByName(projects[..|projects| - 1])[last.name := last]
  }

  function TypeTag(tags: seq<string>): Option<string> {
    if tags == [] then None else if "type:" <= tags[0] then Some(tags[0]) else TypeTag(tags[1..])
  }

  /** `find`: the first tag that says a type. */
  lemma {:induction false} TypeTagIsFirst(tags: seq<string>, i: nat)
    requires i < |tags| && "type:" <= tags[i] && forall j :: 0 <= j < i ==> !("type:" <= tags[j])
    ensures TypeTag(tags) == Some(tags[i])
    decreases i
  {
    if i > 0 {
      TypeTagIsFirst(tags[1..], i - 1);
    }
  }

  function Disallowed(from: string): set<string> {
    if from == "type:library" || from == "type:ports" then {"type:application", "type:adapter", "type:app", "type:test"}
    else if from == "type:application" then {"type:adapter", "type:app", "type:test"}
    else if from == "type:adapter" then {"type:app", "type:test"}
    else if from == "type:app" then {"type:test"}
    else {}
  }

  const LAYERS: seq<string> :=
    ["type:library", "type:ports", "type:application", "type:adapter", "type:app", "type:test"]

  /** The layers from the inside out; libraries and ports share the innermost one. */
  function Rank(layer: string): nat {
    if layer == "type:application" then 1
    else if layer == "type:adapter" then 2
    else if layer == "type:app" then 3
    else if layer == "type:test" then 4
    else 0
  }

  /** The table disallows exactly the dependencies that go outwards, between the types it knows. */
  lemma DisallowedIsOutward(from: string, to: string)
    ensures to in Disallowed(from) <==> from in LAYERS && to in LAYERS && Rank(from) < Rank(to)
  {
    if from in LAYERS && to in LAYERS {
      var i :| 0 <= i < |LAYERS| && LAYERS[i] == from;
      var j :| 0 <= j < |LAYERS| && LAYERS[j] == to;
    }
    if to in Disallowed(from) {
      assert from == LAYERS[0] || from == LAYERS[1] || from == LAYERS[2] || from == LAYERS[3] || from == LAYERS[4];
      assert to == LAYERS[2] || to == LAYERS[3] || to == LAYERS[4] || to == LAYERS[5];
    }
  }

  /** One dependency is reported when it resolves to a typed project further out. */
  predicate Outward(byName: map<string, Project>, project: Project, name: string) {
    && TypeTag(project.tags).Some? && name in byName && TypeTag(byName[name].tags).Some?
    && TypeTag(byName[name].tags).value in Disallowed(TypeTag(project.tags).value)
  }

  predicate WellLayered(projects: seq<Project>, project: Project) {
    && TypeTag(project.tags).Some?
    && forall name :: name in project.dependencies ==> !Outward(ByName(projects), project, name)
  }

  predicate LayeringClean(projects: seq<Project>) {
    CleanBelow(projects, |projects|)
  }

  predicate CleanBelow(projects: seq<Project>, n: nat)
    requires n <= |projects|
  {
    forall k :: 0 <= k < n ==> WellLayered(projects, projects[k])
  }

  lemma CleanStep(projects: seq<Project>, n: nat)
    requires n < |projects|
    ensures CleanBelow(projects, n + 1) <==> CleanBelow(projects, n) && WellLayered(projects, projects[n])
  {
  }

  predicate PublishedClean(projects: seq<Project>) {
    forall p :: p in projects ==> Sealed(projects, p)
  }

  /** What a line of the report says is so. */
  predicate Reported(projects: seq<Project>, v: Violation) {
    match v
    case Untyped(path) => exists p :: p in projects && p.path == path && TypeTag(p.tags).None?
    case Layering(path, from, to, name) =>
      exists p :: p in projects && p.path == path && name in p.dependencies && Outward(ByName(projects), p, name)
                  && TypeTag(p.tags) == Some(from) && TypeTag(ByName(projects)[name].tags) == Some(to)
    case Unpublished(path, name) =>
      exists p :: p in projects && p.path == path && name in p.dependencies && Leaks(ByName(projects), p, name)
  }

  /** A published project depends on a private one. */
  predicate Leaks(byName: map<string, Project>, project: Project, name: string) {
    !project.isPrivate && name in byName && byName[name].isPrivate
  }

  predicate AllReported(projects: seq<Project>, violations: seq<Violation>) {
    forall v :: v in violations ==> Reported(projects, v)
  }

  lemma ReportMore(projects: seq<Project>, violations: seq<Violation>, more: seq<Violation>)
    requires AllReported(projects, violations) && AllReported(projects, more)
    ensures AllReported(projects, violations + more)
  {
  }

  /** The inner loop, for one project. */
  method Layerings(projects: seq<Project>, byName: map<string, Project>, project: Project)
    returns (violations: seq<Violation>)
    requires byName == ByName(projects) && project in projects && TypeTag(project.tags).Some?
    ensures violations == [] <==> WellLayered(projects, project)
    ensures AllReported(projects, violations)
  {
    violations := [];
    for j := 0 to |project.dependencies|
      invariant violations == [] <==> forall k :: 0 <= k < j ==> !Outward(byName, project, project.dependencies[k])
      invariant AllReported(projects, violations)
    {
      var name := project.dependencies[j];
      if Outward(byName, project, name) {
        var v := Layering(project.path, TypeTag(project.tags).value, TypeTag(byName[name].tags).value, name);
        assert Reported(projects, v);
        ReportMore(projects, violations, [v]);
        violations := violations + [v];
      }
    }
  }

  /** One turn of the outer loop. */
  method Examine(projects: seq<Project>, byName: map<string, Project>, project: Project)
    returns (violations: seq<Violation>)
    requires byName == ByName(projects) && project in projects
    ensures violations == [] <==> WellLayered(projects, project)
    ensures AllReported(projects, violations)
  {
    if TypeTag(project.tags).None? {
      assert Reported(projects, Untyped(project.path));
      return [Untyped(project.path)];
    }
    violations := Layerings(projects, byName, project);
  }

  method ProjectBoundaryViolations(projects: seq<Project>) returns (violations: seq<Violation>)
    ensures violations == [] <==> LayeringClean(projects)
    ensures AllReported(projects, violations)
  {
    var byName := ByName(projects);
    violations := [];
    for i := 0 to |projects|
      invariant violations == [] <==> CleanBelow(projects, i)
      invariant AllReported(projects, violations)
    {
      var more := Examine(projects, byName, projects[i]);
      ReportMore(projects, violations, more);
      CleanStep(projects, i);
      violations := violations + more;
    }
  }

  predicate Sealed(projects: seq<Project>, project: Project) {
    forall name :: name in project.dependencies ==> !Leaks(ByName(projects), project, name)
  }

  method PublishedDependencyViolations(projects: seq<Project>) returns (violations: seq<Violation>)
    ensures violations == [] <==> PublishedClean(projects)
    ensures AllReported(projects, violations)
  {
    var byName := ByName(projects);
    violations := [];
    for i := 0 to |projects|
      invariant violations == [] <==> forall k :: 0 <= k < i ==> Sealed(projects, projects[k])
      invariant AllReported(projects, violations)
    {
      var project := projects[i];
      if project.isPrivate {
        continue;
      }
      var more := Unpublisheds(projects, byName, project);
      ReportMore(projects, violations, more);
      violations := violations + more;
    }
  }

  /** The inner loop, for one published project. */
  method Unpublisheds(projects: seq<Project>, byName: map<string, Project>, project: Project)
    returns (violations: seq<Violation>)
    requires byName == ByName(projects) && project in projects && !project.isPrivate
    ensures violations == [] <==> Sealed(projects, project)
    ensures AllReported(projects, violations)
  {
    violations := [];
    for j := 0 to |project.dependencies|
      invariant violations == [] <==> forall k :: 0 <= k < j ==> !Leaks(byName, project, project.dependencies[k])
      invariant AllReported(projects, violations)
    {
      var name := project.dependencies[j];
      if name in byName && byName[name].isPrivate {
        assert Reported(projects, Unpublished(project.path, name));
        ReportMore(projects, violations, [Unpublished(project.path, name)]);
        violations := violations + [Unpublished(project.path, name)];
      }
    }
  }

  predicate UniqueNames(projects: seq<Project>) {
    forall p, q :: p in projects && q in projects && p.name == q.name ==> p == q
  }

  predicate AllTyped(projects: seq<Project>) {
    forall i :: 0 <= i < |projects| ==> TypeTag(projects[i].tags).Some?
  }

  predicate Known(p: Project) {
    TypeTag(p.tags).Some? && TypeTag(p.tags).value in LAYERS
  }

  function Layer(p: Project): nat {
    if TypeTag(p.tags).Some? then Rank(TypeTag(p.tags).value) else 0
  }

  /** A dependency of `p` that the map resolves to `q`. */
  predicate Resolved(projects: seq<Project>, p: Project, q: Project) {
    q.name in p.dependencies && q.name in ByName(projects) && ByName(projects)[q.name] == q
  }

  /** A chain of dependencies as the check resolves them. */
  predicate ResolvedChain(projects: seq<Project>, chain: seq<Project>) {
    && chain != [] && chain[0] in projects
    && (forall i :: 0 < i < |chain| ==> Resolved(projects, chain[i - 1], chain[i]))
  }

  /** A chain of dependencies by name, on any project of that name. */
  predicate Chain(projects: seq<Project>, chain: seq<Project>) {
    && chain != []
    && (forall i :: 0 <= i < |chain| ==> chain[i] in projects)
    && (forall i :: 0 < i < |chain| ==> chain[i].name in chain[i - 1].dependencies)
  }

  /** With unique names the two are the same. */
  lemma ChainIsResolved(projects: seq<Project>, chain: seq<Project>)
    requires UniqueNames(projects)
    ensures Chain(projects, chain) <==> ResolvedChain(projects, chain)
  {
    if Chain(projects, chain) {
      forall i | 0 < i < |chain|
        ensures Resolved(projects, chain[i - 1], chain[i])
      {
        assert chain[i] in projects;
      }
    }
    if ResolvedChain(projects, chain) {
      forall i | 0 <= i < |chain|
        ensures chain[i] in projects
      {
        assert i > 0 ==> Resolved(projects, chain[i - 1], chain[i]);
      }
      forall i | 0 < i < |chain|
        ensures chain[i].name in chain[i - 1].dependencies
      {
        assert Resolved(projects, chain[i - 1], chain[i]);
      }
    }
  }

  predicate AllKnown(chain: seq<Project>) {
    forall i :: 0 <= i < |chain| ==> Known(chain[i])
  }

  /** The chain does not end further out than it starts. */
  predicate Inward(chain: seq<Project>) {
    chain != [] && Layer(chain[|chain| - 1]) <= Layer(chain[0])
  }

  /** One resolved dependency between known types is reported exactly when it goes outwards. */
  lemma StepOutward(projects: seq<Project>, p: Project, q: Project)
    requires Known(p) && Known(q) && Resolved(projects, p, q)
    ensures Outward(ByName(projects), p, q.name) <==> Layer(p) < Layer(q)
  {
    DisallowedIsOutward(TypeTag(p.tags).value, TypeTag(q.tags).value);
  }

  lemma CleanStepInward(projects: seq<Project>, p: Project, q: Project)
    requires LayeringClean(projects) && p in projects && Known(p) && Known(q) && Resolved(projects, p, q)
    ensures Layer(q) <= Layer(p)
  {
    var k :| 0 <= k < |projects| && projects[k] == p;
    assert WellLayered(projects, projects[k]);
    StepOutward(projects, p, q);
  }

  lemma ResolvedFront(projects: seq<Project>, chain: seq<Project>)
    requires ResolvedChain(projects, chain) && |chain| > 1
    ensures ResolvedChain(projects, chain[..|chain| - 1]) && chain[..|chain| - 1][0] == chain[0]
    ensures Resolved(projects, chain[|chain| - 2], chain[|chain| - 1]) && chain[|chain| - 2] in projects
  {
    var front := chain[..|chain| - 1];
    assert forall i :: 0 < i < |front| ==> Resolved(projects, front[i - 1], front[i]);
    assert Resolved(projects, chain[|chain| - 2], chain[|chain| - 1]);
    if |chain| > 2 {
      assert Resolved(projects, chain[|chain| - 3], chain[|chain| - 2]);
    }
  }

  lemma {:induction false} ChainInward(projects: seq<Project>, chain: seq<Project>)
    requires LayeringClean(projects) && ResolvedChain(projects, chain) && AllKnown(chain)
    ensures Inward(chain)
    decreases |chain|
  {
    if |chain| > 1 {
      var front := chain[..|chain| - 1];
      ResolvedFront(projects, chain);
      assert AllKnown(front) by { assert forall i :: 0 <= i < |front| ==> front[i] == chain[i]; }
      ChainInward(projects, front);
      CleanStepInward(projects, chain[|chain| - 2], chain[|chain| - 1]);
    }
  }

  /** What is reported is known on both sides, and goes outwards. */
  lemma ReportedStep(projects: seq<Project>, p: Project) returns (q: Project)
    requires p in projects && TypeTag(p.tags).Some? && !WellLayered(projects, p)
    ensures Resolved(projects, p, q) && Known(p) && Known(q) && Layer(p) < Layer(q)
  {
    var name :| name in p.dependencies && Outward(ByName(projects), p, name);
    q := ByName(projects)[name];
    DisallowedIsOutward(TypeTag(p.tags).value, TypeTag(q.tags).value);
  }

  lemma OutwardChain(projects: seq<Project>) returns (chain: seq<Project>)
    requires AllTyped(projects) && !LayeringClean(projects)
    ensures ResolvedChain(projects, chain) && AllKnown(chain) && !Inward(chain)
  {
    var k :| 0 <= k < |projects| && !WellLayered(projects, projects[k]);
    var q := ReportedStep(projects, projects[k]);
    chain := [projects[k], q];
  }

  ghost predicate ResolvedInward(projects: seq<Project>) {
    forall chain: seq<Project> :: ResolvedChain(projects, chain) && AllKnown(chain) ==> Inward(chain)
  }

  /**
    For every list of projects: the report on single dependencies is clean exactly when every project has a type and
    no resolved chain of known types, of any length, ends further out than it starts.
   */
  lemma LayeringExact(projects: seq<Project>)
    ensures LayeringClean(projects) <==> AllTyped(projects) && ResolvedInward(projects)
  {
    if LayeringClean(projects) {
      forall i | 0 <= i < |projects|
        ensures TypeTag(projects[i].tags).Some?
      {
        assert WellLayered(projects, projects[i]);
      }
      forall chain: seq<Project> | ResolvedChain(projects, chain) && AllKnown(chain)
        ensures Inward(chain)
      {
        ChainInward(projects, chain);
      }
    } else if AllTyped(projects) {
      var chain := OutwardChain(projects);
    }
  }

  ghost predicate NamedInward(projects: seq<Project>) {
    forall chain: seq<Project> :: Chain(projects, chain) && AllKnown(chain) ==> Inward(chain)
  }

  /** With unique names, the same of chains by name. */
  lemma LayeringByName(projects: seq<Project>)
    requires UniqueNames(projects)
    ensures LayeringClean(projects) <==> AllTyped(projects) && NamedInward(projects)
  {
    LayeringExact(projects);
    forall chain: seq<Project>
      ensures Chain(projects, chain) <==> ResolvedChain(projects, chain)
    {
      ChainIsResolved(projects, chain);
    }
  }

  /** And with known types only, of all chains. */
  lemma LayeringIsGlobal(projects: seq<Project>)
    requires UniqueNames(projects) && forall p :: p in projects ==> Known(p)
    ensures LayeringClean(projects) <==> forall chain: seq<Project> :: Chain(projects, chain) ==> Inward(chain)
  {
    LayeringByName(projects);
    assert AllTyped(projects) by {
      assert forall i :: 0 <= i < |projects| ==> Known(projects[i]);
    }
    forall chain: seq<Project> | Chain(projects, chain)
      ensures AllKnown(chain)
    {
    }
  }

  // ----- publication

  lemma {:induction false} ChainPublished(projects: seq<Project>, chain: seq<Project>)
    requires PublishedClean(projects) && ResolvedChain(projects, chain) && !chain[0].isPrivate
    ensures !chain[|chain| - 1].isPrivate
    decreases |chain|
  {
    if |chain| > 1 {
      ResolvedFront(projects, chain);
      ChainPublished(projects, chain[..|chain| - 1]);
      var p, q := chain[|chain| - 2], chain[|chain| - 1];
      assert Sealed(projects, p) && !Leaks(ByName(projects), p, q.name);
    }
  }

  ghost predicate ResolvedPublished(projects: seq<Project>) {
    forall chain: seq<Project> ::
      ResolvedChain(projects, chain) && !chain[0].isPrivate ==> !chain[|chain| - 1].isPrivate
  }

  /** What a published package reaches as the check resolves it is published, exactly when each dependency is. */
  lemma PublishedExact(projects: seq<Project>)
    ensures PublishedClean(projects) <==> ResolvedPublished(projects)
  {
    if PublishedClean(projects) {
      forall chain: seq<Project> | ResolvedChain(projects, chain) && !chain[0].isPrivate
        ensures !chain[|chain| - 1].isPrivate
      {
        ChainPublished(projects, chain);
      }
    } else {
      var p :| p in projects && !Sealed(projects, p);
      var name :| name in p.dependencies && Leaks(ByName(projects), p, name);
      var chain := [p, ByName(projects)[name]];
      assert ResolvedChain(projects, chain) && chain[0] == p && chain[|chain| - 1] == ByName(projects)[name];
    }
  }

  /** With unique names, everything it reaches by name. */
  lemma PublishedIsGlobal(projects: seq<Project>)
    requires UniqueNames(projects)
    ensures PublishedClean(projects) <==>
      forall chain: seq<Project> :: Chain(projects, chain) && !chain[0].isPrivate ==> !chain[|chain| - 1].isPrivate
  {
    PublishedExact(projects);
    forall chain: seq<Project>
      ensures Chain(projects, chain) <==> ResolvedChain(projects, chain)
    {
      ChainIsResolved(projects, chain);
    }
  }

  // ----- what a clean report does not see

  /** A dependency from or to a type the table does not know is never reported. */
  lemma UnknownIsIgnored(projects: seq<Project>, p: Project, name: string)
    requires p in projects && name in p.dependencies && name in ByName(projects)
    requires !Known(p) || !Known(ByName(projects)[name])
    ensures !Outward(ByName(projects), p, name)
  {
    if TypeTag(p.tags).Some? && TypeTag(ByName(projects)[name].tags).Some? {
      DisallowedIsOutward(TypeTag(p.tags).value, TypeTag(ByName(projects)[name].tags).value);
    }
  }

  /** Three projects in which a type in between, that the table does not know, hides a chain outwards. */
  lemma UnknownTypeHides(inner: Project, odd: Project, outer: Project)
    requires inner.name != odd.name && odd.name != outer.name && outer.name != inner.name
    requires inner.dependencies == [odd.name] && odd.dependencies == [outer.name] && outer.dependencies == []
    requires TypeTag(inner.tags).Some? && TypeTag(odd.tags).Some? && TypeTag(outer.tags).Some?
    requires !Known(odd) && Layer(inner) < Layer(outer)
    ensures LayeringClean([inner, odd, outer]) && Chain([inner, odd, outer], [inner, odd, outer])
    ensures !Inward([inner, odd, outer])
  {
    var projects := [inner, odd, outer];
    assert projects[0] == inner && projects[1] == odd && projects[2] == outer;
    OneIgnored(projects, inner, odd);
    OneIgnored(projects, odd, outer);
    assert WellLayered(projects, outer);
  }

  lemma OneIgnored(projects: seq<Project>, p: Project, q: Project)
    requires UniqueNames(projects) && p in projects && q in projects && p.dependencies == [q.name]
    requires TypeTag(p.tags).Some? && (!Known(p) || !Known(q))
    ensures WellLayered(projects, p)
  {
    assert ByName(projects)[q.name] == q;
    UnknownIsIgnored(projects, p, q.name);
  }

  /** Three projects in which a second one of a name, which the map does not show, hides a dependency outwards. */
  lemma SharedNameHides(p: Project, hidden: Project, shown: Project)
    requires hidden.name == shown.name != p.name
    requires p.dependencies == [shown.name] && hidden.dependencies == [] && shown.dependencies == []
    requires TypeTag(p.tags).Some? && TypeTag(hidden.tags).Some? && TypeTag(shown.tags).Some?
    requires Layer(shown) <= Layer(p) < Layer(hidden)
    ensures LayeringClean([p, hidden, shown]) && Chain([p, hidden, shown], [p, hidden]) && !Inward([p, hidden])
  {
    var projects := [p, hidden, shown];
    assert projects[..2] == [p, hidden] && projects[2] == shown;
    assert ByName(projects)[shown.name] == shown;
    DisallowedIsOutward(TypeTag(p.tags).value, TypeTag(shown.tags).value);
    assert WellLayered(projects, p);
    assert projects[0] == p && projects[1] == hidden && projects[2] == shown;
  }
}
