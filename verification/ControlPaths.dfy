/**
 Discovery of the files a diagnostic depends on
 (bizpulse/scripts/create_deployed_release_diagnostic_package.py): the import closure of the entrypoints.
 */
module ControlPaths {
  import opened Wrappers
  import opened Ordering

  /** A file of the project: its local imports, or a source whose imports cannot be resolved. */
  datatype File = Source(imports: set<string>) | Unresolvable

  /** The files inside the project root, by relative path. */
  type Project = map<string, File>

  // ---- Reachability ----

  /** Each path is imported by the one before it. */
  predicate IsChain(project: Project, chain: seq<string>) {
    forall i | 0 <= i < |chain| - 1 :: Imports(project, chain[i], chain[i + 1])
  }

  predicate Imports(project: Project, a: string, b: string) {
    a in project && project[a].Source? && b in project[a].imports
  }

  ghost predicate Reachable(project: Project, entrypoints: seq<string>, p: string) {
    exists chain: seq<string> :: ChainTo(project, entrypoints, p, chain)
  }

  predicate ChainTo(project: Project, entrypoints: seq<string>, p: string, chain: seq<string>) {
    chain != [] && chain[0] in entrypoints && chain[|chain| - 1] == p && IsChain(project, chain)
  }

  lemma EntrypointReachable(project: Project, entrypoints: seq<string>, p: string)
    requires p in entrypoints
    ensures Reachable(project, entrypoints, p)
  {
    assert ChainTo(project, entrypoints, p, [p]);
  }

  lemma ImportReachable(project: Project, entrypoints: seq<string>, a: string, b: string)
    requires Reachable(project, entrypoints, a) && Imports(project, a, b)
    ensures Reachable(project, entrypoints, b)
  {
    var chain :| ChainTo(project, entrypoints, a, chain);
    assert ChainTo(project, entrypoints, b, chain + [b]);
  }

  /** A set that holds the entrypoints and all imports of its members holds everything reachable. */
  lemma {:induction false} ClosedHoldsChain(project: Project, closed: set<string>, chain: seq<string>)
    requires chain != [] && chain[0] in closed && IsChain(project, chain)
    requires forall a, b | a in closed && Imports(project, a, b) :: b in closed
    ensures chain[|chain| - 1] in closed
    decreases |chain|
  {
    if |chain| > 1 {
      assert Imports(project, chain[0], chain[1]);
      forall i | 0 <= i < |chain[1..]| - 1
        ensures Imports(project, chain[1..][i], chain[1..][i + 1])
      {
        assert Imports(project, chain[i + 1], chain[i + 2]);
      }
      ClosedHoldsChain(project, closed, chain[1..]);
    }
  }

  lemma ClosedHoldsReachable(project: Project, entrypoints: seq<string>, closed: set<string>, p: string)
    requires forall e | e in entrypoints :: e in closed
    requires forall a, b | a in closed && Imports(project, a, b) :: b in closed
    requires Reachable(project, entrypoints, p)
    ensures p in closed
  {
    var chain :| ChainTo(project, entrypoints, p, chain);
    ClosedHoldsChain(project, closed, chain);
  }

  // ---- What discovery promises ----

  /** A path that discovery can visit: a valid reference to a project file with resolvable imports. */
  predicate Visitable(valid: string -> bool, project: Project, p: string) {
    valid(p) && p in project && project[p].Source?
  }

  /** The inputs for which discovery succeeds. */
  ghost predicate Discoverable(valid: string -> bool, project: Project, entrypoints: seq<string>, bound: seq<string>) {
    entrypoints != [] && bound != [] &&
    (forall p | Reachable(project, entrypoints, p) :: Visitable(valid, project, p)) &&
    (forall p | p in bound :: valid(p) && p in project)
  }

  /** Sorted, without duplicates, exactly the reachable and the bound paths. */
  ghost predicate IsClosure(project: Project, entrypoints: seq<string>, bound: seq<string>, paths: seq<string>) {
    Sorted(TextLe, paths) && (forall p :: multiset(paths)[p] <= 1) &&
    forall p :: p in paths <==> Reachable(project, entrypoints, p) || p in bound
  }

  lemma TextLeIsTotal()
    ensures TotalOrder(TextLe)
  {
    forall a: string, b: string
      ensures TextLe(a, b) || TextLe(b, a)
    {
      TextTotal(a, b);
    }
    forall a: string, b: string, c: string | TextLe(a, b) && TextLe(b, c)
      ensures TextLe(a, c)
    {
      TextTransitive(a, b, c);
    }
  }

  /** There is only one such list, so that no iteration order of the import sets can show. */
  lemma ClosureIsUnique(
    project: Project, entrypoints: seq<string>, bound: seq<string>, a: seq<string>, b: seq<string>)
    requires IsClosure(project, entrypoints, bound, a) && IsClosure(project, entrypoints, bound, b)
    ensures a == b
  {
    TextLeIsTotal();
    forall p
      ensures multiset(a)[p] == multiset(b)[p]
    {
      assert p in a <==> p in multiset(a);
      assert p in b <==> p in multiset(b);
    }
    assert multiset(a) == multiset(b);
    forall x, y | x in a && y in a && TextLe(x, y) && TextLe(y, x)
      ensures x == y
    {
      TextTotal(x, y);
    }
    SortedUnique(TextLe, a, b);
  }

  // ---- The worklist ----

  method SortedTuple(paths: set<string>) returns (r: seq<string>)
    ensures Sorted(TextLe, r) && (forall p :: multiset(r)[p] <= 1) && forall p :: p in r <==> p in paths
  {
    r := [];
    var rest := paths;
    TextLeIsTotal();
    while rest != {}
      invariant rest <= paths && Sorted(TextLe, r)
      invariant forall p :: multiset(r)[p] == if p in paths - rest then 1 else 0
      decreases rest
    {
      var p :| p in rest;
      InsertSorted(TextLe, p, r);
      r := Insert(TextLe, p, r);
      rest := rest - {p};
    }
    assert forall p :: p in r <==> p in multiset(r);
  }

  /** Appends the imports not discovered yet, in whatever order the set yields them. */
  method Enqueue(pending: seq<string>, imports: set<string>, discovered: set<string>) returns (queue: seq<string>)
    ensures forall p :: p in queue <==> p in pending || p in imports - discovered
  {
    queue := pending;
    var rest := imports;
    while rest != {}
      invariant rest <= imports
      invariant forall p :: p in queue <==> p in pending || p in (imports - rest) - discovered
      decreases rest
    {
      var imported :| imported in rest;
      if imported !in discovered { queue := queue + [imported]; }
      rest := rest - {imported};
    }
  }

  /** The closure loop; None when a visited path cannot be visited. */
  method Close(valid: string -> bool, project: Project, entrypoints: seq<string>) returns (r: Option<set<string>>)
    ensures r.Some? <==> forall p | Reachable(project, entrypoints, p) :: Visitable(valid, project, p)
    ensures r.Some? ==> forall p :: p in r.value <==> Reachable(project, entrypoints, p)
  {
    forall p | p in entrypoints
      ensures Reachable(project, entrypoints, p)
    {
      EntrypointReachable(project, entrypoints, p);
    }
    var pending := entrypoints;
    var discovered: set<string> := {};
    while pending != []
      invariant forall p | p in pending || p in discovered :: Reachable(project, entrypoints, p)
      invariant forall p | p in discovered :: Visitable(valid, project, p)
      invariant forall p | p in entrypoints :: p in discovered || p in pending
      invariant forall a, b | a in discovered && Imports(project, a, b) :: b in discovered || b in pending
      decreases project.Keys - discovered, |pending|
    {
      var relative := pending[|pending| - 1];
      ghost var before := pending;
      pending := pending[..|pending| - 1];
      assert forall p :: p in before <==> p in pending || p == relative;
      assert Reachable(project, entrypoints, relative);
      if !valid(relative) {
        assert !Visitable(valid, project, relative);
        return None;
      }
      if relative in discovered { continue; }
      if relative !in project || project[relative].Unresolvable? { return None; }
      discovered := discovered + {relative};
      var imports := project[relative].imports;
      forall b | b in imports
        ensures Reachable(project, entrypoints, b)
      {
        ImportReachable(project, entrypoints, relative, b);
      }
      pending := Enqueue(pending, imports, discovered);
    }
    forall p | Reachable(project, entrypoints, p)
      ensures p in discovered
    {
      ClosedHoldsReachable(project, entrypoints, discovered, p);
    }
    r := Some(discovered);
  }

  /** `discover_control_paths`. */
  method DiscoverControlPaths(valid: string -> bool, project: Project, entrypoints: seq<string>, bound: seq<string>)
    returns (r: Option<seq<string>>)
    ensures r.Some? <==> Discoverable(valid, project, entrypoints, bound)
    ensures r.Some? ==> IsClosure(project, entrypoints, bound, r.value)
  {
    if entrypoints == [] || bound == [] { return None; }
    var closed := Close(valid, project, entrypoints);
    if closed.None? { return None; }
    var discovered := closed.value;
    for i := 0 to |bound|
      invariant forall j | 0 <= j < i :: valid(bound[j]) && bound[j] in project
      invariant forall p :: p in discovered <==> p in closed.value || p in bound[..i]
    {
      if !valid(bound[i]) || bound[i] !in project { return None; }
      discovered := discovered + {bound[i]};
      assert bound[..i + 1] == bound[..i] + [bound[i]];
    }
    assert bound[..|bound|] == bound;
    var paths := SortedTuple(discovered);
    r := Some(paths);
  }
}
