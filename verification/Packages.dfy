/** Package graph resolution (src/package.rs:392-415, 464-539): a depth-first walk over manifests with a stack
    for cycle detection, and the dependency-first order computed from its result.
 */
module Packages {
  import opened Wrappers

  /** What each directory's manifest declares: dependencies by alias, each naming a directory. */
  type Manifests = map<nat, seq<Dependency>>

  datatype Dependency = Dependency(alias: nat, package: nat)

  type Edges = map<nat, map<nat, nat>>

  datatype Error = Cycle(path: seq<nat>) | LoadFailure(package: nat)

  /** `p` depends on `q`. */
  ghost predicate Depends(m: Manifests, p: nat, q: nat) {
    p in m && exists d :: d in m[p] && d.package == q
  }

  /** A non-empty list of packages each of which depends on the next. */
  ghost predicate Path(m: Manifests, path: seq<nat>) {
    path != [] && forall i :: 0 <= i < |path| - 1 ==> Depends(m, path[i], path[i + 1])
  }

  ghost predicate Reaches(m: Manifests, p: nat, q: nat) {
    exists path {:trigger Path(m, path)} :: Path(m, path) && path[0] == p && path[|path| - 1] == q
  }

  /** What a cycle error names: dependencies from the root on, all different, and then the first of
      them to be met again. */
  ghost predicate BackTo(m: Manifests, root: nat, path: seq<nat>) {
    && |path| > 1 && Path(m, path) && path[0] == root && path[|path| - 1] in path[..|path| - 1]
    && forall i, j :: 0 <= i < j < |path| - 1 ==> path[i] != path[j]
  }

  /** A cycle of dependencies that `root` reaches. */
  ghost predicate ReachesCycle(m: Manifests, root: nat) {
    exists p, q {:trigger Reaches(m, root, p), Depends(m, p, q)} ::
      Reaches(m, root, p) && Depends(m, p, q) && Reaches(m, q, p)
  }

  lemma ReachesSelf(m: Manifests, p: nat)
    ensures Reaches(m, p, p)
  {
    assert Path(m, [p]);
  }

  lemma ReachesStep(m: Manifests, root: nat, p: nat, q: nat)
    requires Reaches(m, root, p) && Depends(m, p, q)
    ensures Reaches(m, root, q)
  {
    var path :| Path(m, path) && path[0] == root && path[|path| - 1] == p;
    assert Path(m, path + [q]);
  }

  // ------------------------------------------------------------------ finished packages

  /** `order` lists packages once each, every dependency before its dependants. */
  ghost predicate DependencyFirst(order: seq<nat>, edges: Edges) {
    && (forall i, j :: 0 <= i < j < |order| ==> order[i] != order[j])
    && (forall p :: p in order ==> p in edges)
    && (forall i, d :: 0 <= i < |order| && d in edges[order[i]].Values ==> d in order[..i])
  }

  /** The edges of `p` lead by exactly the aliases of its manifest to exactly the packages they name. */
  ghost predicate Faithful(m: Manifests, edges: Edges, p: nat) {
    && p in m && p in edges
    && forall a, q :: a in edges[p] && edges[p][a] == q <==> Dependency(a, q) in m[p]
  }

  lemma FaithfulDepends(m: Manifests, edges: Edges, p: nat)
    requires Faithful(m, edges, p)
    ensures forall q :: q in edges[p].Values <==> Depends(m, p, q)
  {
    forall q ensures q in edges[p].Values <==> Depends(m, p, q) {
      if q in edges[p].Values {
        var a :| a in edges[p] && edges[p][a] == q;
        assert Dependency(a, q) in m[p];
      }
      if Depends(m, p, q) {
        var d :| d in m[p] && d.package == q;
        assert Dependency(d.alias, q) in m[p];
      }
    }
  }

  /** Walking from a finished package never leaves the finished packages, and only goes down. */
  lemma {:induction false} OrderDescends(m: Manifests, edges: Edges, order: seq<nat>, path: seq<nat>, i: nat)
    requires DependencyFirst(order, edges) && forall p :: p in order ==> Faithful(m, edges, p)
    requires Path(m, path) && i < |order| && path[0] == order[i]
    ensures path[|path| - 1] in order[..i + 1]
    ensures |path| > 1 ==> path[|path| - 1] in order[..i]
    decreases path
  {
    if |path| > 1 {
      assert Depends(m, path[0], path[1]);
      assert order[i] in order && Faithful(m, edges, order[i]);
      FaithfulDepends(m, edges, order[i]);
      assert path[1] in order[..i];
      var j :| 0 <= j < i && order[j] == path[1];
      assert Path(m, path[1..]) by {
        forall k | 0 <= k < |path[1..]| - 1 ensures Depends(m, path[1..][k], path[1..][k + 1]) {
          assert Depends(m, path[k + 1], path[k + 1 + 1]);
        }
      }
      OrderDescends(m, edges, order, path[1..], j);
    }
  }

  /** Nothing in the order is on a cycle. */
  lemma OrderHasNoCycle(m: Manifests, edges: Edges, order: seq<nat>, p: nat, q: nat)
    requires DependencyFirst(order, edges) && forall x :: x in order ==> Faithful(m, edges, x)
    requires p in order && Depends(m, p, q)
    ensures !Reaches(m, q, p)
  {
    if Reaches(m, q, p) {
      var path :| Path(m, path) && path[0] == q && path[|path| - 1] == p;
      var around := [p] + path;
      forall k | 0 <= k < |around| - 1 ensures Depends(m, around[k], around[k + 1]) {
        if k > 0 {
          assert Depends(m, path[k - 1], path[k - 1 + 1]);
        }
      }
      var i :| 0 <= i < |order| && order[i] == p;
      OrderDescends(m, edges, order, around, i);
    }
  }

  // ------------------------------------------------------------------ resolution

  /** A manifest is a table: no alias occurs twice. */
  ghost predicate UniqueAliases(m: Manifests) {
    forall p, i, j :: p in m && 0 <= i < j < |m[p]| ==> m[p][i].alias != m[p][j].alias
  }

  class Resolver {
    const manifests: Manifests
    var packages: set<nat>
    var edges: Edges
    var stack: seq<nat>
    ghost const root: nat
    ghost var order: seq<nat>  // packages in the order they were finished

    ghost predicate Valid()
      reads this
    {
      && UniqueAliases(manifests) && packages <= manifests.Keys
      && (forall p :: p in packages <==> p in stack || p in order)
      && (forall p :: p in stack ==> p !in order)
      && (stack != [] ==> Path(manifests, stack) && stack[0] == root)
      && (forall i, j :: 0 <= i < j < |stack| ==> stack[i] != stack[j])
      && (forall p :: p in packages ==> Reaches(manifests, root, p))
      && Finished()
    }

    /** What is known of the packages that are no longer on the stack. */
    ghost predicate Finished()
      reads this
    {
      && (forall p :: p in edges <==> p in order)
      && DependencyFirst(order, edges)
      && forall p :: p in order ==> Faithful(manifests, edges, p)
    }

    constructor (manifests: Manifests, ghost root: nat)
      requires UniqueAliases(manifests)
      ensures this.manifests == manifests && this.root == root && Valid()
      ensures packages == {} && stack == [] && order == []
    {
      this.manifests, this.root := manifests, root;
      packages, edges, stack, order := {}, map[], [], [];
    }

    /** The stack closes a cycle when a dependency is on it. */
    lemma ClosesCycle(id: nat)
      requires Valid() && id in stack && Depends(manifests, stack[|stack| - 1], id)
      ensures ReachesCycle(manifests, root) && BackTo(manifests, root, stack + [id])
    {
      assert (stack + [id])[..|stack|] == stack;
      var i :| 0 <= i < |stack| && stack[i] == id;
      var last := stack[|stack| - 1];
      assert last in stack;
      var back := stack[i..];
      forall k | 0 <= k < |back| - 1 ensures Depends(manifests, back[k], back[k + 1]) {
        assert Depends(manifests, stack[i + k], stack[i + k + 1]);
      }
      assert Path(manifests, back) && back[0] == id && back[|back| - 1] == last;
      assert Reaches(manifests, id, last);
    }

    /** A package is recorded and goes on the stack. */
    method Enter(id: nat)
      requires Valid() && id in manifests && id !in packages && Reaches(manifests, root, id)
      requires if stack == [] then id == root else Depends(manifests, stack[|stack| - 1], id)
      modifies this`stack, this`packages
      ensures Valid() && stack == old(stack) + [id] && packages == old(packages) + {id}
    {
      hide Reaches, Path, Depends, DependencyFirst, Faithful, UniqueAliases;
      Pushes(manifests, stack, id);
      stack := stack + [id];
      packages := packages + {id};
    }

    /** `resolve_recursive` for the package in directory `id`. */
    method ResolveRecursive(id: nat) returns (r: Result<nat, Error>)
      requires Valid() && Reaches(manifests, root, id)
      requires if stack == [] then id == root else Depends(manifests, stack[|stack| - 1], id)
      modifies this
      ensures r.Success? ==> Valid() && stack == old(stack) && r.value == id && id in order
      ensures r.Success? ==> old(packages) <= packages && old(order) <= order
      ensures r.Failure? && r.error.Cycle? ==>
                ReachesCycle(manifests, root) && BackTo(manifests, root, r.error.path)
      ensures r.Failure? && r.error.LoadFailure? ==>
                r.error.package !in manifests && Reaches(manifests, root, r.error.package)
      decreases manifests.Keys - packages
    {
      hide Reaches, Path, Depends, DependencyFirst, Faithful, ReachesCycle, Resolved, UniqueAliases, Finished, BackTo;
      if id in stack {
        ClosesCycle(id);
        return Failure(Cycle(stack + [id]));
      }
      if id in packages {
        return Success(id);
      }
      if id !in manifests {
        return Failure(LoadFailure(id));
      }
      ghost var finished := order;
      Enter(id);
      var resolved: map<nat, nat> := map[];
      var index := 0;
      ResolvedNone(manifests[id]);
      while index < |manifests[id]|
        invariant 0 <= index <= |manifests[id]|
        invariant Valid() && stack == old(stack) + [id]
        invariant old(packages) + {id} <= packages && finished <= order
        invariant Resolved(manifests[id], index, resolved) && AllIn(resolved, order)
      {
        var dependency := manifests[id][index];
        DependsOn(manifests, id, index);
        ReachesStep(manifests, root, id, dependency.package);
        var found := ResolveRecursive(dependency.package);
        if found.Failure? {
          return found;
        }
        ResolvedNext(manifests, id, index, resolved);
        resolved := resolved[dependency.alias := found.value];
        index := index + 1;
      }
      Finish(id, resolved);
      r := Success(id);
    }

    /** The package on top of the stack is done. */
    method Finish(id: nat, resolved: map<nat, nat>)
      requires Valid() && stack != [] && stack[|stack| - 1] == id && id !in stack[..|stack| - 1]
      requires id in manifests && Resolved(manifests[id], |manifests[id]|, resolved) && AllIn(resolved, order)
      modifies this`stack, this`edges, this`order
      ensures Valid() && stack == old(stack)[..|old(stack)| - 1] && order == old(order) + [id]
      ensures edges == old(edges)[id := resolved]
    {
      hide Reaches, Depends, DependencyFirst, Faithful, Resolved, UniqueAliases;
      Popped(manifests, edges, order, id, resolved);
      stack := stack[..|stack| - 1];
      edges := edges[id := resolved];
      order := order + [id];
      assert old(stack) == stack + [id];
    }
  }

  /** The first `n` dependencies have been resolved. */
  ghost predicate Resolved(dependencies: seq<Dependency>, n: nat, resolved: map<nat, nat>) {
    && n <= |dependencies|
    && (forall k :: 0 <= k < n ==>
          dependencies[k].alias in resolved && resolved[dependencies[k].alias] == dependencies[k].package)
    && (forall a :: a in resolved ==> exists k :: 0 <= k < n && dependencies[k].alias == a)
  }

  lemma ResolvedNext(m: Manifests, id: nat, n: nat, resolved: map<nat, nat>)
    requires UniqueAliases(m) && id in m && n < |m[id]| && Resolved(m[id], n, resolved)
    ensures Resolved(m[id], n + 1, resolved[m[id][n].alias := m[id][n].package])
  {
  }

  lemma ResolvedNone(dependencies: seq<Dependency>)
    ensures Resolved(dependencies, 0, map[])
  {
  }

  ghost predicate AllIn(resolved: map<nat, nat>, order: seq<nat>) {
    forall a :: a in resolved ==> resolved[a] in order
  }

  lemma DependsOn(m: Manifests, id: nat, k: nat)
    requires id in m && k < |m[id]|
    ensures Depends(m, id, m[id][k].package)
  {
    assert m[id][k] in m[id];
  }

  lemma Pushes(m: Manifests, stack: seq<nat>, id: nat)
    requires stack != [] ==> Path(m, stack) && Depends(m, stack[|stack| - 1], id)
    ensures Path(m, stack + [id])
  {
  }

  /** Finishing a package whose dependencies are finished. */
  lemma Popped(m: Manifests, edges: Edges, order: seq<nat>, id: nat, resolved: map<nat, nat>)
    requires (forall p :: p in edges <==> p in order) && DependencyFirst(order, edges)
    requires forall p :: p in order ==> Faithful(m, edges, p)
    requires id !in order && id in m && Resolved(m[id], |m[id]|, resolved)
    requires AllIn(resolved, order)
    ensures DependencyFirst(order + [id], edges[id := resolved])
    ensures forall p :: p in order + [id] ==> Faithful(m, edges[id := resolved], p)
  {
    var order2, edges2 := order + [id], edges[id := resolved];
    forall i, d | 0 <= i < |order2| && d in edges2[order2[i]].Values ensures d in order2[..i] {
      assert order2[..i] == order[..i];
    }
    forall a, q ensures a in resolved && resolved[a] == q <==> Dependency(a, q) in m[id] {
      if a in resolved {
        var k :| 0 <= k < |m[id]| && m[id][k].alias == a;
        assert m[id][k] == Dependency(a, resolved[a]);
      }
      if Dependency(a, q) in m[id] {
        var k :| 0 <= k < |m[id]| && m[id][k] == Dependency(a, q);
      }
    }
    forall p | p in order2 ensures Faithful(m, edges2, p) {
      assert p != id ==> Faithful(m, edges, p);
    }
  }

  // ------------------------------------------------------------------ the resolved graph

  /** What `PackageGraph::resolve` promises of a graph: exactly the packages the root reaches, their
      dependency edges alias by alias, and no cycle. */
  ghost predicate Graph(m: Manifests, root: nat, edges: Edges) {
    && (forall p :: p in edges <==> Reaches(m, root, p))
    && (forall p :: p in edges ==> Faithful(m, edges, p))
    && !ReachesCycle(m, root)
  }

  /** `PackageGraph::resolve`: it succeeds exactly when every package the root reaches has a manifest
      and none is on a cycle. */
  method Resolve(manifests: Manifests, root: nat) returns (r: Result<Edges, Error>, ghost order: seq<nat>)
    requires UniqueAliases(manifests)
    ensures r.Success? ==> Graph(manifests, root, r.value)
    ensures r.Success? ==> DependencyFirst(order, r.value) && forall p :: p in r.value ==> p in order
    ensures r.Failure? && r.error.Cycle? ==> ReachesCycle(manifests, root) && BackTo(manifests, root, r.error.path)
    ensures r.Failure? && r.error.LoadFailure? ==>
              r.error.package !in manifests && Reaches(manifests, root, r.error.package)
  {
    hide Reaches, Path, Depends, DependencyFirst, Faithful, ReachesCycle, Graph, BackTo;
    var resolver := new Resolver(manifests, root);
    ReachesSelf(manifests, root);
    var found := resolver.ResolveRecursive(root);
    order := resolver.order;
    if found.Failure? {
      return Failure(found.error), order;
    }
    IsGraph(manifests, root, resolver.edges, order);
    r := Success(resolver.edges);
  }

  lemma IsGraph(m: Manifests, root: nat, edges: Edges, order: seq<nat>)
    requires DependencyFirst(order, edges) && root in order && forall p :: p in edges <==> p in order
    requires forall p :: p in order ==> Faithful(m, edges, p) && Reaches(m, root, p)
    ensures Graph(m, root, edges)
  {
    hide Reaches, DependencyFirst;
    forall p | Reaches(m, root, p) ensures p in edges {
      ReachedInOrder(m, edges, order, root, p);
    }
    forall p, q | Reaches(m, root, p) && Depends(m, p, q) ensures !Reaches(m, q, p) {
      OrderHasNoCycle(m, edges, order, p, q);
    }
  }

  lemma ReachedInOrder(m: Manifests, edges: Edges, order: seq<nat>, root: nat, p: nat)
    requires DependencyFirst(order, edges) && root in order && Reaches(m, root, p)
    requires forall x :: x in order ==> Faithful(m, edges, x)
    ensures p in order
  {
    var path :| Path(m, path) && path[0] == root && path[|path| - 1] == p;
    var i :| 0 <= i < |order| && order[i] == root;
    OrderDescends(m, edges, order, path, i);
  }

  // ------------------------------------------------------------------ dependency order

  /** `PackageGraph::dependency_order`: every package once, each after all its dependencies, whatever
      order the dependencies of one package are visited in. */
  class Orderer {
    const edges: Edges
    ghost const topological: seq<nat>  // that the graph has no cycle
    var visited: set<nat>
    var output: seq<nat>

    ghost predicate Valid()
      reads this
    {
      && DependencyFirst(topological, edges) && (forall p :: p in edges <==> p in topological)
      && DependencyFirst(output, edges)
      && visited <= edges.Keys && (forall p :: p in output ==> p in visited)
    }

    /** The packages being visited depend, directly or not, on `p`: they come after it. */
    ghost predicate Below(p: nat)
      requires p in topological
      reads this
    {
      forall q :: q in visited && q !in output ==> Before(topological, p, q)
    }

    constructor (edges: Edges, ghost topological: seq<nat>)
      requires DependencyFirst(topological, edges) && forall p :: p in edges <==> p in topological
      ensures this.edges == edges && this.topological == topological && visited == {} && output == [] && Valid()
    {
      this.edges, this.topological := edges, topological;
      visited, output := {}, [];
    }

    method Visit(p: nat)
      requires Valid() && p in edges && Below(p)
      modifies this
      ensures Valid() && p in output && old(output) <= output && old(visited) <= visited
      ensures forall q :: q in visited && q !in output ==> q in old(visited)
      ensures forall q :: q in output && q in old(visited) ==> q in old(output)
      decreases edges.Keys - visited
    {
      hide DependencyFirst, Before;
      if p in visited {
        NotBeforeItself(topological, edges, p);
        return;
      }
      visited := visited + {p};
      var todo := edges[p].Values;
      while todo != {}
        invariant Valid() && todo <= edges[p].Values && p in visited && p !in output
        invariant old(output) <= output && old(visited) + {p} <= visited
        invariant forall q :: q in visited && q !in output ==> q == p || q in old(visited)
        invariant forall q :: q in output && q in old(visited) ==> q in old(output)
        invariant forall d :: d in edges[p].Values && d !in todo ==> d in output
        decreases todo
      {
        var d :| d in todo;
        ghost var before := output;
        DependencyBefore(topological, edges, p, d);
        BeforeTransitive(topological, edges, d, p);
        Visit(d);
        PrefixMembers(before, output);
        todo := todo - {d};
      }
      Appends(output, edges, p);
      output := output + [p];
    }
  }

  lemma PrefixMembers(a: seq<nat>, b: seq<nat>)
    requires a <= b
    ensures forall x :: x in a ==> x in b
  {
    assert b == a + b[|a|..];
  }

  /** `p` stands before `q` in `order`. */
  ghost predicate Before(order: seq<nat>, p: nat, q: nat) {
    exists i, j :: 0 <= i < j < |order| && order[i] == p && order[j] == q
  }

  lemma NotBeforeItself(order: seq<nat>, edges: Edges, p: nat)
    requires DependencyFirst(order, edges)
    ensures !Before(order, p, p)
  {
  }

  lemma DependencyBefore(order: seq<nat>, edges: Edges, p: nat, d: nat)
    requires DependencyFirst(order, edges) && p in order && d in edges[p].Values
    ensures d in order && Before(order, d, p)
  {
    var j :| 0 <= j < |order| && order[j] == p;
    var i :| 0 <= i < j && order[i] == d;
  }

  lemma BeforeTransitive(order: seq<nat>, edges: Edges, d: nat, p: nat)
    requires DependencyFirst(order, edges) && Before(order, d, p)
    ensures forall q :: Before(order, p, q) ==> Before(order, d, q)
  {
    forall q | Before(order, p, q) ensures Before(order, d, q) {
      var i, j :| 0 <= i < j < |order| && order[i] == d && order[j] == p;
      var k, l :| 0 <= k < l < |order| && order[k] == p && order[l] == q;
      assert j == k;
    }
  }

  lemma Appends(order: seq<nat>, edges: Edges, p: nat)
    requires DependencyFirst(order, edges) && p in edges && p !in order
    requires forall d :: d in edges[p].Values ==> d in order
    ensures DependencyFirst(order + [p], edges)
  {
    forall i, d | 0 <= i < |order + [p]| && d in edges[(order + [p])[i]].Values ensures d in (order + [p])[..i] {
      assert (order + [p])[..i] == order[..i];
    }
  }

  method DependencyOrder(manifests: Manifests, root: nat, edges: Edges, ghost topological: seq<nat>)
    returns (output: seq<nat>)
    requires Graph(manifests, root, edges)
    requires DependencyFirst(topological, edges) && forall p :: p in edges <==> p in topological
    ensures DependencyFirst(output, edges) && forall p :: p in output <==> p in edges
    ensures |output| == |edges|
  {
    hide Reaches, Path, Depends, ReachesCycle;
    ReachesSelf(manifests, root);
    var orderer := new Orderer(edges, topological);
    orderer.Visit(root);
    output := orderer.output;
    EveryPackage(manifests, root, edges, output);
    OnceEach(output, edges);
  }

  /** A dependency-first list that holds the root holds everything the root reaches. */
  lemma EveryPackage(m: Manifests, root: nat, edges: Edges, output: seq<nat>)
    requires Graph(m, root, edges) && DependencyFirst(output, edges) && root in output
    ensures forall p :: p in edges ==> p in output
  {
    hide Reaches, Path, ReachesCycle, DependencyFirst;
    DomainOf(output, edges);
    forall p | p in edges ensures p in output {
      ReachedInOrder(m, edges, output, root, p);
    }
  }

  lemma DomainOf(output: seq<nat>, edges: Edges)
    requires DependencyFirst(output, edges)
    ensures forall p :: p in output ==> p in edges
  {
  }

  lemma {:induction false} OnceEach(output: seq<nat>, edges: Edges)
    requires DependencyFirst(output, edges) && forall p :: p in edges ==> p in output
    ensures |output| == |edges|
  {
    DistinctSize(output);
    assert edges.Keys == Elements(output);
  }

  ghost function Elements(xs: seq<nat>): set<nat> {
    set x | x in xs
  }

  lemma {:induction false} DistinctSize(xs: seq<nat>)
    requires forall i, j :: 0 <= i < j < |xs| ==> xs[i] != xs[j]
    ensures |Elements(xs)| == |xs|
  {
    if xs == [] {
      assert Elements(xs) == {};
    } else {
      var (rest, last) := (xs[..|xs| - 1], xs[|xs| - 1]);
      DistinctSize(rest);
      assert last !in Elements(rest);
      assert xs == rest + [last];
      assert Elements(xs) == Elements(rest) + {last};
    }
  }
}
