/** The dependency gate's worklist: the packages a package pulls in, over a graph that may be cyclic. */
module DepsClosure {

  type Id = string
  type Graph = map<Id, seq<Id>>

  /** `graph.get(i, [])`. */
  function Edges(graph: Graph, i: Id): seq<Id> {
    if i in graph then graph[i] else []
  }

  /** A walk along the edges: each package is a dependency of the one before. */
  ghost predicate Walk(graph: Graph, path: seq<Id>) {
    |path| > 0 && forall i :: 0 <= i < |path| - 1 ==> path[i + 1] in Edges(graph, path[i])
  }

  ghost predicate WalkBetween(graph: Graph, path: seq<Id>, from: Id, to: Id) {
    Walk(graph, path) && path[0] == from && path[|path| - 1] == to
  }

  ghost predicate Reaches(graph: Graph, from: Id, to: Id) {
    exists path :: WalkBetween(graph, path, from, to)
  }

  lemma ReachesSelf(graph: Graph, from: Id)
    ensures Reaches(graph, from, from)
  {
    assert WalkBetween(graph, [from], from, from);
  }

  lemma ReachesNext(graph: Graph, from: Id, mid: Id, to: Id)
    requires Reaches(graph, from, mid) && to in Edges(graph, mid)
    ensures Reaches(graph, from, to)
  {
    var path :| WalkBetween(graph, path, from, mid);
    assert WalkBetween(graph, path + [to], from, to);
  }

  /** A set that holds the start and, with a package, its dependencies holds all that is reachable. */
  lemma {:induction false} ClosedUnderWalks(graph: Graph, seen: set<Id>, path: seq<Id>)
    requires Walk(graph, path) && path[0] in seen
    requires forall i, d :: i in seen && d in Edges(graph, i) ==> d in seen
    ensures path[|path| - 1] in seen
    decreases |path|
  {
    if |path| > 1 {
      var front := path[..|path| - 1];
      ClosedUnderWalks(graph, seen, front);
      assert path[|path| - 1] in Edges(graph, front[|front| - 1]);
    }
  }

  /** Everything the worklist can ever meet. */
  ghost function Universe(graph: Graph, root: Id): set<Id> {
    {root} + graph.Keys + (set i, d | i in graph && d in graph[i] :: d)
  }

  /** `closure`: ends on every graph, with exactly the packages reachable from the root. */
  method Closure(graph: Graph, root: Id) returns (seen: set<Id>)
    ensures forall i :: i in seen <==> Reaches(graph, root, i)
  {
    seen := {};
    var stack := [root];
    ReachesSelf(graph, root);
    while stack != []
      invariant root in seen || root in stack
      invariant forall i :: i in seen || i in stack ==> i in Universe(graph, root) && Reaches(graph, root, i)
      invariant forall i, d :: i in seen && d in Edges(graph, i) ==> d in seen || d in stack
      decreases Universe(graph, root) - seen, |stack|
    {
      var i := stack[|stack| - 1];
      ghost var before := stack;
      stack := stack[..|stack| - 1];
      assert before == stack + [i];
      if i in seen {
        continue;
      }
      forall d | d in Edges(graph, i)
        ensures Reaches(graph, root, d)
      {
        ReachesNext(graph, root, i, d);
      }
      seen := seen + {i};
      stack := stack + Edges(graph, i);
    }
    forall i | Reaches(graph, root, i)
      ensures i in seen
    {
      var path :| WalkBetween(graph, path, root, i);
      ClosedUnderWalks(graph, seen, path);
    }
  }

  /** All packages pulled in, the package itself left out. */
  ghost predicate AreDependencies(graph: Graph, root: Id, deps: set<Id>) {
    forall i :: i in deps <==> i != root && Reaches(graph, root, i)
  }

  /** The reported number: the distinct packages pulled in. */
  method CountDependencies(graph: Graph, root: Id) returns (count: nat)
    ensures exists deps :: AreDependencies(graph, root, deps) && count == |deps|
  {
    var seen := Closure(graph, root);
    ReachesSelf(graph, root);
    count := |seen| - 1;
    assert AreDependencies(graph, root, seen - {root});
  }
}
