/**
 The import-cycle finder of scripts/detect_cycles.py: a depth-first search with one shared set of
 visited modules and one shared path.
 */
module ImportCycles {
  import opened Collections
  import opened Options

  type Node = string

  /** The dictionary of the source; each set of dependencies is listed in its iteration order. */
  type Graph = map<Node, seq<Node>>

  function Neighbors(graph: Graph, node: Node): seq<Node> {
    if node in graph then graph[node] else []
  }

  /** The module a depends on b. */
  predicate Edge(graph: Graph, a: Node, b: Node) {
    a in graph && b in graph[a]
  }

  ghost predicate Path(graph: Graph, path: seq<Node>) {
    forall i, k :: 0 <= i < k < |path| && k == i + 1 ==> Edge(graph, path[i], path[k])
  }

  /** A closed path that repeats its first node at the end. */
  ghost predicate Cycle(graph: Graph, cycle: seq<Node>) {
    |cycle| >= 2 && cycle[0] == cycle[|cycle| - 1] && Path(graph, cycle)
  }

  ghost predicate SimpleCycle(graph: Graph, cycle: seq<Node>) {
    Cycle(graph, cycle) && Distinct(cycle[1..])
  }

  /** Every module the search can meet. */
  ghost function Universe(graph: Graph): set<Node> {
    graph.Keys + set a, b | a in graph.Keys && b in graph[a] :: b
  }

  // ---------------------------------------------------------------------------------------
  // Finishing order: why an unsuccessful search excludes every cycle

  /** Every neighbour of a finished node finished before it. */
  ghost predicate FinishOrder(graph: Graph, order: seq<Node>) {
    order == [] ||
    var before, last := order[..|order| - 1], order[|order| - 1];
    FinishOrder(graph, before) && last !in before && forall b :: Edge(graph, last, b) ==> b in before
  }

  lemma {:induction false} NeighborsFinishEarlier(graph: Graph, order: seq<Node>, r: nat, b: Node)
    requires FinishOrder(graph, order) && r < |order| && Edge(graph, order[r], b)
    ensures b in order[..r]
  {
    var before := order[..|order| - 1];
    if r < |before| {
      NeighborsFinishEarlier(graph, before, r, b);
      assert before[..r] == order[..r];
    }
  }

  lemma {:induction false} FinishedOnce(graph: Graph, order: seq<Node>)
    requires FinishOrder(graph, order)
    ensures Distinct(order)
  {
    if order != [] {
      FinishedOnce(graph, order[..|order| - 1]);
    }
  }

  lemma {:induction false} RankFalls(graph: Graph, order: seq<Node>, path: seq<Node>, r: nat)
    requires FinishOrder(graph, order) && Path(graph, path) && |path| > 0
    requires r < |order| && order[r] == path[0]
    ensures path[|path| - 1] in order[..r + 1]
    ensures |path| > 1 ==> path[|path| - 1] in order[..r]
  {
    if |path| > 1 {
      assert Edge(graph, path[0], path[1]);
      NeighborsFinishEarlier(graph, order, r, path[1]);
      var q: nat :| q < r && order[q] == path[1];
      RankFalls(graph, order, path[1..], q);
    }
  }

  /** A finishing order that covers every module with dependencies leaves no room for a cycle. */
  lemma FinishedGraphIsAcyclic(graph: Graph, order: seq<Node>, cycle: seq<Node>)
    requires FinishOrder(graph, order) && forall a :: a in graph ==> a in order
    ensures !Cycle(graph, cycle)
  {
    if Cycle(graph, cycle) {
      assert Edge(graph, cycle[0], cycle[1]);
      var r: nat :| r < |order| && order[r] == cycle[0];
      RankFalls(graph, order, cycle, r);
      FinishedOnce(graph, order);
    }
  }

  lemma FinishNode(graph: Graph, order: seq<Node>, node: Node)
    requires FinishOrder(graph, order) && node !in order
    requires forall b :: Edge(graph, node, b) ==> b in order
    ensures FinishOrder(graph, order + [node])
  {
    assert (order + [node])[..|order|] == order;
  }

  // ---------------------------------------------------------------------------------------
  // The search

  /** These nodes were visited and are off the path again. */
  ghost predicate AllLeft(visited: set<Node>, path: seq<Node>, nodes: seq<Node>) {
    forall n :: n in nodes ==> n in visited && n !in path
  }

  lemma OneMoreLeft(before: set<Node>, visited: set<Node>, path: seq<Node>, nodes: seq<Node>, i: nat)
    requires i < |nodes| && AllLeft(before, path, nodes[..i]) && before <= visited
    requires nodes[i] in visited && nodes[i] !in path
    ensures AllLeft(visited, path, nodes[..i + 1])
  {
    assert nodes[..i + 1] == nodes[..i] + [nodes[i]];
  }

  /** The visited nodes are those on the path and those that are finished, and no node is both. */
  ghost predicate Accounted(visited: set<Node>, path: seq<Node>, finished: seq<Node>) {
    && (forall n :: n in visited <==> n in path || n in finished)
    && (forall n :: n in path ==> n !in finished)
  }

  /** The last node of the path becomes the last that is finished. */
  lemma FinishLast(visited: set<Node>, rest: seq<Node>, node: Node, finished: seq<Node>)
    requires Accounted(visited, rest + [node], finished) && node !in rest
    ensures Accounted(visited, rest, finished + [node])
  {
    forall n ensures n in visited <==> n in rest || n in finished + [node] {
      assert n in rest + [node] <==> n in rest || n == node;
    }
  }

  lemma PopPath(graph: Graph, path: seq<Node>)
    requires Path(graph, path) && Distinct(path) && path != []
    ensures var rest, last := path[..|path| - 1], path[|path| - 1];
            path == rest + [last] && Path(graph, rest) && Distinct(rest) && last !in rest
  {}

  class Search {
    const graph: Graph
    var visited: set<Node>
    var path: seq<Node>
    ghost var finished: seq<Node>

    constructor (graph: Graph)
      ensures this.graph == graph && Valid() && path == [] && visited == {}
    {
      this.graph := graph;
      visited, path, finished := {}, [], [];
    }

    ghost predicate Valid()
      reads this
    {
      && Path(graph, path) && Distinct(path)
      && FinishOrder(graph, finished)
      && Accounted(visited, path, finished)
      && visited <= Universe(graph)
    }

    /**
     Either returns a cycle, or returns with the path as it was and `node` finished, so that no
     cycle can be reached from it.
     */
    method Visit(node: Node) returns (cycle: Option<seq<Node>>)
      requires Valid() && node in Universe(graph)
      requires path != [] ==> Edge(graph, path[|path| - 1], node)
      modifies this
      ensures cycle.Some? ==> SimpleCycle(graph, cycle.value)
      ensures cycle.None? ==> Valid() && path == old(path) && node in visited && node !in path
      ensures cycle.None? ==> old(visited) <= visited
      decreases Universe(graph) - visited
    {
      if node in path {
        var first := IndexOf(path, node);
        ClosePath(graph, path, first, node);
        return Some(path[first..] + [node]);
      }
      if node in visited {
        return None;
      }

      Enter(node);
      var neighbors := Neighbors(graph, node);
      for i := 0 to |neighbors|
        invariant Valid() && path == old(path) + [node] && old(visited) + {node} <= visited
        invariant AllLeft(visited, path, neighbors[..i])
      {
        assert Edge(graph, node, neighbors[i]);
        NeighborInUniverse(graph, node, neighbors[i]);
        ghost var before := visited;
        cycle := Visit(neighbors[i]);
        if cycle.Some? {
          return;
        }
        OneMoreLeft(before, visited, path, neighbors, i);
      }
      assert neighbors[..|neighbors|] == neighbors;
      Leave(node);
      return None;
    }

    method Enter(node: Node)
      requires Valid() && node in Universe(graph) && node !in visited
      requires path != [] ==> Edge(graph, path[|path| - 1], node)
      modifies this
      ensures Valid() && finished == old(finished)
      ensures visited == old(visited) + {node} && path == old(path) + [node]
    {
      visited := visited + {node};
      path := path + [node];
    }

    method Leave(node: Node)
      requires Valid() && path != [] && path[|path| - 1] == node
      requires forall b :: Edge(graph, node, b) ==> b in finished
      modifies this
      ensures Valid() && visited == old(visited)
      ensures path == old(path[..|path| - 1]) && finished == old(finished) + [node]
    {
      FinishNode(graph, finished, node);
      PopPath(graph, path);
      FinishLast(visited, path[..|path| - 1], node, finished);
      path := path[..|path| - 1];
      finished := finished + [node];
    }
  }

  lemma NeighborInUniverse(graph: Graph, a: Node, b: Node)
    requires Edge(graph, a, b)
    ensures b in Universe(graph)
  {}

  /** Meeting a node of the path closes the part of the path from there on. */
  lemma ClosePath(graph: Graph, path: seq<Node>, first: nat, node: Node)
    requires Path(graph, path) && Distinct(path) && first < |path| && path[first] == node
    requires Edge(graph, path[|path| - 1], node)
    ensures SimpleCycle(graph, path[first..] + [node])
  {}

  method IndexOf(path: seq<Node>, node: Node) returns (i: nat)
    requires node in path
    ensures i < |path| && path[i] == node && node !in path[..i]
  {
    i := 0;
    while path[i] != node
      invariant i < |path| && node !in path[..i] && node in path[i..]
      decreases |path| - i
    {
      assert path[i..] == [path[i]] + path[i + 1..];
      i := i + 1;
    }
  }

  /** `keys` lists the modules of the graph in the order the dictionary is iterated. */
  method FindCycle(graph: Graph, keys: seq<Node>) returns (cycle: Option<seq<Node>>)
    requires forall n :: n in keys <==> n in graph
    ensures cycle.None? <==> forall c :: !Cycle(graph, c)
    ensures cycle.Some? ==> SimpleCycle(graph, cycle.value)
  {
    var search := new Search(graph);
    for i := 0 to |keys|
      invariant search.graph == graph && search.Valid() && search.path == []
      invariant forall k :: 0 <= k < i ==> keys[k] in search.visited
    {
      cycle := search.Visit(keys[i]);
      if cycle.Some? {
        return;
      }
    }
    forall c ensures !Cycle(graph, c) {
      FinishedGraphIsAcyclic(graph, search.finished, c);
    }
    return None;
  }
}
