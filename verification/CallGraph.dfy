/** Circular calls between contracts: a breadth-first search over simple paths that finds exactly the simple cycles. */
module CallGraph {
  import opened Lists

  type Node = string

  datatype Edge = Edge(target: Node, callee: string)

  type Graph = map<Node, seq<Edge>>

  type Path = seq<Node>

  /** A queue entry: the node to expand and the path that led to it. */
  datatype Entry = Entry(current: Node, path: Path)

  // ---------------------------------------------------------------- what a cycle is

  /** `graph.get(node, [])`. */
  function Edges(graph: Graph, node: Node): seq<Edge> {
    if node in graph then graph[node] else []
  }

  predicate HasEdge(graph: Graph, u: Node, v: Node) {
    exists i :: 0 <= i < |Edges(graph, u)| && Edges(graph, u)[i].target == v
  }

  predicate IsWalk(graph: Graph, p: Path) {
    forall i :: 0 <= i < |p| - 1 ==> HasEdge(graph, p[i], p[i + 1])
  }

  predicate IsSimplePath(graph: Graph, p: Path, start: Node) {
    p != [] && p[0] == start && IsWalk(graph, p) && Distinct(p)
  }

  /** A closed walk along edges that visits no node twice before it returns to its start. */
  predicate IsCycle(graph: Graph, c: Path, start: Node) {
    |c| >= 2 && c[|c| - 1] == start && IsWalk(graph, c) && IsSimplePath(graph, c[..|c| - 1], start)
  }

  // ---------------------------------------------------------------- termination

  /** Every node that occurs in the graph. */
  function Nodes(graph: Graph): set<Node> {
    graph.Keys + set u, i | u in graph && 0 <= i < |graph[u]| :: graph[u][i].target
  }

  ghost function MaxDegree(graph: Graph, keys: set<Node>): (b: nat)
    requires keys <= graph.Keys
    ensures forall u :: u in keys ==> |graph[u]| <= b
  {
    if keys == {} then 0
    else
      var u :| u in keys;
      var rest := MaxDegree(graph, keys - {u});
      if |graph[u]| > rest then |graph[u]| else rest
  }

  function Power(b: nat, e: nat): (r: nat)
    ensures b > 0 ==> r > 0
  {
    if e == 0 then 1 else b * Power(b, e - 1)
  }

  /** What a queued path of length k can still give rise to, in units of work. */
  function Weight(degree: nat, nodes: nat, k: nat): nat {
    if k > nodes then 0 else Power(degree + 1, nodes - k)
  }

  function QueueWeight(degree: nat, nodes: nat, queue: seq<Entry>): nat {
    if queue == [] then 0 else Weight(degree, nodes, |queue[0].path|) + QueueWeight(degree, nodes, queue[1..])
  }

  lemma {:induction false} QueueWeightAppend(degree: nat, nodes: nat, queue: seq<Entry>, e: Entry)
    ensures QueueWeight(degree, nodes, queue + [e]) == QueueWeight(degree, nodes, queue) + Weight(degree, nodes, |e.path|)
  {
    if queue == [] {
      assert queue + [e] == [e];
      assert [e][1..] == [];
    } else {
      assert (queue + [e])[1..] == queue[1..] + [e];
      QueueWeightAppend(degree, nodes, queue[1..], e);
    }
  }

  /** An entry outweighs all the entries it can push. */
  lemma EntryOutweighs(degree: nat, nodes: nat, k: nat, pushed: nat)
    requires k <= nodes && pushed <= degree
    ensures pushed * Weight(degree, nodes, k + 1) < Weight(degree, nodes, k)
  {
    var w := Weight(degree, nodes, k + 1);
    if k < nodes {
      assert Weight(degree, nodes, k) == (degree + 1) * w;
      assert (degree + 1) * w == degree * w + w;
      assert pushed * w <= degree * w;
    }
  }

  lemma {:induction false} DistinctFits(p: Path, s: set<Node>)
    requires Distinct(p) && forall i :: 0 <= i < |p| ==> p[i] in s
    ensures |p| <= |s|
  {
    if p != [] {
      var last := p[|p| - 1];
      DistinctFits(p[..|p| - 1], s - {last});
    }
  }

  lemma PathFits(graph: Graph, p: Path, start: Node)
    requires start in graph && IsSimplePath(graph, p, start)
    ensures |p| <= |Nodes(graph)|
  {
    forall i | 0 <= i < |p|
      ensures p[i] in Nodes(graph)
    {
      if i > 0 {
        assert HasEdge(graph, p[i - 1], p[i]);
      }
    }
    DistinctFits(p, Nodes(graph));
  }

  // ---------------------------------------------------------------- what the queue still has to find

  /** The cycle `c` runs through the queued path. */
  predicate Ahead(p: Path, c: Path) {
    |p| < |c| && c[..|p|] == p
  }

  predicate Queued(queue: seq<Entry>, c: Path) {
    exists i :: 0 <= i < |queue| && Ahead(queue[i].path, c)
  }

  /** `c` continues `p` by one of the edges from index j on. */
  predicate AheadFrom(p: Path, edges: seq<Edge>, j: nat, c: Path) {
    Ahead(p, c) && exists e :: j <= e < |edges| && edges[e].target == c[|p|]
  }

  predicate QueueOk(graph: Graph, queue: seq<Entry>, start: Node) {
    forall i :: 0 <= i < |queue| ==>
      IsSimplePath(graph, queue[i].path, start) && queue[i].current == queue[i].path[|queue[i].path| - 1]
  }

  /** Found cycles are cycles through `start` (or were found earlier), none twice. */
  predicate FoundOk(graph: Graph, earlier: seq<Path>, cycles: seq<Path>, start: Node) {
    && earlier <= cycles && Distinct(cycles)
    && forall i :: |earlier| <= i < |cycles| ==> IsCycle(graph, cycles[i], start)
  }

  lemma StepExtends(graph: Graph, p: Path, start: Node, j: nat, edges: seq<Edge>)
    requires IsSimplePath(graph, p, start) && edges == Edges(graph, p[|p| - 1]) && j < |edges|
    ensures IsWalk(graph, p + [edges[j].target])
    ensures edges[j].target !in p ==> IsSimplePath(graph, p + [edges[j].target], start)
    ensures edges[j].target == start ==> IsCycle(graph, p + [start], start)
  {
    var q := p + [edges[j].target];
    forall i | 0 <= i < |q| - 1
      ensures HasEdge(graph, q[i], q[i + 1])
    {
      if i < |p| - 1 {
        assert HasEdge(graph, p[i], p[i + 1]);
      }
    }
    assert q[..|q| - 1] == p;
  }

  /** A cycle through a path uses one of the edges at its end. */
  lemma CycleContinues(graph: Graph, p: Path, start: Node, c: Path)
    requires p != [] && IsCycle(graph, c, start) && Ahead(p, c)
    ensures AheadFrom(p, Edges(graph, p[|p| - 1]), 0, c)
  {
    assert HasEdge(graph, c[|p| - 1], c[|p|]);
    assert c[|p| - 1] == p[|p| - 1];
  }

  /** A cycle that continues `p` by `v` is complete if `v` is the start, and else runs through `p + [v]`. */
  lemma CycleStep(graph: Graph, p: Path, start: Node, c: Path)
    requires IsSimplePath(graph, p, start) && IsCycle(graph, c, start) && Ahead(p, c)
    ensures c[|p|] == start ==> c == p + [start]
    ensures c[|p|] != start ==> c[|p|] !in p && Ahead(p + [c[|p|]], c)
  {
    var k := |p|;
    var inner := c[..|c| - 1];
    assert c[..k + 1] == c[..k] + [c[k]];
    if k < |c| - 1 {
      assert inner[k] == c[k] && inner[0] == start;
      forall i | 0 <= i < k
        ensures p[i] != c[k]
      {
        assert inner[i] == p[i];
      }
    }
  }

  /** While the edges of `p` from j on are still to be looked at, no cycle through `p` has been lost. */
  ghost predicate Covered(graph: Graph, start: Node, p: Path, edges: seq<Edge>, j: nat, queue: seq<Entry>, cycles: seq<Path>) {
    forall c :: IsCycle(graph, c, start) && Ahead(p, c) ==> c in cycles || Queued(queue, c) || AheadFrom(p, edges, j, c)
  }

  lemma QueuedStays(queue: seq<Entry>, e: Entry, c: Path)
    requires Queued(queue, c) || Ahead(e.path, c)
    ensures Queued(queue + [e], c)
  {
    if Queued(queue, c) {
      var i :| 0 <= i < |queue| && Ahead(queue[i].path, c);
      assert (queue + [e])[i] == queue[i];
    } else {
      assert (queue + [e])[|queue|] == e;
    }
  }

  /** Looking at edge j keeps every cycle: it is complete, it is queued, or it uses a later edge. */
  lemma CoverStep(graph: Graph, start: Node, p: Path, edges: seq<Edge>, j: nat, queue: seq<Entry>, cycles: seq<Path>,
                  queue': seq<Entry>, cycles': seq<Path>)
    requires IsSimplePath(graph, p, start) && j < |edges| && Covered(graph, start, p, edges, j, queue, cycles)
    requires cycles <= cycles'
    requires edges[j].target == start ==> queue' == queue && p + [start] in cycles'
    requires edges[j].target != start && edges[j].target in p ==> queue' == queue
    requires edges[j].target != start && edges[j].target !in p ==> queue' == queue + [Entry(edges[j].target, p + [edges[j].target])]
    ensures Covered(graph, start, p, edges, j + 1, queue', cycles')
  {
    forall c | IsCycle(graph, c, start) && Ahead(p, c)
      ensures c in cycles' || Queued(queue', c) || AheadFrom(p, edges, j + 1, c)
    {
      CycleStep(graph, p, start, c);
      if Queued(queue, c) {
        if queue' != queue {
          QueuedStays(queue, queue'[|queue|], c);
        }
      } else if c !in cycles && !AheadFrom(p, edges, j + 1, c) {
        assert edges[j].target == c[|p|];
        if c[|p|] != start {
          QueuedStays(queue, queue'[|queue|], c);
        }
      }
    }
  }

  // ---------------------------------------------------------------- the search

  /** One new cycle is recorded unless it is known. */
  method Record(cycle: Path, cycles0: seq<Path>, seen0: set<Path>) returns (cycles: seq<Path>, seen: set<Path>)
    requires Distinct(cycles0) && seen0 == set c | c in cycles0
    ensures Distinct(cycles) && seen == set c | c in cycles
    ensures cycles == cycles0 || cycles == cycles0 + [cycle]
    ensures cycle in cycles
  {
    cycles, seen := cycles0, seen0;
    if cycle !in seen {
      seen := seen + {cycle};
      cycles := cycles + [cycle];
    }
  }

  /** Expand one queue entry: the loop over its outgoing edges. */
  method Expand(graph: Graph, start: Node, entry: Entry, rest: seq<Entry>, cycles0: seq<Path>, seen0: set<Path>,
                ghost earlier: seq<Path>, ghost degree: nat)
    returns (queue: seq<Entry>, cycles: seq<Path>, seen: set<Path>)
    requires start in graph && QueueOk(graph, rest, start) && |Edges(graph, entry.current)| <= degree
    requires IsSimplePath(graph, entry.path, start) && entry.current == entry.path[|entry.path| - 1]
    requires FoundOk(graph, earlier, cycles0, start) && seen0 == set c | c in cycles0
    ensures QueueOk(graph, queue, start) && FoundOk(graph, earlier, cycles, start) && seen == set c | c in cycles
    ensures cycles0 <= cycles && rest <= queue
    ensures forall c :: IsCycle(graph, c, start) && Ahead(entry.path, c) ==> c in cycles || Queued(queue, c)
    ensures QueueWeight(degree, |Nodes(graph)|, queue)
      < QueueWeight(degree, |Nodes(graph)|, rest) + Weight(degree, |Nodes(graph)|, |entry.path|)
  {
    var path := entry.path;
    var edges := Edges(graph, entry.current);
    queue, cycles, seen := rest, cycles0, seen0;
    ghost var share := Weight(degree, |Nodes(graph)|, |path| + 1);
    forall c | IsCycle(graph, c, start) && Ahead(path, c)
      ensures AheadFrom(path, edges, 0, c)
    {
      CycleContinues(graph, path, start, c);
    }
    for j := 0 to |edges|
      invariant QueueOk(graph, queue, start) && FoundOk(graph, earlier, cycles, start) && seen == set c | c in cycles
      invariant cycles0 <= cycles && rest <= queue
      invariant Covered(graph, start, path, edges, j, queue, cycles)
      invariant QueueWeight(degree, |Nodes(graph)|, queue) <= QueueWeight(degree, |Nodes(graph)|, rest) + j * share
    {
      ghost var queue', cycles' := queue, cycles;
      var target := edges[j].target;
      StepExtends(graph, path, start, j, edges);
      if target == start {
        cycles, seen := Record(path + [start], cycles, seen);
      } else if target !in path {
        var next := Entry(target, path + [target]);
        queue := queue + [next];
        QueueWeightAppend(degree, |Nodes(graph)|, queue', next);
      }
      CoverStep(graph, start, path, edges, j, queue', cycles', queue, cycles);
      assert (j + 1) * share == j * share + share;
    }
    PathFits(graph, path, start);
    EntryOutweighs(degree, |Nodes(graph)|, |path|, |edges|);
  }

  /** The breadth-first search from one node. */
  method CyclesThrough(graph: Graph, start: Node, cycles0: seq<Path>, seen0: set<Path>) returns (cycles: seq<Path>, seen: set<Path>)
    requires start in graph && Distinct(cycles0) && seen0 == set c | c in cycles0
    ensures FoundOk(graph, cycles0, cycles, start) && seen == set c | c in cycles
    ensures forall c :: IsCycle(graph, c, start) ==> c in cycles
  {
    var queue := [Entry(start, [start])];
    cycles, seen := cycles0, seen0;
    ghost var degree := MaxDegree(graph, graph.Keys);
    while queue != []
      invariant QueueOk(graph, queue, start) && FoundOk(graph, cycles0, cycles, start) && seen == set c | c in cycles
      invariant forall c :: IsCycle(graph, c, start) ==> c in cycles || Queued(queue, c)
      decreases QueueWeight(degree, |Nodes(graph)|, queue)
    {
      queue, cycles, seen := Expand(graph, start, queue[0], queue[1..], cycles, seen, cycles0, degree);
    }
  }

  /**
   Exactly the simple cycles from every key of the graph, each once. `order` is the sorted key list;
   the result is exact for any order of the keys.
   */
  method FindCircularDependencies(graph: Graph, order: seq<Node>) returns (cycles: seq<Path>)
    requires Distinct(order) && forall u :: u in order <==> u in graph
    ensures Distinct(cycles)
    ensures forall c :: c in cycles <==> c != [] && IsCycle(graph, c, c[0])
  {
    cycles := [];
    var seen: set<Path> := {};
    for i := 0 to |order|
      invariant Distinct(cycles) && seen == set c | c in cycles
      invariant forall c :: c in cycles ==> c != [] && IsCycle(graph, c, c[0])
      invariant forall c, k :: 0 <= k < i && IsCycle(graph, c, order[k]) ==> c in cycles
    {
      ghost var before := cycles;
      cycles, seen := CyclesThrough(graph, order[i], cycles, seen);
      assert cycles == before + cycles[|before|..];
      forall c | c in cycles
        ensures c != [] && IsCycle(graph, c, c[0])
      {
        var k :| 0 <= k < |cycles| && cycles[k] == c;
        CycleStartsAtStart(graph, c, order[i]);
      }
    }
    forall c | c != [] && IsCycle(graph, c, c[0])
      ensures c in cycles
    {
      assert HasEdge(graph, c[0], c[1]);
      var k :| 0 <= k < |order| && order[k] == c[0];
    }
  }

  lemma CycleStartsAtStart(graph: Graph, c: Path, start: Node)
    ensures IsCycle(graph, c, start) ==> c[0] == start
  {
    if IsCycle(graph, c, start) {
      assert c[..|c| - 1][0] == c[0];
    }
  }
}
