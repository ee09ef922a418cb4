/** The dependency cycle check of the architecture script: `visit` over workspace units and
    `visitSource` over source files are this one three-colour depth-first search. */
module Cycles {

  /** A workspace unit or a source file. */
  datatype Node = Node(id: nat)

  /** Each dependency set as it was collected from the imports; not every dependency has a set of its own. */
  type Graph = map<Node, set<Node>>

  function Dependencies(g: Graph, n: Node): set<Node> {
    if n in g then g[n] else {}
  }

  predicate Edge(g: Graph, a: Node, b: Node) {
    b in Dependencies(g, a)
  }

  ghost predicate Walk(g: Graph, w: seq<Node>) {
    forall i, j :: 0 <= i < |w| - 1 && j == i + 1 ==> Edge(g, w[i], w[j])
  }

  ghost predicate Cycle(g: Graph, w: seq<Node>) {
    |w| >= 2 && Walk(g, w) && w[0] == w[|w| - 1]
  }

  ghost predicate Cyclic(g: Graph) {
    exists w :: Cycle(g, w)
  }

  ghost predicate Distinct(w: seq<Node>) {
    forall i, j :: 0 <= i < j < |w| ==> w[i] != w[j]
  }

  /** What a violation reports: a walk without repetition up to its last node, which it has met before. */
  ghost predicate Reported(g: Graph, w: seq<Node>) {
    |w| >= 2 && Walk(g, w) && Distinct(w[..|w| - 1]) && w[|w| - 1] in w[..|w| - 1]
  }

  lemma ReportedIsCycle(g: Graph, w: seq<Node>)
    requires Reported(g, w)
    ensures Cyclic(g)
  {
    var last := |w| - 1;
    var k :| 0 <= k < last && w[..last][k] == w[last];
    assert Cycle(g, w[k..]);
  }

  /** Every edge out of a ranked node leads to a node of lower rank. */
  ghost predicate Ranked(g: Graph, rank: map<Node, nat>) {
    && (forall n :: n in rank ==> rank[n] < |rank|)
    && (forall n, d :: n in rank && Edge(g, n, d) ==> d in rank && rank[d] < rank[n])
  }

  lemma {:induction false} RankFalls(g: Graph, rank: map<Node, nat>, w: seq<Node>)
    requires Ranked(g, rank) && Walk(g, w) && |w| >= 2 && w[0] in rank
    ensures w[|w| - 1] in rank && rank[w[|w| - 1]] < rank[w[0]]
  {
    assert Edge(g, w[0], w[1]);
    if |w| > 2 {
      RankFalls(g, rank, w[1..]);
    }
  }

  lemma RankedIsAcyclic(g: Graph, rank: map<Node, nat>)
    requires Ranked(g, rank) && forall n :: n in g ==> n in rank
    ensures !Cyclic(g)
  {
    forall w | Cycle(g, w) ensures false {
      assert Edge(g, w[0], w[1]);
      RankFalls(g, rank, w);
    }
  }

  lemma RankNext(g: Graph, rank: map<Node, nat>, n: Node)
    requires Ranked(g, rank) && n !in rank && forall d :: Edge(g, n, d) ==> d in rank
    ensures Ranked(g, rank[n := |rank|])
  {
    assert |rank[n := |rank|]| == |rank| + 1;
  }

  lemma {:induction false} SmallerSet<T>(a: set<T>, b: set<T>)
    requires a <= b
    ensures |a| <= |b|
    decreases |a|
  {
    if a != {} {
      var x :| x in a;
      SmallerSet(a - {x}, b - {x});
    }
  }

  lemma FewerLeft<T>(before: set<T>, after: set<T>, x: T)
    requires after <= before && x in before && x !in after
    ensures |after| < |before|
  {
    SmallerSet(after, before - {x});
  }

  /** The grey nodes are exactly those of the trail, which is a walk without repetition. */
  ghost predicate TrailOk(g: Graph, trail: seq<Node>, visiting: set<Node>) {
    if trail == [] then visiting == {}
    else
      var last := trail[|trail| - 1];
      && last in visiting
      && (|trail| > 1 ==> Edge(g, trail[|trail| - 2], last))
      && TrailOk(g, trail[..|trail| - 1], visiting - {last})
  }

  lemma {:induction false} GreyIsTrail(g: Graph, trail: seq<Node>, visiting: set<Node>)
    requires TrailOk(g, trail, visiting)
    ensures Distinct(trail) && Walk(g, trail)
    ensures forall n :: n in trail <==> n in visiting
  {
    if trail != [] {
      var init, last := trail[..|trail| - 1], trail[|trail| - 1];
      GreyIsTrail(g, init, visiting - {last});
      assert trail == init + [last];
    }
  }

  lemma Enter(g: Graph, trail: seq<Node>, visiting: set<Node>, unit: Node)
    requires TrailOk(g, trail, visiting) && unit !in visiting
    requires trail != [] ==> Edge(g, trail[|trail| - 1], unit)
    ensures TrailOk(g, trail + [unit], visiting + {unit})
  {
    assert (trail + [unit])[..|trail|] == trail;
    assert visiting + {unit} - {unit} == visiting;
  }

  /** Every violation is a real one, and without violations the visited nodes have been ranked. */
  ghost predicate SearchOk(g: Graph, visited: set<Node>, violations: seq<seq<Node>>, rank: map<Node, nat>) {
    && (forall k :: 0 <= k < |violations| ==> Reported(g, violations[k]))
    && (violations == [] ==> rank.Keys == visited && Ranked(g, rank))
  }

  /** Meeting a grey node again. */
  lemma Clash(g: Graph, trail: seq<Node>, visiting: set<Node>, unit: Node, visited: set<Node>,
              violations: seq<seq<Node>>, rank: map<Node, nat>)
    requires TrailOk(g, trail, visiting) && unit in visiting && SearchOk(g, visited, violations, rank)
    requires trail != [] ==> Edge(g, trail[|trail| - 1], unit)
    ensures SearchOk(g, visited, violations + [trail + [unit]], rank)
  {
    GreyIsTrail(g, trail, visiting);
    assert (trail + [unit])[..|trail|] == trail;
    assert Reported(g, trail + [unit]);
  }

  /** Leaving a node that was not reached again. */
  lemma Leave(g: Graph, visited: set<Node>, violations: seq<seq<Node>>, rank: map<Node, nat>, unit: Node)
    requires SearchOk(g, visited, violations, rank) && unit !in visited
    requires violations == [] ==> forall d :: Edge(g, unit, d) ==> d in visited
    ensures SearchOk(g, visited + {unit}, violations, rank[unit := |rank|])
  {
    if violations == [] {
      RankNext(g, rank, unit);
    }
  }

  ghost predicate Closed(g: Graph, nodes: set<Node>) {
    g.Keys <= nodes && forall n, d :: Edge(g, n, d) ==> d in nodes
  }

  class Detector {
    const graph: Graph
    /** All nodes that can be met: keys and dependencies. */
    ghost const nodes: set<Node>
    var visiting: set<Node>
    var visited: set<Node>
    var violations: seq<seq<Node>>
    /** A finishing order of the visited nodes, kept as long as there is no violation. */
    ghost var rank: map<Node, nat>

    constructor (graph: Graph)
      ensures Valid([]) && this.graph == graph && visiting == {} && visited == {} && violations == []
    {
      this.graph := graph;
      nodes := graph.Keys + (set n, d | n in graph && d in graph[n] :: d);
      visiting, visited, violations := {}, {}, [];
      rank := map[];
    }

    ghost predicate Valid(trail: seq<Node>)
      reads this
    {
      && Closed(graph, nodes)
      && visiting !! visited && visiting <= nodes && visited <= nodes
      && TrailOk(graph, trail, visiting)
      && SearchOk(graph, visited, violations, rank)
    }

    method Visit(unit: Node, trail: seq<Node>)
      requires Valid(trail) && unit in nodes
      requires trail != [] ==> Edge(graph, trail[|trail| - 1], unit)
      modifies this
      ensures Valid(trail)
      ensures visiting == old(visiting) && old(visited) <= visited && old(violations) <= violations
      ensures unit in visited || violations != []
      decreases |nodes - visiting - visited|, 0
    {
      if unit in visiting {
        Clash(graph, trail, visiting, unit, visited, violations, rank);
        violations := violations + [trail + [unit]];
        return;
      }
      if unit in visited {
        return;
      }
      ghost var grey, left := visiting, nodes - visiting - visited;
      Enter(graph, trail, visiting, unit);
      visiting := visiting + {unit};
      FewerLeft(left, nodes - visiting - visited, unit);
      VisitDependencies(unit, trail + [unit]);
      Leave(graph, visited, violations, rank, unit);
      assert visiting - {unit} == grey;
      visiting, visited, rank := visiting - {unit}, visited + {unit}, rank[unit := |rank|];
    }

    /** The loop of `visit`, with the unit on the trail. */
    method VisitDependencies(unit: Node, trail: seq<Node>)
      requires Valid(trail) && trail != [] && trail[|trail| - 1] == unit
      modifies this
      ensures Valid(trail)
      ensures visiting == old(visiting) && old(visited) <= visited && old(violations) <= violations
      ensures violations == [] ==> Dependencies(graph, unit) <= visited
      decreases |nodes - visiting - visited|, 1
    {
      var next := Dependencies(graph, unit);
      ghost var left := nodes - visiting - visited;
      while next != {}
        invariant Valid(trail) && visiting == old(visiting)
        invariant old(visited) <= visited && old(violations) <= violations
        invariant next <= Dependencies(graph, unit)
        invariant violations == [] ==> Dependencies(graph, unit) - next <= visited
        decreases |next|
      {
        var dependency :| dependency in next;
        next := next - {dependency};
        assert Edge(graph, unit, dependency);
        SmallerSet(nodes - visiting - visited, left);
        Visit(dependency, trail);
      }
    }

    /** The whole check: a violation is reported if and only if the graph has a cycle. */
    method Inspect()
      requires Valid([]) && visited == {} && violations == []
      modifies this
      ensures Valid([]) && visiting == {}
      ensures violations != [] <==> Cyclic(graph)
      ensures forall k :: 0 <= k < |violations| ==> Reported(graph, violations[k])
    {
      var keys := graph.Keys;
      while keys != {}
        invariant Valid([]) && keys <= graph.Keys
        invariant violations == [] ==> graph.Keys - keys <= visited
        decreases |keys|
      {
        var unit :| unit in keys;
        keys := keys - {unit};
        Visit(unit, []);
      }
      if violations == [] {
        RankedIsAcyclic(graph, rank);
      } else {
        ReportedIsCycle(graph, violations[0]);
      }
    }
  }
}
