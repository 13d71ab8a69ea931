/** Directed graphs over string vertices, paths in them, and the two facts about finite
    graphs that every termination and stuckness argument of the planner rests on. */
module Graphs {
  // g[v] lists the vertices v points at; a vertex outside the map has no outgoing edge.
  type Graph = map<string, seq<string>>

  predicate Edge(g: Graph, a: string, b: string) {
    a in g && b in g[a]
  }

  predicate IsPath(g: Graph, p: seq<string>) {
    && p != []
    && forall i :: 0 <= i < |p| - 1 ==> Edge(g, p[i], p[i + 1])
  }

  // A walk of at least one step.
  predicate IsWalk(g: Graph, p: seq<string>, a: string, b: string) {
    IsPath(g, p) && |p| >= 2 && p[0] == a && p[|p| - 1] == b
  }

  // b can be reached from a in one or more steps.
  ghost predicate Reach(g: Graph, a: string, b: string) {
    exists p :: IsWalk(g, p, a, b)
  }

  ghost predicate Cyclic(g: Graph) {
    exists v :: Reach(g, v, v)
  }

  // Every edge ends at a vertex of the graph.
  ghost predicate Closed(g: Graph) {
    forall a, b :: Edge(g, a, b) ==> b in g
  }

  // The longest path that starts at v has exactly k edges.
  ghost predicate LongestChain(g: Graph, v: string, k: nat) {
    && (exists p :: IsPath(g, p) && p[0] == v && |p| == k + 1)
    && (forall p :: IsPath(g, p) && p[0] == v ==> |p| <= k + 1)
  }

  ghost predicate StepsInto(g: Graph, x: string, w: set<string>) {
    exists y :: y in w && Edge(g, x, y)
  }

  // Every vertex of w has a successor in w.
  ghost predicate Sinkless(g: Graph, w: set<string>) {
    forall x {:trigger StepsInto(g, x, w)} :: x in w ==> StepsInto(g, x, w)
  }

  lemma PathJoin(g: Graph, p: seq<string>, q: seq<string>)
    requires IsPath(g, p) && IsPath(g, q) && p[|p| - 1] == q[0]
    ensures IsPath(g, p + q[1..])
  {
    var r := p + q[1..];
    forall i | 0 <= i < |r| - 1
      ensures Edge(g, r[i], r[i + 1])
    {
      if i >= |p| - 1 {
        var j := i - (|p| - 1);
        assert Edge(g, q[j], q[j + 1]);
        assert r[i] == q[j] && r[i + 1] == q[j + 1];
      }
    }
  }

  lemma PathSlice(g: Graph, p: seq<string>, i: nat, j: nat)
    requires IsPath(g, p) && i < j <= |p|
    ensures IsPath(g, p[i..j])
  {
    var q := p[i..j];
    forall k | 0 <= k < |q| - 1
      ensures Edge(g, q[k], q[k + 1])
    {
      assert Edge(g, p[i + k], p[i + k + 1]);
    }
  }

  lemma EdgeReach(g: Graph, a: string, b: string)
    requires Edge(g, a, b)
    ensures Reach(g, a, b)
  {
    assert IsWalk(g, [a, b], a, b);
  }

  lemma ReachTransitive(g: Graph, a: string, b: string, c: string)
    requires Reach(g, a, b) && Reach(g, b, c)
    ensures Reach(g, a, c)
  {
    var p :| IsWalk(g, p, a, b);
    var q :| IsWalk(g, q, b, c);
    PathJoin(g, p, q);
    assert IsWalk(g, p + q[1..], a, c);
  }

  lemma ReachFirstStep(g: Graph, a: string, c: string) returns (b: string)
    requires Reach(g, a, c)
    ensures Edge(g, a, b) && (b == c || Reach(g, b, c))
  {
    var p :| IsWalk(g, p, a, c);
    b := p[1];
    assert Edge(g, p[0], p[1]);
    if |p| > 2 {
      PathSlice(g, p, 1, |p|);
      assert IsWalk(g, p[1..|p|], b, c);
    }
  }

  lemma {:induction false} Pigeonhole(s: seq<string>, range: set<string>)
    requires forall x :: x in s ==> x in range
    requires |s| > |range|
    ensures exists i, j :: 0 <= i < j < |s| && s[i] == s[j]
  {
    var last := s[|s| - 1];
    var init := s[..|s| - 1];
    if i :| 0 <= i < |init| && init[i] == last {
      assert s[i] == s[|s| - 1];
    } else {
      Pigeonhole(init, range - {last});
      var i, j :| 0 <= i < j < |init| && init[i] == init[j];
      assert s[i] == s[j];
    }
  }

  lemma SubWalk(g: Graph, p: seq<string>, i: nat, j: nat)
    requires IsPath(g, p) && i < j < |p|
    ensures Reach(g, p[i], p[j])
  {
    PathSlice(g, p, i, j + 1);
    assert IsWalk(g, p[i..j + 1], p[i], p[j]);
  }

  lemma {:induction false} WalkInside(g: Graph, w: set<string>, start: string, n: nat) returns (p: seq<string>)
    requires start in w
    requires Sinkless(g, w)
    ensures IsPath(g, p) && p[0] == start && |p| == n + 1
    ensures forall x :: x in p ==> x in w
    decreases n
  {
    p := [start];
    if n > 0 {
      assert StepsInto(g, start, w);
      var y :| y in w && Edge(g, start, y);
      var q := WalkInside(g, w, y, n - 1);
      PathJoin(g, [start, y], q);
      p := [start, y] + q[1..];
      assert forall x :: x in p ==> x == start || x in q;
    }
  }

  // A finite set in which every vertex has a successor in the set runs into a cycle,
  // whichever vertex one starts from.
  lemma SinklessSetHasCycle(g: Graph, w: set<string>, start: string) returns (c: string)
    requires start in w
    requires Sinkless(g, w)
    ensures c in w && (c == start || Reach(g, start, c)) && Reach(g, c, c)
  {
    var p := WalkInside(g, w, start, |w|);
    Pigeonhole(p, w);
    var i, j :| 0 <= i < j < |p| && p[i] == p[j];
    c := p[i];
    SubWalk(g, p, i, j);
    if i > 0 {
      SubWalk(g, p, 0, i);
    }
  }

  // The length of the longest chain is a function of the vertex.
  lemma LongestChainUnique(g: Graph, v: string, j: nat, k: nat)
    requires LongestChain(g, v, j) && LongestChain(g, v, k)
    ensures j == k
  {
  }

  // Every edge leads to a strictly shorter longest chain.
  lemma ChainsShrinkAlongEdges(g: Graph, a: string, b: string, j: nat, k: nat)
    requires Edge(g, a, b) && LongestChain(g, a, j) && LongestChain(g, b, k)
    ensures k < j
  {
    var p :| IsPath(g, p) && p[0] == b && |p| == k + 1;
    PathJoin(g, [a, b], p);
    assert |[a, b] + p[1..]| == k + 2;
  }

  // A vertex with a longest chain of k > 0 edges has an edge to one with k - 1.
  lemma ChainSuccessor(g: Graph, v: string, k: nat) returns (u: string)
    requires LongestChain(g, v, k) && k > 0
    ensures Edge(g, v, u) && LongestChain(g, u, k - 1)
  {
    var p :| IsPath(g, p) && p[0] == v && |p| == k + 1;
    u := p[1];
    assert Edge(g, p[0], p[1]);
    PathSlice(g, p, 1, |p|);
    var q := p[1..|p|];
    assert IsPath(g, q) && q[0] == u && |q| == k;
    forall r | IsPath(g, r) && r[0] == u
      ensures |r| <= k
    {
      PathJoin(g, [v, u], r);
      assert |[v, u] + r[1..]| == |r| + 1;
    }
  }
}
