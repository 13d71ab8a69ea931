/** The planner's dependency analysis: src/planner/dag.rs. */
module Dag {
  import opened Graphs
  import opened Options
  import opened Plans
  import opened Text

  // ready_task_ids: the ids of the ready tasks, in plan order.
  function ReadyTaskIds(tasks: Tasks): seq<string> {
    SelectReady(tasks, |tasks|)
  }

  function SelectReady(tasks: Tasks, n: nat): seq<string>
    requires n <= |tasks|
  {
    if n == 0 then []
    else SelectReady(tasks, n - 1) + (if IsReady(tasks, tasks[n - 1]) then [tasks[n - 1].id] else [])
  }

  lemma {:induction false} SelectReadyMembers(tasks: Tasks, n: nat, id: string)
    requires n <= |tasks|
    ensures id in SelectReady(tasks, n) <==>
      exists i :: 0 <= i < n && tasks[i].id == id && IsReady(tasks, tasks[i])
  {
    if n > 0 {
      SelectReadyMembers(tasks, n - 1, id);
    }
  }

  lemma {:induction false} ReadyIdsDoNotRepeat(tasks: Tasks, n: nat)
    requires n <= |tasks|
    requires forall i, j :: 0 <= i < j < n && IsReady(tasks, tasks[i]) && IsReady(tasks, tasks[j]) ==>
      tasks[i].id != tasks[j].id
    ensures NoRepeats(SelectReady(tasks, n))
  {
    if n > 0 {
      ReadyIdsDoNotRepeat(tasks, n - 1);
      SelectReadyMembers(tasks, n - 1, tasks[n - 1].id);
    }
  }

  // Task i may run: it waits for its turn, and of each dependency the last holder is accepted or
  // completed.
  predicate MayRun(tasks: Tasks, i: nat) {
    && i < |tasks| && tasks[i].state in {Pending, Ready, Retrying}
    && forall d :: d in tasks[i].dependencies ==> LastHolderIsDone(tasks, d)
  }

  predicate LastHolderIsDone(tasks: Tasks, id: string) {
    exists k :: 0 <= k < |tasks| && IsLastHolder(tasks, id, k) && tasks[k].state in {Accepted, Completed}
  }

  predicate IsLastHolder(tasks: Tasks, id: string, k: nat) {
    k < |tasks| && tasks[k].id == id && forall j :: k < j < |tasks| ==> tasks[j].id != id
  }

  lemma SatisfiedMeaning(tasks: Tasks, d: string)
    ensures Satisfied(tasks, d) <==> LastHolderIsDone(tasks, d)
  {
    if d in ById(tasks) {
      var j := LastIndex(tasks, d);
      assert IsLastHolder(tasks, d, j);
    }
    if k :| 0 <= k < |tasks| && IsLastHolder(tasks, d, k) && tasks[k].state in {Accepted, Completed} {
      ByIdOfLast(tasks, k);
    }
  }

  lemma ReadyMeaning(tasks: Tasks, i: nat)
    requires i < |tasks|
    ensures IsReady(tasks, tasks[i]) <==> MayRun(tasks, i)
  {
    forall d
      ensures Satisfied(tasks, d) <==> LastHolderIsDone(tasks, d)
    {
      SatisfiedMeaning(tasks, d);
    }
  }

  lemma ReadyLast(tasks: Tasks, n: nat)
    requires n < |tasks|
    ensures SelectReady(tasks, n + 1) == SelectReady(tasks, n) + (if MayRun(tasks, n) then [tasks[n].id] else [])
  {
    ReadyMeaning(tasks, n);
  }

  // The ready ids are those of the tasks that may run, in plan order, once for each.
  lemma {:induction false} ReadyInPlanOrder(tasks: Tasks, n: nat) returns (at: seq<nat>)
    requires n <= |tasks|
    ensures Increases(at) && |at| == |SelectReady(tasks, n)|
    ensures forall k :: 0 <= k < |at| ==> at[k] < n && SelectReady(tasks, n)[k] == tasks[at[k]].id
    ensures forall i :: 0 <= i < n ==> (i in at <==> MayRun(tasks, i))
  {
    at := [];
    if n > 0 {
      at := ReadyInPlanOrder(tasks, n - 1);
      ReadyLast(tasks, n - 1);
      if MayRun(tasks, n - 1) {
        at := at + [n - 1];
      }
    }
  }

  // ---------- build_graph ----------

  function Known(deps: seq<string>, known: set<string>): (r: seq<string>)
    ensures forall d :: d in r <==> d in deps && d in known
  {
    if deps == [] then []
    else
      var n := |deps| - 1;
      assert deps == deps[..n] + [deps[n]];
      Known(deps[..n], known) + (if deps[n] in known then [deps[n]] else [])
  }

  // All edges that tasks with this id contribute; a repeated id collects those of every holder.
  function Incoming(tasks: Tasks, known: set<string>, id: string): seq<string> {
    if tasks == [] then []
    else
      var n := |tasks| - 1;
      Incoming(tasks[..n], known, id) +
      (if tasks[n].id == id then Known(tasks[n].dependencies, known) else [])
  }

  predicate DependsOn(tasks: Tasks, a: string, b: string) {
    exists t :: t in tasks && t.id == a && b in t.dependencies
  }

  lemma {:induction false} IncomingMembers(tasks: Tasks, known: set<string>, id: string, d: string)
    ensures d in Incoming(tasks, known, id) <==> d in known && DependsOn(tasks, id, d)
  {
    if tasks != [] {
      var n := |tasks| - 1;
      assert tasks == tasks[..n] + [tasks[n]];
      IncomingMembers(tasks[..n], known, id, d);
    }
  }

  function PlanGraph(tasks: Tasks): Graph {
    var known := IdSet(tasks);
    map id | id in known :: Incoming(tasks, known, id)
  }

  lemma PlanGraphEdges(tasks: Tasks)
    ensures Closed(PlanGraph(tasks)) && PlanGraph(tasks).Keys == IdSet(tasks)
    ensures forall a, b :: Edge(PlanGraph(tasks), a, b) <==> b in IdSet(tasks) && DependsOn(tasks, a, b)
  {
    forall a, b
      ensures Edge(PlanGraph(tasks), a, b) <==> b in IdSet(tasks) && DependsOn(tasks, a, b)
    {
      IncomingMembers(tasks, IdSet(tasks), a, b);
    }
  }

  lemma KnownNext(deps: seq<string>, known: set<string>, j: nat)
    requires j < |deps|
    ensures Known(deps[..j + 1], known) == Known(deps[..j], known) + (if deps[j] in known then [deps[j]] else [])
  {
    assert deps[..j + 1][..j] == deps[..j];
  }

  lemma UpdateTwice(g: Graph, id: string, first: seq<string>, second: seq<string>)
    ensures g[id := first][id := second] == g[id := second]
  {
  }

  method AddEdges(g: Graph, id: string, deps: seq<string>) returns (r: Graph)
    requires id in g
    ensures r == g[id := g[id] + Known(deps, g.Keys)]
  {
    r := g;
    ghost var added: seq<string> := [];
    assert g[id := g[id] + added] == g by {
      assert g[id] + added == g[id];
    }
    for j := 0 to |deps|
      invariant added == Known(deps[..j], g.Keys)
      invariant r == g[id := g[id] + added]
    {
      KnownNext(deps, g.Keys, j);
      if deps[j] in r {
        UpdateTwice(g, id, g[id] + added, g[id] + added + [deps[j]]);
        r := r[id := r[id] + [deps[j]]];
        assert g[id] + added + [deps[j]] == g[id] + (added + [deps[j]]);
        added := added + [deps[j]];
      }
    }
    assert deps[..|deps|] == deps;
  }

  method BuildGraph(tasks: Tasks) returns (g: Graph)
    ensures g == PlanGraph(tasks)
  {
    g := map[];
    for i := 0 to |tasks|
      invariant g.Keys == IdSet(tasks[..i])
      invariant forall id :: id in g ==> g[id] == []
    {
      assert tasks[..i + 1] == tasks[..i] + [tasks[i]];
      g := g[tasks[i].id := []];
    }
    assert tasks[..|tasks|] == tasks;
    g := AddAllEdges(tasks, g);
  }

  method AddAllEdges(tasks: Tasks, nodes: Graph) returns (g: Graph)
    requires nodes.Keys == IdSet(tasks)
    requires forall id :: id in nodes ==> nodes[id] == []
    ensures g == PlanGraph(tasks)
  {
    g := nodes;
    ghost var known := IdSet(tasks);
    for i := 0 to |tasks|
      invariant g.Keys == known
      invariant forall id :: id in known ==> g[id] == Incoming(tasks[..i], known, id)
    {
      ghost var before := g;
      assert tasks[i] in tasks;
      g := AddEdges(g, tasks[i].id, tasks[i].dependencies);
      forall id | id in known
        ensures g[id] == Incoming(tasks[..i + 1], known, id)
      {
        IncomingStep(tasks, i, known, id);
        assert before[id] == Incoming(tasks[..i], known, id);
      }
    }
    assert tasks[..|tasks|] == tasks;
  }

  lemma IncomingStep(tasks: Tasks, i: nat, known: set<string>, id: string)
    requires i < |tasks|
    ensures Incoming(tasks[..i + 1], known, id) == Incoming(tasks[..i], known, id) +
      (if tasks[i].id == id then Known(tasks[i].dependencies, known) else [])
  {
    assert tasks[..i + 1][..i] == tasks[..i];
  }

  // ---------- toposort ----------

  // Every vertex once, each after all it depends on.
  ghost predicate IsTopological(g: Graph, s: seq<string>) {
    && NoRepeats(s)
    && (forall v :: v in s <==> v in g)
    && (forall i :: 0 <= i < |s| ==> DependenciesIn(g, s[i], s[..i]))
  }

  predicate DependenciesIn(g: Graph, v: string, done: seq<string>) {
    v in g && forall d :: d in g[v] ==> d in done
  }

  method Toposort(g: Graph) returns (order: Option<seq<string>>)
    requires Closed(g)
    ensures order.Some? ==> IsTopological(g, order.value)
    ensures order.None? ==> Cyclic(g)
  {
    var done: seq<string> := [];
    var remaining := g.Keys;
    while remaining != {}
      invariant NoRepeats(done)
      invariant forall v :: v in g <==> v in done || v in remaining
      invariant forall v :: v in done ==> v !in remaining
      invariant forall i :: 0 <= i < |done| ==> DependenciesIn(g, done[i], done[..i])
      decreases remaining
    {
      var free := set v | v in remaining && DependenciesIn(g, v, done);
      if free == {} {
        assert forall v :: v in remaining ==> v !in free;
        StuckMeansCycle(g, done, remaining);
        return None;
      }
      var v :| v in free;
      assert forall i :: 0 <= i < |done| ==> (done + [v])[..i] == done[..i];
      assert (done + [v])[..|done|] == done;
      done := done + [v];
      remaining := remaining - {v};
    }
    return Some(done);
  }

  lemma StuckMeansCycle(g: Graph, done: seq<string>, remaining: set<string>)
    requires Closed(g) && remaining != {} && remaining <= g.Keys
    requires forall v :: v in g ==> v in done || v in remaining
    requires forall v :: v in remaining ==> !DependenciesIn(g, v, done)
    ensures Cyclic(g)
  {
    forall v | v in remaining
      ensures StepsInto(g, v, remaining)
    {
      var d :| d in g[v] && d !in done;
      assert Edge(g, v, d);
    }
    var v :| v in remaining;
    var c := SinklessSetHasCycle(g, remaining, v);
  }

  // In a topological order walks only lead backwards, so there is no cycle.
  lemma {:induction false} WalksLeadBackwards(g: Graph, s: seq<string>, i: nat, b: string)
    requires IsTopological(g, s) && i < |s| && Reach(g, s[i], b)
    ensures b in s[..i]
    decreases i
  {
    var c := ReachFirstStep(g, s[i], b);
    assert DependenciesIn(g, s[i], s[..i]);
    var j :| 0 <= j < i && s[j] == c;
    if c != b {
      WalksLeadBackwards(g, s, j, b);
      assert s[..j] <= s[..i];
    }
  }

  lemma TopologicalMeansAcyclic(g: Graph, s: seq<string>)
    requires IsTopological(g, s)
    ensures !Cyclic(g)
  {
    if v :| Reach(g, v, v) {
      var c := ReachFirstStep(g, v, v);
      var i :| 0 <= i < |s| && s[i] == v;
      WalksLeadBackwards(g, s, i, v);
      assert false;
    }
  }

  method HasCycle(tasks: Tasks) returns (b: bool)
    ensures b <==> Cyclic(PlanGraph(tasks))
  {
    var g := BuildGraph(tasks);
    PlanGraphEdges(tasks);
    var order := Toposort(g);
    if order.Some? {
      TopologicalMeansAcyclic(g, order.value);
    }
    return order.None?;
  }

  // ---------- topological_levels ----------

  function Self(s: string): string { s }

  // One more than the highest level among the dependencies, 0 without any.
  function LevelAbove(deps: seq<string>, levels: map<string, nat>): nat {
    if deps == [] then 0
    else
      var rest := LevelAbove(deps[1..], levels);
      if deps[0] in levels && levels[deps[0]] + 1 > rest then levels[deps[0]] + 1 else rest
  }

  lemma {:induction false} LevelAboveIsMaximum(deps: seq<string>, levels: map<string, nat>)
    requires forall d :: d in deps ==> d in levels
    ensures forall d :: d in deps ==> levels[d] < LevelAbove(deps, levels)
    ensures LevelAbove(deps, levels) > 0 ==> exists d :: d in deps && levels[d] + 1 == LevelAbove(deps, levels)
  {
    if deps != [] {
      LevelAboveIsMaximum(deps[1..], levels);
      assert deps[0] in deps;
      var l := LevelAbove(deps, levels);
      if levels[deps[0]] + 1 != l && l > 0 {
        var d :| d in deps[1..] && levels[d] + 1 == l;
        assert d in deps;
      }
    }
  }

  predicate HasChain(g: Graph, v: string, k: nat, p: seq<string>) {
    IsPath(g, p) && p[0] == v && |p| == k + 1
  }

  lemma ChainOfLevel(g: Graph, v: string, levels: map<string, nat>) returns (p: seq<string>)
    requires v in g
    requires forall d :: d in g[v] ==> d in levels && LongestChain(g, d, levels[d])
    ensures HasChain(g, v, LevelAbove(g[v], levels), p)
  {
    var l := LevelAbove(g[v], levels);
    LevelAboveIsMaximum(g[v], levels);
    p := [v];
    if l > 0 {
      var d :| d in g[v] && levels[d] + 1 == l;
      var q :| IsPath(g, q) && q[0] == d && |q| == levels[d] + 1;
      PathJoin(g, [v, d], q);
      p := [v, d] + q[1..];
    }
  }

  lemma NoLongerChain(g: Graph, v: string, levels: map<string, nat>, p: seq<string>)
    requires v in g
    requires forall d :: d in g[v] ==> d in levels && LongestChain(g, d, levels[d])
    requires IsPath(g, p) && p[0] == v
    ensures |p| <= LevelAbove(g[v], levels) + 1
  {
    LevelAboveIsMaximum(g[v], levels);
    if |p| > 1 {
      assert Edge(g, p[0], p[1]);
      PathSlice(g, p, 1, |p|);
      var q := p[1..|p|];
      assert IsPath(g, q) && q[0] == p[1];
    }
  }

  lemma LevelIsLongestChain(g: Graph, v: string, levels: map<string, nat>)
    requires v in g
    requires forall d :: d in g[v] ==> d in levels && LongestChain(g, d, levels[d])
    ensures LongestChain(g, v, LevelAbove(g[v], levels))
  {
    var chain := ChainOfLevel(g, v, levels);
    forall p | IsPath(g, p) && p[0] == v
      ensures |p| <= LevelAbove(g[v], levels) + 1
    {
      NoLongerChain(g, v, levels, p);
    }
  }

  // One level: the vertices whose longest dependency chain has k edges, in string order.
  ghost predicate IsLevel(g: Graph, ids: seq<string>, k: nat) {
    && ids != [] && NoRepeats(ids) && Sorted(ids, Self)
    && (forall v :: v in ids <==> v in g && LongestChain(g, v, k))
  }

  // The levelling the planner relies on: every vertex is listed, and the index of a level is
  // the length of its vertices' longest dependency chain.
  ghost predicate IsLevelling(g: Graph, levels: seq<seq<string>>) {
    && (forall k :: 0 <= k < |levels| ==> IsLevel(g, levels[k], k))
    && (forall v :: v in g ==> exists k :: 0 <= k < |levels| && v in levels[k])
  }

  method AssignLevels(g: Graph, order: seq<string>) returns (levels: map<string, nat>)
    requires IsTopological(g, order)
    ensures levels.Keys == g.Keys
    ensures forall v :: v in g ==> LongestChain(g, v, levels[v])
  {
    levels := map[];
    for i := 0 to |order|
      invariant forall v :: v in levels <==> v in order[..i]
      invariant forall v :: v in levels ==> LongestChain(g, v, levels[v])
    {
      var node := order[i];
      assert order[..i + 1] == order[..i] + [node];
      assert DependenciesIn(g, node, order[..i]);
      LevelIsLongestChain(g, node, levels);
      levels := levels[node := LevelAbove(g[node], levels)];
    }
    assert order[..|order|] == order;
  }

  ghost predicate IsGroup(levels: map<string, nat>, group: seq<string>, l: nat) {
    && group != [] && NoRepeats(group)
    && (forall v :: v in group <==> v in levels && levels[v] == l)
  }

  // Collects the vertices by level; the hash map hands them out in no particular order.
  method GroupByLevel(levels: map<string, nat>) returns (grouped: map<nat, seq<string>>)
    ensures forall l :: l in grouped ==> IsGroup(levels, grouped[l], l)
    ensures forall v :: v in levels ==> levels[v] in grouped
  {
    grouped := map[];
    var remaining := levels.Keys;
    while remaining != {}
      invariant remaining <= levels.Keys
      invariant forall l :: l in grouped ==> IsGroup(levels - remaining, grouped[l], l)
      invariant forall v :: v in levels && v !in remaining ==> levels[v] in grouped
      decreases remaining
    {
      var v :| v in remaining;
      var l := levels[v];
      var column := if l in grouped then grouped[l] else [];
      assert v !in column;
      grouped := grouped[l := column + [v]];
      remaining := remaining - {v};
    }
    assert levels - {} == levels;
  }

  ghost predicate AreChainLengths(g: Graph, levelOf: map<string, nat>) {
    && Closed(g) && levelOf.Keys == g.Keys
    && forall v :: v in g ==> LongestChain(g, v, levelOf[v])
  }

  lemma {:induction false} LevelsHaveNoGaps(g: Graph, levelOf: map<string, nat>, v: string, l: nat)
      returns (u: string)
    requires AreChainLengths(g, levelOf) && v in g && l <= levelOf[v]
    ensures u in g && levelOf[u] == l
    decreases levelOf[v]
  {
    u := v;
    if l < levelOf[v] {
      var w := ChainSuccessor(g, v, levelOf[v]);
      LongestChainUnique(g, w, levelOf[w], levelOf[v] - 1);
      u := LevelsHaveNoGaps(g, levelOf, w, l);
    }
  }

  method TopologicalLevels(tasks: Tasks) returns (levels: seq<seq<string>>)
    ensures levels == [] <==> tasks == [] || Cyclic(PlanGraph(tasks))
    ensures levels != [] ==> IsLevelling(PlanGraph(tasks), levels)
  {
    var g := BuildGraph(tasks);
    PlanGraphEdges(tasks);
    var order := Toposort(g);
    if order.None? || order.value == [] {
      if order.Some? {
        TopologicalMeansAcyclic(g, order.value);
        assert tasks != [] ==> tasks[0].id in g;
      }
      return [];
    }
    TopologicalMeansAcyclic(g, order.value);
    var levelOf := AssignLevels(g, order.value);
    var grouped := GroupByLevel(levelOf);
    levels := SortedLevels(g, levelOf, grouped);
    assert order.value[0] in g;
  }

  ghost predicate AreGroups(levelOf: map<string, nat>, grouped: map<nat, seq<string>>) {
    && (forall l :: l in grouped ==> IsGroup(levelOf, grouped[l], l))
    && (forall v :: v in levelOf ==> levelOf[v] in grouped)
  }

  // Sorting the groups by level yields a vector in which position and level agree.
  method SortedLevels(g: Graph, ghost levelOf: map<string, nat>, grouped: map<nat, seq<string>>)
      returns (levels: seq<seq<string>>)
    requires AreChainLengths(g, levelOf) && AreGroups(levelOf, grouped)
    ensures IsLevelling(g, levels)
    ensures levels == [] <==> g.Keys == {}
  {
    levels := [];
    var keys := grouped.Keys;
    while keys != {}
      invariant IsPending(grouped, keys, |levels|)
      invariant AreLevels(g, levels)
      decreases keys
    {
      SmallestPending(g, levelOf, grouped, keys, |levels|);
      var m :| IsSmallest(keys, m);
      GroupIsLevel(g, levelOf, grouped, m);
      PendingAfter(grouped, keys, m);
      levels := levels + [Sort(grouped[m], Self)];
      keys := keys - {m};
    }
    GroupsCoverGraph(g, levelOf, grouped, levels);
  }

  predicate IsSmallest(keys: set<nat>, m: nat) {
    m in keys && forall x :: x in keys ==> m <= x
  }

  // The keys still to come are the groups from number n on.
  predicate IsPending(grouped: map<nat, seq<string>>, keys: set<nat>, n: nat) {
    keys <= grouped.Keys && forall l :: l in grouped ==> (l in keys <==> l >= n)
  }

  ghost predicate AreLevels(g: Graph, levels: seq<seq<string>>) {
    forall k :: 0 <= k < |levels| ==> IsLevel(g, levels[k], k)
  }

  lemma SmallestPending(g: Graph, levelOf: map<string, nat>, grouped: map<nat, seq<string>>, keys: set<nat>, n: nat)
    requires AreChainLengths(g, levelOf) && AreGroups(levelOf, grouped)
    requires IsPending(grouped, keys, n) && keys != {}
    ensures IsSmallest(keys, n)
    ensures forall m :: IsSmallest(keys, m) ==> m == n
  {
    var some :| some in keys;
    NextLevelPresent(g, levelOf, grouped, some, n);
  }

  lemma PendingAfter(grouped: map<nat, seq<string>>, keys: set<nat>, n: nat)
    requires IsPending(grouped, keys, n)
    ensures IsPending(grouped, keys - {n}, n + 1)
  {
  }

  lemma NextLevelPresent(g: Graph, levelOf: map<string, nat>, grouped: map<nat, seq<string>>, some: nat, l: nat)
    requires AreChainLengths(g, levelOf) && AreGroups(levelOf, grouped)
    requires some in grouped && l <= some
    ensures l in grouped
  {
    assert IsGroup(levelOf, grouped[some], some);
    assert grouped[some][0] in grouped[some];
    var u := LevelsHaveNoGaps(g, levelOf, grouped[some][0], l);
  }

  lemma GroupsCoverGraph(g: Graph, levelOf: map<string, nat>, grouped: map<nat, seq<string>>,
                         levels: seq<seq<string>>)
    requires AreChainLengths(g, levelOf) && AreGroups(levelOf, grouped)
    requires IsPending(grouped, {}, |levels|) && AreLevels(g, levels)
    ensures IsLevelling(g, levels)
    ensures levels == [] <==> g.Keys == {}
  {
    forall v | v in g
      ensures exists k :: 0 <= k < |levels| && v in levels[k]
    {
      var k := levelOf[v];
      assert k in grouped && IsLevel(g, levels[k], k);
    }
    if levels != [] {
      assert IsLevel(g, levels[0], 0);
      assert levels[0][0] in levels[0];
    }
  }

  lemma GroupIsLevel(g: Graph, levelOf: map<string, nat>, grouped: map<nat, seq<string>>, l: nat)
    requires AreChainLengths(g, levelOf) && AreGroups(levelOf, grouped) && l in grouped
    ensures IsLevel(g, Sort(grouped[l], Self), l)
  {
    var group := grouped[l];
    assert IsGroup(levelOf, group, l);
    SortFacts(group, Self);
    forall v | v in g && LongestChain(g, v, l)
      ensures levelOf[v] == l
    {
      LongestChainUnique(g, v, levelOf[v], l);
    }
    assert group[0] in Sort(group, Self);
  }

  // In a levelling no id is listed twice, and every dependency sits in a strictly earlier level.
  lemma LevellingPartitions(g: Graph, levels: seq<seq<string>>, j: nat, k: nat, v: string)
    requires IsLevelling(g, levels) && j < |levels| && k < |levels|
    requires v in levels[j] && v in levels[k]
    ensures j == k
  {
    assert IsLevel(g, levels[j], j) && IsLevel(g, levels[k], k);
    LongestChainUnique(g, v, j, k);
  }

  lemma DependenciesComeEarlier(g: Graph, levels: seq<seq<string>>, k: nat, v: string, d: string)
    requires Closed(g) && IsLevelling(g, levels) && k < |levels| && v in levels[k] && Edge(g, v, d)
    ensures exists j :: 0 <= j < k && d in levels[j]
  {
    var j :| 0 <= j < |levels| && d in levels[j];
    assert IsLevel(g, levels[j], j) && IsLevel(g, levels[k], k);
    ChainsShrinkAlongEdges(g, v, d, k, j);
  }

  // ---------- reachable_dependencies ----------

  function AllDependencies(tasks: Tasks): set<string> {
    set t, d | t in tasks && d in t.dependencies :: d
  }

  lemma NextAreDependencies(tasks: Tasks, id: string, d: string)
    requires id in ById(tasks) && d in ById(tasks)[id].dependencies
    ensures d in AllDependencies(tasks)
  {
  }

  // Ids already expanded: everything they point at has been visited.
  ghost predicate Expanded(g: Graph, x: string, visited: set<string>) {
    forall d :: Edge(g, x, d) ==> d in visited
  }

  lemma {:induction false} ClosedSetHoldsReachable(g: Graph, s: set<string>, a: string, b: string, p: seq<string>)
    requires forall x :: x == a || x in s ==> Expanded(g, x, s)
    requires IsWalk(g, p, a, b)
    ensures b in s
    decreases |p|
  {
    var init := p[..|p| - 1];
    var x := p[|p| - 2];
    assert Edge(g, x, b);
    if |p| > 2 {
      PathSlice(g, p, 0, |p| - 1);
      assert IsWalk(g, init, a, x);
      ClosedSetHoldsReachable(g, s, a, x, init);
    }
    assert Expanded(g, x, s);
  }

  // The inner loop of the search: the dependencies of one task not seen before, each once, in
  // order. They are what it adds to the visited set, to the result and to the stack.
  method NewlySeen(next: seq<string>, visited: set<string>) returns (found: seq<string>)
    ensures forall d :: d in found <==> d in next && d !in visited
    ensures NoRepeats(found)
  {
    found := [];
    var seen := visited;
    for i := 0 to |next|
      invariant forall d :: d in found <==> d in next[..i] && d !in visited
      invariant forall d :: d in seen <==> d in visited || d in found
      invariant NoRepeats(found)
    {
      assert next[..i + 1] == next[..i] + [next[i]];
      if next[i] !in seen {
        seen := seen + {next[i]};
        found := found + [next[i]];
      }
    }
    assert next[..|next|] == next;
  }

  ghost predicate SearchInvariant(g: Graph, root: string, visited: set<string>, stack: seq<string>) {
    && (forall d :: d in visited ==> Reach(g, root, d))
    && (forall x :: x in stack ==> x == root || x in visited)
    && (forall x :: x == root || x in visited ==> x in stack || Expanded(g, x, visited))
  }

  lemma SearchStep(g: Graph, root: string, visited: set<string>, stack: seq<string>, found: seq<string>)
    requires stack != [] && SearchInvariant(g, root, visited, stack)
    requires forall d :: d in found <==> Edge(g, stack[|stack| - 1], d) && d !in visited
    ensures SearchInvariant(g, root, visited + (set d | d in found), stack[..|stack| - 1] + found)
  {
    var current, rest := stack[|stack| - 1], stack[..|stack| - 1];
    var visited' := visited + (set d | d in found);
    assert stack == rest + [current];
    assert Expanded(g, current, visited');
    forall d | d in found
      ensures Reach(g, root, d)
    {
      EdgeReach(g, current, d);
      if current != root {
        ReachTransitive(g, root, current, d);
      }
    }
    forall x | x == root || x in visited'
      ensures x in rest + found || Expanded(g, x, visited')
    {
      if (x == root || x in visited) && x !in stack {
        assert Expanded(g, x, visited);
      }
    }
  }

  lemma SearchEnd(g: Graph, root: string, visited: set<string>, d: string)
    requires SearchInvariant(g, root, visited, [])
    ensures d in visited <==> Reach(g, root, d)
  {
    if p :| IsWalk(g, p, root, d) {
      ClosedSetHoldsReachable(g, visited, root, d, p);
    }
  }

  method ReachableDependencies(tasks: Tasks, taskId: string) returns (deps: seq<string>)
    ensures forall d :: d in deps <==> Reach(LookupGraph(tasks), taskId, d)
    ensures NoRepeats(deps) && Sorted(deps, Self)
  {
    var taskMap := ById(tasks);
    ghost var g := LookupGraph(tasks);
    var visited: set<string> := {};
    var stack := [taskId];
    deps := [];
    while stack != []
      invariant visited <= AllDependencies(tasks)
      invariant visited == set d | d in deps
      invariant NoRepeats(deps)
      invariant SearchInvariant(g, taskId, visited, stack)
      decreases AllDependencies(tasks) - visited, |stack|
    {
      var current := stack[|stack| - 1];
      var next := if current in taskMap then taskMap[current].dependencies else [];
      var found := NewlySeen(next, visited);
      SearchStep(g, taskId, visited, stack, found);
      forall d | d in found
        ensures d in AllDependencies(tasks)
      {
        NextAreDependencies(tasks, current, d);
      }
      assert found != [] ==> found[0] !in visited;
      visited := visited + (set d | d in found);
      NoRepeatsConcat(deps, found);
      deps := deps + found;
      stack := stack[..|stack| - 1] + found;
    }
    forall d
      ensures d in visited <==> Reach(g, taskId, d)
    {
      SearchEnd(g, taskId, visited, d);
    }
    SortFacts(deps, Self);
    deps := Sort(deps, Self);
  }

  // With unique ids the two graphs differ only in edges to ids outside the plan.
  lemma GraphsAgree(tasks: Tasks, a: string, b: string)
    requires UniqueIds(tasks)
    ensures Edge(PlanGraph(tasks), a, b) <==> Edge(LookupGraph(tasks), a, b) && b in IdSet(tasks)
  {
    PlanGraphEdges(tasks);
    if t :| t in tasks && t.id == a && b in t.dependencies {
      var i :| 0 <= i < |tasks| && tasks[i] == t;
      ByIdOfUnique(tasks, i);
    }
  }

  lemma SameCycles(tasks: Tasks, v: string)
    requires UniqueIds(tasks)
    ensures Reach(PlanGraph(tasks), v, v) <==> Reach(LookupGraph(tasks), v, v)
  {
    var g, h := PlanGraph(tasks), LookupGraph(tasks);
    forall a, b
      ensures Edge(g, a, b) <==> Edge(h, a, b) && b in h
    {
      GraphsAgree(tasks, a, b);
    }
    if p :| IsWalk(g, p, v, v) {
      assert IsWalk(h, p, v, v);
    }
    if p :| IsWalk(h, p, v, v) {
      forall i | 0 <= i < |p| - 1
        ensures Edge(g, p[i], p[i + 1])
      {
        assert Edge(h, p[i], p[i + 1]);
        if i + 1 < |p| - 1 {
          assert Edge(h, p[i + 1], p[i + 2]);
        } else {
          assert Edge(h, p[0], p[1]);
        }
      }
      assert IsWalk(g, p, v, v);
    }
  }
}
