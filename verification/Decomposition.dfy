/** Turning a planner's contract into an execution plan: src/planner/decomposition.rs. */
module Decomposition {
  import opened Dag
  import opened Graphs
  import opened Options
  import opened Plans
  import opened Text

  const INTEGRATION_TASK_SLUG := "task-integrate"

  datatype PlanSeed = PlanSeed(id: Option<string>, description: string, dependencies: seq<string>)

  // ---------- ids ----------

  predicate IsDash(c: char) { c == '-' }

  function SlugChar(c: char): char {
    if IsAsciiAlphanumeric(c) then c else '-'
  }

  function Dashed(s: string): (r: string)
    ensures |r| == |s|
    ensures forall i :: 0 <= i < |s| ==> r[i] == SlugChar(s[i])
  {
    seq(|s|, i requires 0 <= i < |s| => SlugChar(s[i]))
  }

  function Cleaned(raw: string): string {
    AsciiLower(TrimMatches(Dashed(Trim(raw)), IsDash))
  }

  function SanitizeTaskId(raw: Option<string>, index: nat): Option<string> {
    var cleaned := Cleaned(raw.GetOr(""));
    if cleaned == "" then Some("task-" + Decimal(index + 1)) else Some(cleaned)
  }

  function SanitizeDependencyId(raw: string): Option<string> {
    var cleaned := Cleaned(raw);
    if cleaned == "" then None else Some(cleaned)
  }

  function ScopedTaskId(planId: string, localId: string): string {
    planId + ":" + localId
  }

  // The part after the last colon, the whole id without one.
  function LastSegment(id: string): string {
    if id == "" || id[|id| - 1] == ':' then "" else LastSegment(id[..|id| - 1]) + [id[|id| - 1]]
  }

  predicate IsIntegrationTaskId(id: string) {
    LastSegment(id) == INTEGRATION_TASK_SLUG
  }

  // What every slug looks like: not empty, lower-case letters, digits and inner dashes only.
  predicate IsSlug(s: string) {
    && s != ""
    && (forall i :: 0 <= i < |s| ==> IsSlugChar(s[i]))
    && s[0] != '-' && s[|s| - 1] != '-'
  }

  lemma {:induction false} TrimEndFacts(s: string, drop: char -> bool)
    ensures var r := TrimEnd(s, drop); r <= s && (r != "" ==> !drop(r[|r| - 1]))
  {
    if s != [] && drop(s[|s| - 1]) {
      TrimEndFacts(s[..|s| - 1], drop);
    }
  }

  lemma {:induction false} TrimStartFacts(s: string, drop: char -> bool) returns (k: nat)
    ensures k <= |s| && TrimStart(s, drop) == s[k..]
    ensures k < |s| ==> !drop(s[k])
  {
    k := 0;
    if s != [] && drop(s[0]) {
      var j := TrimStartFacts(s[1..], drop);
      k := j + 1;
    }
  }

  predicate IsSlugChar(c: char) {
    'a' <= c <= 'z' || '0' <= c <= '9' || c == '-'
  }

  lemma LowerSlugChar(c: char)
    ensures IsSlugChar(LowerChar(SlugChar(c)))
    ensures LowerChar(SlugChar(c)) == '-' <==> SlugChar(c) == '-'
  {
  }

  // Cleaning cuts a piece out of the dashed text that neither starts nor ends with a dash.
  lemma CleanedPiece(raw: string) returns (piece: string)
    ensures Cleaned(raw) == AsciiLower(piece)
    ensures forall c :: c in piece ==> exists d :: c == SlugChar(d)
    ensures piece != "" ==> piece[0] != '-' && piece[|piece| - 1] != '-'
  {
    var d := Dashed(Trim(raw));
    var k := TrimStartFacts(d, IsDash);
    TrimEndFacts(d[k..], IsDash);
    piece := TrimEnd(d[k..], IsDash);
    forall c | c in piece
      ensures exists d :: c == SlugChar(d)
    {
      var i :| 0 <= i < |piece| && piece[i] == c;
      assert d[k..][i] == d[k + i] == SlugChar(Trim(raw)[k + i]);
    }
    if piece != "" {
      assert piece[0] == d[k..][0] == d[k];
    }
  }

  lemma CleanedIsSlug(raw: string)
    ensures Cleaned(raw) == "" || IsSlug(Cleaned(raw))
  {
    var piece := CleanedPiece(raw);
    var s := AsciiLower(piece);
    forall i | 0 <= i < |s|
      ensures IsSlugChar(s[i]) && (s[i] == '-' <==> piece[i] == '-')
    {
      assert piece[i] in piece;
      var d :| piece[i] == SlugChar(d);
      LowerSlugChar(d);
    }
  }

  lemma SlugIsFixed(s: string)
    requires IsSlug(s)
    ensures Cleaned(s) == s
  {
    assert !IsWhitespace(s[0]) && !IsWhitespace(s[|s| - 1]);
    assert Trim(s) == s;
    assert Dashed(s) == s;
    assert TrimMatches(s, IsDash) == s;
    assert AsciiLower(s) == s;
  }

  // Sanitising is idempotent, and a dependency that names a sanitised id finds it.
  lemma SanitizingIsIdempotent(raw: Option<string>, index: nat, other: nat)
    ensures var slug := SanitizeTaskId(raw, index);
            && slug.Some? && IsSlug(slug.value)
            && SanitizeTaskId(slug, other) == slug
            && SanitizeDependencyId(slug.value) == slug
  {
    var slug := SanitizeTaskId(raw, index).value;
    CleanedIsSlug(raw.GetOr(""));
    DecimalDigits(index + 1);
    assert IsSlug(slug);
    SlugIsFixed(slug);
  }

  // ---------- seeds and drafts ----------

  function SeedId(planId: string, seeds: seq<PlanSeed>, i: nat): string
    requires i < |seeds|
  {
    ScopedTaskId(planId, SanitizeTaskId(seeds[i].id, i).GetOr("task-" + Decimal(i + 1)))
  }

  function SeedIds(planId: string, seeds: seq<PlanSeed>): set<string> {
    set i | 0 <= i < |seeds| :: SeedId(planId, seeds, i)
  }

  // The dependencies that survive: cleaned, scoped, not the task itself, and naming some seed.
  function KeptDependencies(planId: string, taskId: string, valid: set<string>, deps: seq<string>): seq<string> {
    if deps == [] then []
    else
      var init := KeptDependencies(planId, taskId, valid, deps[..|deps| - 1]);
      var slug := SanitizeDependencyId(deps[|deps| - 1]);
      if slug.None? then init
      else
        var dep := ScopedTaskId(planId, slug.value);
        if dep != taskId && dep in valid then init + [dep] else init
  }

  lemma {:induction false} KeptDependenciesAreValid(planId: string, taskId: string, valid: set<string>,
                                                    deps: seq<string>, d: string)
    ensures d in KeptDependencies(planId, taskId, valid, deps) <==>
      d != taskId && d in valid && exists raw :: raw in deps && SanitizeDependencyId(raw).Some? &&
                                     d == ScopedTaskId(planId, SanitizeDependencyId(raw).value)
  {
    if deps != [] {
      var n := |deps| - 1;
      assert deps == deps[..n] + [deps[n]];
      KeptDependenciesAreValid(planId, taskId, valid, deps[..n], d);
    }
  }

  function StartState(deps: seq<string>): TaskState {
    if deps == [] then Ready else Pending
  }

  function WorkTask(planId: string, seeds: seq<PlanSeed>, i: nat): PlanTask
    requires i < |seeds|
  {
    var id := SeedId(planId, seeds, i);
    var deps := KeptDependencies(planId, id, SeedIds(planId, seeds), seeds[i].dependencies);
    PlanTask(id, deps, 1, StartState(deps), 0, 0)
  }

  function WorkCap(planMaxTasks: nat): nat {
    if planMaxTasks <= 2 then 1 else planMaxTasks - 1
  }

  function WorkCount(seeds: seq<PlanSeed>, planMaxTasks: nat): nat {
    if |seeds| < WorkCap(planMaxTasks) then |seeds| else WorkCap(planMaxTasks)
  }

  function WorkTasks(planId: string, seeds: seq<PlanSeed>, n: nat): (r: Tasks)
    requires n <= |seeds|
    ensures |r| == n
    ensures forall i :: 0 <= i < n ==> r[i] == WorkTask(planId, seeds, i)
  {
    seq(n, i requires 0 <= i < n => WorkTask(planId, seeds, i))
  }

  function IntegrationTask(planId: string, deps: seq<string>, state: TaskState): PlanTask {
    PlanTask(ScopedTaskId(planId, INTEGRATION_TASK_SLUG), deps, 1, state, 0, 0)
  }

  // The work tasks followed by one integration task that depends on all of them.
  function Draft(planId: string, seeds: seq<PlanSeed>, planMaxTasks: nat): Tasks {
    var work := WorkTasks(planId, seeds, WorkCount(seeds, planMaxTasks));
    var deps := TaskIds(work);
    work + [IntegrationTask(planId, deps, StartState(deps))]
  }

  function Min(a: nat, b: nat): nat {
    if a < b then a else b
  }

  // The depth of a task: one more than its level, capped; 1 (capped) in a plan with a cycle.
  ghost predicate HasDepth(g: Graph, t: PlanTask, maxDepth: nat) {
    if Cyclic(g) then t.depth == Min(1, maxDepth)
    else exists k: nat :: LongestChain(g, t.id, k) && t.depth == Min(k + 1, maxDepth)
  }

  ghost predicate IsMaterialized(draft: Tasks, tasks: Tasks, maxDepth: nat) {
    && |tasks| == |draft|
    && forall i :: 0 <= i < |tasks| ==>
      tasks[i] == draft[i].(depth := tasks[i].depth) && HasDepth(PlanGraph(draft), tasks[i], maxDepth)
  }

  // The level table the planner builds from the levelling.
  method DepthTable(g: Graph, levels: seq<seq<string>>) returns (depths: map<string, nat>)
    requires levels == [] || IsLevelling(g, levels)
    ensures levels == [] ==> depths == map[]
    ensures forall id :: id in depths ==> depths[id] > 0 && LongestChain(g, id, depths[id] - 1)
    ensures levels != [] ==> forall v :: v in g ==> v in depths
  {
    depths := map[];
    for level := 0 to |levels|
      invariant level == 0 ==> depths == map[]
      invariant forall id :: id in depths ==> depths[id] > 0 && LongestChain(g, id, depths[id] - 1)
      invariant forall k, v :: 0 <= k < level && v in levels[k] ==> v in depths
    {
      var ids := levels[level];
      assert IsLevel(g, ids, level);
      for j := 0 to |ids|
        invariant forall id :: id in depths ==> depths[id] > 0 && LongestChain(g, id, depths[id] - 1)
        invariant forall k, v :: 0 <= k < level && v in levels[k] ==> v in depths
        invariant forall v :: v in ids[..j] ==> v in depths
      {
        assert ids[j] in ids;
        depths := depths[ids[j] := level + 1];
      }
      assert ids[..|ids|] == ids;
    }
  }

  method BuildWorkTasks(planId: string, seeds: seq<PlanSeed>, workCap: nat) returns (tasks: Tasks)
    ensures |tasks| == Min(|seeds|, workCap)
    ensures forall i :: 0 <= i < |tasks| ==> tasks[i] == WorkTask(planId, seeds, i).(state := Ready)
  {
    var validIds := SeedIds(planId, seeds);
    tasks := [];
    for idx := 0 to Min(|seeds|, workCap)
      invariant |tasks| == idx
      invariant forall i :: 0 <= i < idx ==> tasks[i] == WorkTask(planId, seeds, i).(state := Ready)
    {
      var taskId := SeedId(planId, seeds, idx);
      var dependencies := KeptDependencies(planId, taskId, validIds, seeds[idx].dependencies);
      tasks := tasks + [PlanTask(taskId, dependencies, 1, Ready, 0, 0)];
    }
  }

  function DepthFrom(depths: map<string, nat>, id: string): nat {
    if id in depths then depths[id] else 1
  }

  // Sets every task's depth from the level table and its first state from its dependencies.
  method SetDepths(sketch: Tasks, depths: map<string, nat>, maxDepth: nat) returns (tasks: Tasks)
    ensures |tasks| == |sketch|
    ensures forall k :: 0 <= k < |tasks| ==>
      tasks[k] == sketch[k].(depth := Min(DepthFrom(depths, sketch[k].id), maxDepth),
                             state := StartState(sketch[k].dependencies))
  {
    tasks := sketch;
    for i := 0 to |tasks|
      invariant |tasks| == |sketch|
      invariant forall k :: i <= k < |tasks| ==> tasks[k] == sketch[k]
      invariant forall k :: 0 <= k < i ==>
        tasks[k] == sketch[k].(depth := Min(DepthFrom(depths, sketch[k].id), maxDepth),
                               state := StartState(sketch[k].dependencies))
    {
      var task := tasks[i];
      tasks := tasks[i := task.(depth := Min(DepthFrom(depths, task.id), maxDepth),
                                state := StartState(task.dependencies))];
    }
  }

  lemma DepthIsRight(g: Graph, depths: map<string, nat>, t: PlanTask, maxDepth: nat)
    requires Cyclic(g) ==> depths == map[]
    requires forall id :: id in depths ==> depths[id] > 0 && LongestChain(g, id, depths[id] - 1)
    requires !Cyclic(g) ==> t.id in depths
    requires t.depth == Min(DepthFrom(depths, t.id), maxDepth)
    ensures HasDepth(g, t, maxDepth)
  {
    if !Cyclic(g) {
      assert LongestChain(g, t.id, depths[t.id] - 1);
    }
  }

  method MaterializePlan(planId: string, seeds: seq<PlanSeed>, planMaxTasks: nat, planMaxDepth: nat)
      returns (tasks: Tasks, groups: seq<seq<string>>)
    ensures IsMaterialized(Draft(planId, seeds, planMaxTasks), tasks, planMaxDepth)
    ensures groups == [] <==> Cyclic(PlanGraph(tasks))
    ensures groups != [] ==> IsLevelling(PlanGraph(tasks), groups)
  {
    var work := BuildWorkTasks(planId, seeds, WorkCap(planMaxTasks));
    var sketch := work + [IntegrationTask(planId, TaskIds(work), Pending)];
    SketchMatchesDraft(planId, seeds, planMaxTasks, work);
    var levels := TopologicalLevels(sketch);
    var depths := DepthTable(PlanGraph(sketch), levels);
    tasks := SetDepths(sketch, depths, planMaxDepth);
    TasksHaveDepths(sketch, tasks, levels, depths, planMaxDepth);
    FilledInDraft(Draft(planId, seeds, planMaxTasks), sketch, tasks, planMaxDepth);
    groups := TopologicalLevels(tasks);
  }

  // The draft differs from the tasks first pushed only in their first states.
  ghost predicate IsSketchOf(sketch: Tasks, draft: Tasks) {
    && |sketch| == |draft|
    && forall k :: 0 <= k < |sketch| ==> draft[k] == sketch[k].(state := StartState(sketch[k].dependencies))
  }

  lemma SketchMatchesDraft(planId: string, seeds: seq<PlanSeed>, planMaxTasks: nat, work: Tasks)
    requires |work| == Min(|seeds|, WorkCap(planMaxTasks))
    requires forall i :: 0 <= i < |work| ==> work[i] == WorkTask(planId, seeds, i).(state := Ready)
    ensures IsSketchOf(work + [IntegrationTask(planId, TaskIds(work), Pending)], Draft(planId, seeds, planMaxTasks))
  {
    assert TaskIds(work) == TaskIds(WorkTasks(planId, seeds, |work|));
  }

  lemma FilledInDraft(draft: Tasks, sketch: Tasks, tasks: Tasks, maxDepth: nat)
    requires IsSketchOf(sketch, draft) && |tasks| == |sketch|
    requires forall k :: 0 <= k < |tasks| ==>
      tasks[k] == sketch[k].(depth := tasks[k].depth, state := StartState(sketch[k].dependencies))
    requires forall k :: 0 <= k < |tasks| ==> HasDepth(PlanGraph(sketch), tasks[k], maxDepth)
    ensures IsMaterialized(draft, tasks, maxDepth)
  {
    GraphByShape(sketch, draft);
  }

  lemma TasksHaveDepths(sketch: Tasks, tasks: Tasks, levels: seq<seq<string>>, depths: map<string, nat>, maxDepth: nat)
    requires sketch != [] && SameShape(sketch, tasks)
    requires levels == [] <==> Cyclic(PlanGraph(sketch))
    requires levels == [] ==> depths == map[]
    requires forall id :: id in depths ==> depths[id] > 0 && LongestChain(PlanGraph(sketch), id, depths[id] - 1)
    requires levels != [] ==> forall v :: v in PlanGraph(sketch) ==> v in depths
    requires forall k :: 0 <= k < |tasks| ==> tasks[k].depth == Min(DepthFrom(depths, sketch[k].id), maxDepth)
    ensures forall k :: 0 <= k < |tasks| ==> HasDepth(PlanGraph(sketch), tasks[k], maxDepth)
  {
    forall k | 0 <= k < |tasks|
      ensures HasDepth(PlanGraph(sketch), tasks[k], maxDepth)
    {
      assert sketch[k] in sketch;
      PlanGraphEdges(sketch);
      DepthIsRight(PlanGraph(sketch), depths, tasks[k], maxDepth);
    }
  }

  lemma {:induction false} IncomingByShape(a: Tasks, b: Tasks, known: set<string>, id: string)
    requires SameShape(a, b)
    ensures Incoming(a, known, id) == Incoming(b, known, id)
  {
    if a != [] {
      IncomingByShape(a[..|a| - 1], b[..|b| - 1], known, id);
    }
  }

  lemma GraphByShape(a: Tasks, b: Tasks)
    requires SameShape(a, b)
    ensures PlanGraph(a) == PlanGraph(b) && IdSet(a) == IdSet(b)
  {
    assert IdSet(a) == IdSet(b) by {
      forall id
        ensures id in IdSet(a) <==> id in IdSet(b)
      {
        FirstIndexByShape(a, b, id);
      }
    }
    forall id | id in IdSet(a)
      ensures Incoming(a, IdSet(a), id) == Incoming(b, IdSet(b), id)
    {
      IncomingByShape(a, b, IdSet(a), id);
    }
  }
}
