/** When a plan's integration task can run at all: ids that repeat block it for good, and so does
    the raw id that slips through the contract filter. */
module PlanIntegration {
  import opened Dag
  import opened Decomposition
  import opened Graphs
  import opened Options
  import opened PlanOutcomes
  import opened Plans
  import opened Scheduler
  import opened SchedulerRuns
  import opened SchedulerTermination
  import opened Text

  // ---------- a repeated id is never satisfied ----------

  lemma {:induction false} FoldSparesShadow(tasks: Tasks, joined: seq<Joined>, limits: Limits, k: nat)
    requires k < |tasks| && IsShadow(tasks, k)
    ensures |FoldAll(tasks, joined, limits)| == |tasks| && FoldAll(tasks, joined, limits)[k] == tasks[k]
  {
    if joined != [] {
      var n := |joined| - 1;
      FoldSparesShadow(tasks, joined[..n], limits, k);
      FoldKeepsShape(tasks, joined[..n], limits);
      FirstIndexByShape(tasks, FoldAll(tasks, joined[..n], limits), joined[n].TaskId());
    }
  }

  predicate Waits(t: PlanTask) {
    t.state.Pending? || t.state.Ready?
  }

  lemma BatchKeepsShadowWaiting(tasks: Tasks, joined: seq<Joined>, limits: Limits, k: nat)
    requires k < |tasks| && IsShadow(tasks, k) && Waits(tasks[k])
    ensures |Batch(tasks, joined, limits)| == |tasks| && Waits(Batch(tasks, joined, limits)[k])
    ensures IsShadow(Batch(tasks, joined, limits), k)
  {
    var ids := ReadyTaskIds(tasks);
    StartAllAt(tasks, ids, k);
    StartKeepsShape(tasks, ids);
    FirstIndexByShape(tasks, StartAll(tasks, ids), tasks[k].id);
    FoldSparesShadow(StartAll(tasks, ids), joined, limits, k);
    FoldedKeepsShape(tasks, joined, limits);
    FirstIndexByShape(tasks, Batch(tasks, joined, limits), tasks[k].id);
  }

  // No run, finished or not, ever takes a later holder of an id beyond waiting.
  lemma {:induction false} ShadowWaits(tasks: Tasks, script: Script, limits: Limits, k: nat)
    requires Fresh(tasks) && k < |tasks| && IsShadow(tasks, k)
    ensures var after := StateAfter(tasks, script, limits);
      |after| == |tasks| && IsShadow(after, k) && Waits(after[k])
  {
    if script == [] {
      assert tasks[k] in tasks;
    } else {
      var n := |script| - 1;
      ShadowWaits(tasks, script[..n], limits, k);
      BatchKeepsShadowWaiting(StateAfter(tasks, script[..n], limits), script[n], limits, k);
    }
  }

  lemma LastHolderIsShadow(tasks: Tasks, k: nat) returns (j: nat)
    requires k < |tasks| && IsShadow(tasks, k)
    ensures j < |tasks| && tasks[j].id == tasks[k].id && IsShadow(tasks, j)
    ensures forall i :: j < i < |tasks| ==> tasks[i].id != tasks[j].id
  {
    j := LastIndex(tasks, tasks[k].id);
    assert FirstIndex(tasks, tasks[k].id) < k <= j;
  }

  lemma WaitingIsUnsatisfied(tasks: Tasks, j: nat)
    requires j < |tasks| && Waits(tasks[j])
    requires forall i :: j < i < |tasks| ==> tasks[i].id != tasks[j].id
    ensures !Satisfied(tasks, tasks[j].id)
  {
    ByIdOfLast(tasks, j);
  }

  lemma RepeatedIdNeverSatisfied(tasks: Tasks, script: Script, limits: Limits, k: nat)
    requires Fresh(tasks) && k < |tasks| && IsShadow(tasks, k)
    ensures !Satisfied(StateAfter(tasks, script, limits), tasks[k].id)
  {
    var j := LastHolderIsShadow(tasks, k);
    ShadowWaits(tasks, script, limits, j);
    RunKeepsShape(tasks, script, limits);
    WaitingIsUnsatisfied(StateAfter(tasks, script, limits), j);
  }

  // ---------- integration behind a repeated id ----------

  predicate LastIsReady(tasks: Tasks) {
    tasks != [] && IsReady(tasks, tasks[|tasks| - 1])
  }

  // After the script the last task is ready.
  predicate MakesLastReady(tasks: Tasks, script: Script, limits: Limits) {
    LastIsReady(StateAfter(tasks, script, limits))
  }

  lemma UnsatisfiedBlocksLast(tasks: Tasks, after: Tasks, id: string)
    requires tasks != [] && SameShape(tasks, after)
    requires id in tasks[|tasks| - 1].dependencies && !Satisfied(after, id)
    ensures !LastIsReady(after)
  {
  }

  // Task k repeats an id that the last task waits for.
  predicate BlocksLast(tasks: Tasks, k: nat) {
    k < |tasks| && IsShadow(tasks, k) && tasks[k].id in tasks[|tasks| - 1].dependencies
  }

  lemma LaterHolderBlocks(tasks: Tasks, i: nat, j: nat)
    requires i < j < |tasks| && tasks[i].id == tasks[j].id
    requires tasks[j].id in tasks[|tasks| - 1].dependencies
    ensures BlocksLast(tasks, j)
  {
  }

  lemma EqualSlugsEqualIds(planId: string, seeds: seq<PlanSeed>, n: nat, tasks: Tasks, i: nat, j: nat)
    requires n <= |seeds| && HasLayout(planId, seeds, n, tasks) && i < n && j <= n
    requires Slug(seeds, i) == if j < n then Slug(seeds, j) else INTEGRATION_TASK_SLUG
    ensures tasks[i].id == tasks[j].id
  {
  }

  // Of two tasks with one slug the later one blocks the integration task, even itself.
  lemma EqualSlugsBlock(planId: string, seeds: seq<PlanSeed>, n: nat, tasks: Tasks, i: nat, j: nat)
    requires n <= |seeds| && HasLayout(planId, seeds, n, tasks) && i < j <= n
    requires Slug(seeds, i) == if j < n then Slug(seeds, j) else INTEGRATION_TASK_SLUG
    ensures BlocksLast(tasks, j)
  {
    EqualSlugsEqualIds(planId, seeds, n, tasks, i, j);
    IntegrationDependsOn(planId, seeds, n, tasks, i);
    LaterHolderBlocks(tasks, i, j);
  }

  lemma RepeatBlocksLast(tasks: Tasks, script: Script, limits: Limits, k: nat)
    requires Fresh(tasks) && BlocksLast(tasks, k)
    ensures !MakesLastReady(tasks, script, limits)
  {
    RunKeepsShape(tasks, script, limits);
    RepeatedIdNeverSatisfied(tasks, script, limits, k);
    UnsatisfiedBlocksLast(tasks, StateAfter(tasks, script, limits), tasks[k].id);
  }

  // When slugs collide some later holder's id is one the integration task waits for.
  lemma CollisionBlocks(planId: string, seeds: seq<PlanSeed>, n: nat, tasks: Tasks) returns (k: nat)
    requires n <= |seeds| && HasLayout(planId, seeds, n, tasks) && !DistinctSlugs(seeds, n)
    ensures BlocksLast(tasks, k)
  {
    if i, j :| 0 <= i < j < n && Slug(seeds, i) == Slug(seeds, j) {
      EqualSlugsBlock(planId, seeds, n, tasks, i, j);
      k := j;
    } else {
      var i :| 0 <= i < n && Slug(seeds, i) == INTEGRATION_TASK_SLUG;
      EqualSlugsBlock(planId, seeds, n, tasks, i, n);
      k := n;
    }
  }

  // The last task is waiting and not ready.
  predicate LastWaits(tasks: Tasks) {
    tasks != [] && Schedulable(tasks[|tasks| - 1].state) && !IsReady(tasks, tasks[|tasks| - 1])
  }

  lemma WaitingNotReady(after: Tasks, n: nat)
    requires |after| == n + 1 && Waits(after[n]) && !LastIsReady(after)
    ensures LastWaits(after)
  {
  }

  lemma ShadowBehindItself(tasks: Tasks, script: Script, limits: Limits, n: nat)
    requires Fresh(tasks) && |tasks| == n + 1 && BlocksLast(tasks, n)
    ensures LastWaits(StateAfter(tasks, script, limits))
  {
    RepeatBlocksLast(tasks, script, limits, n);
    ShadowWaits(tasks, script, limits, n);
    WaitingNotReady(StateAfter(tasks, script, limits), n);
  }

  // What the scheduler relies on, without the planner's details.
  lemma PlanFacts(planId: string, seeds: seq<PlanSeed>, planMaxTasks: nat, tasks: Tasks, maxDepth: nat)
    requires IsMaterialized(Draft(planId, seeds, planMaxTasks), tasks, maxDepth)
    ensures Fresh(tasks) && HasLayout(planId, seeds, WorkCount(seeds, planMaxTasks), tasks)
    ensures UniqueIds(tasks) <==> DistinctSlugs(seeds, WorkCount(seeds, planMaxTasks))
  {
    MaterializedLayout(planId, seeds, planMaxTasks, tasks, maxDepth);
    PlanIsSmallAndFresh(planId, seeds, planMaxTasks, tasks, maxDepth);
    UniqueIffDistinctSlugs(planId, seeds, planMaxTasks, tasks, maxDepth);
  }

  // A seed whose slug is the integration slug makes the integration task depend on its own id.
  // Whatever runs and however it ends, that task waits for ever.
  lemma ForgedIntegrationNeverRuns(planId: string, seeds: seq<PlanSeed>, planMaxTasks: nat, tasks: Tasks,
                                   maxDepth: nat, script: Script, limits: Limits, i: nat)
    requires IsMaterialized(Draft(planId, seeds, planMaxTasks), tasks, maxDepth)
    requires i < WorkCount(seeds, planMaxTasks) && Slug(seeds, i) == INTEGRATION_TASK_SLUG
    ensures |StateAfter(tasks, script, limits)| == |tasks| && LastWaits(StateAfter(tasks, script, limits))
  {
    PlanFacts(planId, seeds, planMaxTasks, tasks, maxDepth);
    EqualSlugsBlock(planId, seeds, WorkCount(seeds, planMaxTasks), tasks, i, |tasks| - 1);
    ShadowBehindItself(tasks, script, limits, WorkCount(seeds, planMaxTasks));
    RunKeepsShape(tasks, script, limits);
  }

  // ---------- the id that slips through ----------

  lemma {:induction false} OneSegment(s: string)
    requires forall i :: 0 <= i < |s| ==> s[i] != ':'
    ensures LastSegment(s) == s
  {
    if s != "" {
      OneSegment(s[..|s| - 1]);
    }
  }

  const FORGED_ID := "Task Integrate"

  lemma ForgedDashed()
    ensures Dashed(Trim(FORGED_ID)) == "Task-Integrate"
  {
    assert Trim(FORGED_ID) == FORGED_ID;
    assert Dashed(FORGED_ID) == "Task-Integrate";
  }

  lemma ForgedSlug()
    ensures Cleaned(FORGED_ID) == INTEGRATION_TASK_SLUG
  {
    ForgedDashed();
    assert TrimMatches("Task-Integrate", IsDash) == "Task-Integrate";
    assert AsciiLower("Task-Integrate") == INTEGRATION_TASK_SLUG;
  }

  // A usable contract entry, by the filter's own test, whose slug is the integration slug.
  lemma ForgedIdPassesFilter(description: string, dependencies: seq<string>, i: nat)
    requires Trim(description) != ""
    ensures var seed := PlanSeed(Some(FORGED_ID), description, dependencies);
      Usable(seed) && SanitizeTaskId(seed.id, i) == Some(INTEGRATION_TASK_SLUG)
  {
    OneSegment(FORGED_ID);
    ForgedSlug();
  }

  // ---------- integration can run exactly when ids are distinct and nothing is cyclic ----------

  // Accepting every run leads, batch by batch, to the end of the loop.
  lemma {:induction false} AcceptingRun(tasks: Tasks, limits: Limits, bound: nat) returns (script: Script)
    requires Fresh(tasks) && NoStartableDuplicates(tasks) && AllGoesWell(tasks)
    ensures IsScript(tasks, script, limits) && AllGoesWell(StateAfter(tasks, script, limits))
    ensures |script| == bound || IsFinalScript(tasks, script, limits)
  {
    script := [];
    if bound > 0 {
      script := AcceptingRun(tasks, limits, bound - 1);
      var before := StateAfter(tasks, script, limits);
      if ReadyTaskIds(before) != [] {
        var joined := AcceptEveryIsCompletion(before);
        AcceptingKeepsGoingWell(before, joined, limits);
        assert (script + [joined])[..|script|] == script;
        script := script + [joined];
      }
    }
  }

  lemma AcceptingRunEnds(tasks: Tasks, limits: Limits) returns (script: Script)
    requires Fresh(tasks) && NoStartableDuplicates(tasks) && AllGoesWell(tasks)
    ensures IsFinalScript(tasks, script, limits) && AllGoesWell(StateAfter(tasks, script, limits))
  {
    var bound := |tasks| * (limits.maxReviewLoops + 1);
    script := AcceptingRun(tasks, limits, bound + 1);
    BatchBound(tasks, script, limits);
  }

  predicate ReadyAt(tasks: Tasks, i: nat) {
    i < |tasks| && IsReady(tasks, tasks[i])
  }

  predicate IsAcceptedAt(tasks: Tasks, i: nat) {
    i < |tasks| && tasks[i].state.Accepted?
  }

  lemma OnlyReadyAreAccepted(before: Tasks, joined: seq<Joined>, after: Tasks, limits: Limits, i: nat)
    requires OnlyFirstsReady(before) && IsCompletion(before, joined) && after == Batch(before, joined, limits)
    requires IsAcceptedAt(after, i)
    ensures ReadyAt(before, i) || IsAcceptedAt(before, i)
  {
    FoldedKeepsShape(before, joined, limits);
    var _ := BatchAt(before, joined, limits, i);
  }

  lemma FreshIsNotAccepted(tasks: Tasks, i: nat)
    requires Fresh(tasks)
    ensures !IsAcceptedAt(tasks, i)
  {
    assert i < |tasks| ==> tasks[i] in tasks;
  }

  lemma StepAcceptsReady(tasks: Tasks, script: Script, limits: Limits, i: nat, m: nat)
    requires Fresh(tasks) && NoStartableDuplicates(tasks) && IsScript(tasks, script, limits) && m < |script|
    requires IsAcceptedAt(StateAfter(tasks, script[..m + 1], limits), i)
    ensures var before := StateAfter(tasks, script[..m], limits);
      ReadyAt(before, i) || IsAcceptedAt(before, i)
  {
    BatchOfRun(tasks, script, limits, m + 1);
    OnlyReadyAreAccepted(StateAfter(tasks, script[..m], limits), script[m],
                         StateAfter(tasks, script[..m + 1], limits), limits, i);
  }

  // Whatever a run has accepted was ready before.
  lemma {:induction false} AcceptedWasReady(tasks: Tasks, script: Script, limits: Limits, i: nat, m: nat)
      returns (k: nat)
    requires Fresh(tasks) && NoStartableDuplicates(tasks) && IsScript(tasks, script, limits) && m <= |script|
    requires IsAcceptedAt(StateAfter(tasks, script[..m], limits), i)
    ensures k < m && ReadyAt(StateAfter(tasks, script[..k], limits), i)
    decreases m
  {
    if m == 0 {
      FreshIsNotAccepted(tasks, i);
    } else {
      k := m - 1;
      StepAcceptsReady(tasks, script, limits, i, k);
      if !ReadyAt(StateAfter(tasks, script[..k], limits), i) {
        k := AcceptedWasReady(tasks, script, limits, i, k);
      }
    }
  }

  lemma FreshGoesWell(tasks: Tasks)
    requires Fresh(tasks)
    ensures AllGoesWell(tasks)
  {
    forall i | 0 <= i < |tasks|
      ensures tasks[i].state.Pending? || tasks[i].state.Ready?
    {
      assert tasks[i] in tasks;
    }
  }

  // In an acyclic, closed plan with distinct ids every task can be reached.
  lemma AcyclicPlanCanRun(tasks: Tasks, limits: Limits, i: nat) returns (script: Script)
    requires Fresh(tasks) && UniqueIds(tasks) && i < |tasks| && !Cyclic(PlanGraph(tasks))
    requires forall t, d :: t in tasks && d in t.dependencies ==> d in IdSet(tasks)
    ensures IsScript(tasks, script, limits) && |StateAfter(tasks, script, limits)| == |tasks|
    ensures ReadyAt(StateAfter(tasks, script, limits), i)
  {
    FreshGoesWell(tasks);
    UniqueIdsHaveNoShadows(tasks);
    var whole := AcceptingRunEnds(tasks, limits);
    RunKeepsShape(tasks, whole, limits);
    AcyclicPlanFinishes(tasks, whole, limits, i);
    assert whole[..|whole|] == whole;
    var m := AcceptedWasReady(tasks, whole, limits, i, |whole|);
    script := whole[..m];
    ScriptPrefix(tasks, whole, limits, m);
    RunKeepsShape(tasks, script, limits);
  }

  // A cycle anywhere in the plan lies behind the integration task.
  lemma CycleIsNeeded(planId: string, seeds: seq<PlanSeed>, n: nat, tasks: Tasks) returns (v: string)
    requires n <= |seeds| && HasLayout(planId, seeds, n, tasks)
    requires UniqueIds(tasks) && Cyclic(PlanGraph(tasks))
    ensures Needs(LookupGraph(tasks), tasks[n].dependencies, v) && Reach(LookupGraph(tasks), v, v)
  {
    v :| Reach(PlanGraph(tasks), v, v);
    SameCycles(tasks, v);
    var i := CyclicIdIsKnown(tasks, v);
    if i < n {
      IntegrationDependsOn(planId, seeds, n, tasks, i);
    } else {
      ByIdOfUnique(tasks, n);
      ReachMeansNeeds(LookupGraph(tasks), v);
    }
  }

  lemma CyclicIdIsKnown(tasks: Tasks, v: string) returns (i: nat)
    requires Reach(PlanGraph(tasks), v, v)
    ensures i < |tasks| && tasks[i].id == v
  {
    PlanGraphEdges(tasks);
    var c := ReachFirstStep(PlanGraph(tasks), v, v);
    i :| 0 <= i < |tasks| && tasks[i].id == v;
  }

  lemma CycleBlocksLast(planId: string, seeds: seq<PlanSeed>, n: nat, tasks: Tasks, script: Script, limits: Limits)
    requires n <= |seeds| && HasLayout(planId, seeds, n, tasks)
    requires Fresh(tasks) && UniqueIds(tasks) && Cyclic(PlanGraph(tasks)) && IsScript(tasks, script, limits)
    ensures !MakesLastReady(tasks, script, limits)
  {
    UniqueIdsHaveNoShadows(tasks);
    var v := CycleIsNeeded(planId, seeds, n, tasks);
    CyclicTaskNeverDispatched(tasks, script, limits, n, v);
  }

  ghost predicate CanIntegrate(tasks: Tasks, limits: Limits) {
    exists script :: IsScript(tasks, script, limits) && MakesLastReady(tasks, script, limits)
  }

  lemma LastIsReadyAt(tasks: Tasks, after: Tasks)
    requires tasks != [] && |after| == |tasks| && ReadyAt(after, |tasks| - 1)
    ensures LastIsReady(after)
  {
  }

  lemma LastCanRun(tasks: Tasks, limits: Limits)
    requires Fresh(tasks) && UniqueIds(tasks) && tasks != [] && !Cyclic(PlanGraph(tasks))
    requires forall t, d :: t in tasks && d in t.dependencies ==> d in IdSet(tasks)
    ensures CanIntegrate(tasks, limits)
  {
    var script := AcyclicPlanCanRun(tasks, limits, |tasks| - 1);
    LastIsReadyAt(tasks, StateAfter(tasks, script, limits));
    assert MakesLastReady(tasks, script, limits);
  }

  lemma LastCannotRun(planId: string, seeds: seq<PlanSeed>, n: nat, tasks: Tasks, limits: Limits)
    requires n <= |seeds| && HasLayout(planId, seeds, n, tasks) && Fresh(tasks)
    requires UniqueIds(tasks) <==> DistinctSlugs(seeds, n)
    requires !DistinctSlugs(seeds, n) || Cyclic(PlanGraph(tasks))
    ensures !CanIntegrate(tasks, limits)
  {
    forall script | IsScript(tasks, script, limits)
      ensures !MakesLastReady(tasks, script, limits)
    {
      if DistinctSlugs(seeds, n) {
        CycleBlocksLast(planId, seeds, n, tasks, script, limits);
      } else {
        var k := CollisionBlocks(planId, seeds, n, tasks);
        RepeatBlocksLast(tasks, script, limits, k);
      }
    }
  }

  // The exact condition under which a plan's integration task can ever be dispatched: the slugs
  // in use are distinct, none is the integration slug, and no dependencies run in a circle.
  lemma IntegrationCanRunIff(planId: string, seeds: seq<PlanSeed>, planMaxTasks: nat, tasks: Tasks, maxDepth: nat,
                             limits: Limits)
    requires IsMaterialized(Draft(planId, seeds, planMaxTasks), tasks, maxDepth)
    requires |seeds| <= WorkCap(planMaxTasks)
    ensures CanIntegrate(tasks, limits) <==>
      DistinctSlugs(seeds, WorkCount(seeds, planMaxTasks)) && !Cyclic(PlanGraph(tasks))
  {
    PlanFacts(planId, seeds, planMaxTasks, tasks, maxDepth);
    if DistinctSlugs(seeds, WorkCount(seeds, planMaxTasks)) && !Cyclic(PlanGraph(tasks)) {
      UncappedPlanIsClosed(planId, seeds, planMaxTasks, tasks, maxDepth);
      LastCanRun(tasks, limits);
    } else {
      LastCannotRun(planId, seeds, WorkCount(seeds, planMaxTasks), tasks, limits);
    }
  }

  // A contract that brings such an id into the plan never gets its results integrated.
  lemma ForgedContractNeverIntegrates(planId: string, contract: seq<PlanSeed>, fallback: seq<PlanSeed>,
                                      planMaxTasks: nat, tasks: Tasks, maxDepth: nat, limits: Limits, i: nat)
    requires IsMaterialized(Draft(planId, PlanSeeds(contract, fallback, planMaxTasks), planMaxTasks), tasks, maxDepth)
    requires i < |ContractSeeds(contract, planMaxTasks)|
    requires ContractSeeds(contract, planMaxTasks)[i].id == Some(FORGED_ID)
    ensures !CanIntegrate(tasks, limits)
  {
    var seeds := ContractSeeds(contract, planMaxTasks);
    ForgedSlug();
    PlanFacts(planId, seeds, planMaxTasks, tasks, maxDepth);
    assert Slug(seeds, i) == INTEGRATION_TASK_SLUG;
    LastCannotRun(planId, seeds, WorkCount(seeds, planMaxTasks), tasks, limits);
  }

  // ---------- plans made without a contract ----------

  // What each of the heuristic splits produces: numbered work packages without dependencies.
  predicate IsHeuristicSplit(seeds: seq<PlanSeed>, planMaxTasks: nat) {
    && 0 < |seeds| <= WorkCap(planMaxTasks)
    && forall i :: 0 <= i < |seeds| ==> IsNumbered(seeds[i], i + 1)
  }

  predicate IsNumbered(seed: PlanSeed, number: nat) {
    seed.id == Some("task-" + Decimal(number)) && seed.dependencies == []
  }

  lemma NumberedSlug(seeds: seq<PlanSeed>, i: nat)
    requires i < |seeds| && IsNumbered(seeds[i], i + 1)
    ensures Slug(seeds, i) == "task-" + Decimal(i + 1)
  {
    DecimalDigits(i + 1);
    SlugIsFixed("task-" + Decimal(i + 1));
  }

  lemma NumbersDiffer(m: nat, n: nat)
    ensures "task-" + Decimal(m) == "task-" + Decimal(n) ==> m == n
    ensures "task-" + Decimal(m) != INTEGRATION_TASK_SLUG
  {
    var a, b := "task-" + Decimal(m), "task-" + Decimal(n);
    assert a[5..] == Decimal(m) && b[5..] == Decimal(n);
    if a == b {
      DecimalInjective(m, n);
    }
    DecimalDigits(m);
    assert a[5] == Decimal(m)[0];
  }

  lemma HeuristicSlugsDiffer(seeds: seq<PlanSeed>, planMaxTasks: nat, i: nat, j: nat)
    requires IsHeuristicSplit(seeds, planMaxTasks) && i <= j < |seeds|
    ensures i < j ==> Slug(seeds, i) != Slug(seeds, j)
    ensures Slug(seeds, i) != INTEGRATION_TASK_SLUG
  {
    NumberedSlug(seeds, i);
    NumberedSlug(seeds, j);
    NumbersDiffer(i + 1, j + 1);
  }

  lemma HeuristicSlugsAreDistinct(seeds: seq<PlanSeed>, planMaxTasks: nat)
    requires IsHeuristicSplit(seeds, planMaxTasks)
    ensures DistinctSlugs(seeds, |seeds|)
  {
    forall i, j | 0 <= i <= j < |seeds|
      ensures i < j ==> Slug(seeds, i) != Slug(seeds, j)
      ensures Slug(seeds, i) != INTEGRATION_TASK_SLUG
    {
      HeuristicSlugsDiffer(seeds, planMaxTasks, i, j);
    }
  }

  // A plan in which only the last task has dependencies, none of them itself, has no cycle.
  lemma StarIsAcyclic(tasks: Tasks, n: nat)
    requires UniqueIds(tasks) && |tasks| == n + 1 && tasks[n].id !in tasks[n].dependencies
    requires forall i :: 0 <= i < n ==> tasks[i].dependencies == []
    ensures !Cyclic(PlanGraph(tasks))
  {
    PlanGraphEdges(tasks);
    forall a, b | Edge(PlanGraph(tasks), a, b)
      ensures a == tasks[n].id && b != a
    {
      var t :| t in tasks && t.id == a && b in t.dependencies;
    }
    if v :| Reach(PlanGraph(tasks), v, v) {
      var c := ReachFirstStep(PlanGraph(tasks), v, v);
      var d := ReachFirstStep(PlanGraph(tasks), c, v);
      assert false;
    }
  }

  lemma HeuristicPlanIsStar(planId: string, seeds: seq<PlanSeed>, planMaxTasks: nat, tasks: Tasks, maxDepth: nat)
    requires IsHeuristicSplit(seeds, planMaxTasks)
    requires IsMaterialized(Draft(planId, seeds, planMaxTasks), tasks, maxDepth)
    ensures forall i :: 0 <= i < |tasks| - 1 ==> tasks[i].dependencies == []
  {
    forall i | 0 <= i < |tasks| - 1
      ensures tasks[i].dependencies == []
    {
      assert tasks[i].dependencies == WorkTask(planId, seeds, i).dependencies;
      assert IsNumbered(seeds[i], i + 1);
    }
  }

  // Without a usable contract nothing can go wrong with the plan: whatever the goal, the loop
  // stops and integration can run.
  lemma HeuristicPlansIntegrate(planId: string, seeds: seq<PlanSeed>, planMaxTasks: nat, tasks: Tasks, maxDepth: nat,
                                limits: Limits)
    requires IsHeuristicSplit(seeds, planMaxTasks)
    requires IsMaterialized(Draft(planId, seeds, planMaxTasks), tasks, maxDepth)
    ensures AlwaysStops(tasks, limits) && CanIntegrate(tasks, limits)
  {
    var n := WorkCount(seeds, planMaxTasks);
    HeuristicSlugsAreDistinct(seeds, planMaxTasks);
    PlanFacts(planId, seeds, planMaxTasks, tasks, maxDepth);
    DistinctSlugsStop(planId, seeds, planMaxTasks, tasks, maxDepth);
    HeuristicPlanIsStar(planId, seeds, planMaxTasks, tasks, maxDepth);
    forall k | 0 <= k < n
      ensures tasks[n].dependencies[k] != tasks[n].id
    {
      assert tasks[k].id != tasks[n].id;
    }
    StarIsAcyclic(tasks, n);
    IntegrationCanRunIff(planId, seeds, planMaxTasks, tasks, maxDepth, limits);
  }
}
