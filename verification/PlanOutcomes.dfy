/** What the planner's plans guarantee to the scheduler, and how their runs end. */
module PlanOutcomes {
  import opened Decomposition
  import opened Graphs
  import opened Options
  import opened Plans
  import opened Scheduler
  import opened SchedulerRuns
  import opened SchedulerTermination
  import opened Text

  // ---------- from a contract to seeds ----------

  predicate Usable(seed: PlanSeed) {
    Trim(seed.description) != "" && !IsIntegrationTaskId(seed.id.GetOr(""))
  }

  function UsableSeeds(contract: seq<PlanSeed>): seq<PlanSeed> {
    if contract == [] then []
    else
      var n := |contract| - 1;
      UsableSeeds(contract[..n]) + (if Usable(contract[n]) then [contract[n]] else [])
  }

  function ContractSeeds(contract: seq<PlanSeed>, planMaxTasks: nat): seq<PlanSeed> {
    var usable := UsableSeeds(contract);
    usable[..Min(|usable|, WorkCap(planMaxTasks))]
  }

  // The seeds a plan is made of. The fallback seeds stand for the heuristic split of the goal.
  function PlanSeeds(contract: seq<PlanSeed>, fallback: seq<PlanSeed>, planMaxTasks: nat): seq<PlanSeed> {
    var chosen := ContractSeeds(contract, planMaxTasks);
    if chosen == [] then fallback else chosen
  }

  // build_plan_from_contract. The heuristic split stays within the work cap.
  method BuildPlanFromContract(planId: string, contract: seq<PlanSeed>, fallback: seq<PlanSeed>,
                               planMaxTasks: nat, planMaxDepth: nat)
      returns (tasks: Tasks)
    requires |fallback| <= WorkCap(planMaxTasks)
    ensures
      var seeds := PlanSeeds(contract, fallback, planMaxTasks);
      && IsMaterialized(Draft(planId, seeds, planMaxTasks), tasks, planMaxDepth)
      && (DistinctSlugs(seeds, |seeds|) ==> forall limits :: AlwaysStops(tasks, limits))
    ensures |tasks| <= (if planMaxTasks < 2 then 2 else planMaxTasks) && Fresh(tasks)
    ensures forall t, d :: t in tasks && d in t.dependencies ==> d in IdSet(tasks)
  {
    ChosenSeeds(contract, fallback, planMaxTasks);
    var seeds := ContractSeeds(contract, planMaxTasks);
    if seeds == [] {
      seeds := fallback;
    }
    var groups;
    tasks, groups := MaterializePlan(planId, seeds, planMaxTasks, planMaxDepth);
    UncappedPlanIsClosed(planId, seeds, planMaxTasks, tasks, planMaxDepth);
    PlanIsSmallAndFresh(planId, seeds, planMaxTasks, tasks, planMaxDepth);
    DistinctSlugsStop(planId, seeds, planMaxTasks, tasks, planMaxDepth);
  }

  lemma DistinctSlugsStop(planId: string, seeds: seq<PlanSeed>, planMaxTasks: nat, tasks: Tasks, maxDepth: nat)
    requires IsMaterialized(Draft(planId, seeds, planMaxTasks), tasks, maxDepth)
    ensures DistinctSlugs(seeds, WorkCount(seeds, planMaxTasks)) ==> forall limits :: AlwaysStops(tasks, limits)
  {
    UniqueIffDistinctSlugs(planId, seeds, planMaxTasks, tasks, maxDepth);
    PlanIsSmallAndFresh(planId, seeds, planMaxTasks, tasks, maxDepth);
    if UniqueIds(tasks) {
      UniqueIdsHaveNoShadows(tasks);
      forall limits
        ensures AlwaysStops(tasks, limits)
      {
        LoopStopsIff(tasks, limits);
      }
    }
  }

  lemma {:induction false} UsableSeedsAreUsable(contract: seq<PlanSeed>, s: PlanSeed)
    ensures s in UsableSeeds(contract) <==> s in contract && Usable(s)
  {
    if contract != [] {
      var n := |contract| - 1;
      UsableSeedsAreUsable(contract[..n], s);
      assert contract == contract[..n] + [contract[n]];
    }
  }

  // Every chosen seed is a usable one of the contract, and the plan's cap drops none of them.
  lemma ChosenSeeds(contract: seq<PlanSeed>, fallback: seq<PlanSeed>, planMaxTasks: nat)
    ensures var seeds := PlanSeeds(contract, fallback, planMaxTasks);
      if exists s :: s in contract && Usable(s)
      then 0 < |seeds| <= WorkCap(planMaxTasks) && forall s :: s in seeds ==> s in contract && Usable(s)
      else seeds == fallback
  {
    forall s
      ensures s in UsableSeeds(contract) <==> s in contract && Usable(s)
    {
      UsableSeedsAreUsable(contract, s);
    }
    var usable := UsableSeeds(contract);
    if usable != [] {
      assert usable[0] in usable;
    }
  }

  // ---------- ids ----------

  function Slug(seeds: seq<PlanSeed>, i: nat): string
    requires i < |seeds|
  {
    SanitizeTaskId(seeds[i].id, i).GetOr("task-" + Decimal(i + 1))
  }

  lemma ScopedIsInjective(planId: string, a: string, b: string)
    ensures ScopedTaskId(planId, a) == ScopedTaskId(planId, b) <==> a == b
  {
    var n := |planId| + 1;
    assert ScopedTaskId(planId, a)[n..] == a;
    assert ScopedTaskId(planId, b)[n..] == b;
  }

  // The first n seeds have different slugs, none of them the integration slug.
  ghost predicate DistinctSlugs(seeds: seq<PlanSeed>, n: nat)
    requires n <= |seeds|
  {
    && (forall i, j :: 0 <= i < j < n ==> Slug(seeds, i) != Slug(seeds, j))
    && (forall i :: 0 <= i < n ==> Slug(seeds, i) != INTEGRATION_TASK_SLUG)
  }

  // A plan's ids are unique exactly when the slugs it uses are distinct and none is the
  // integration slug: distinct raw ids do not suffice.
  lemma UniqueIffDistinctSlugs(planId: string, seeds: seq<PlanSeed>, planMaxTasks: nat, tasks: Tasks, maxDepth: nat)
    requires IsMaterialized(Draft(planId, seeds, planMaxTasks), tasks, maxDepth)
    ensures UniqueIds(tasks) <==> DistinctSlugs(seeds, WorkCount(seeds, planMaxTasks))
  {
    var n := WorkCount(seeds, planMaxTasks);
    forall i | 0 <= i <= n
      ensures tasks[i].id == ScopedTaskId(planId, if i < n then Slug(seeds, i) else INTEGRATION_TASK_SLUG)
    {
    }
    forall a, b
      ensures ScopedTaskId(planId, a) == ScopedTaskId(planId, b) <==> a == b
    {
      ScopedIsInjective(planId, a, b);
    }
    if UniqueIds(tasks) {
      forall i | 0 <= i < n
        ensures Slug(seeds, i) != INTEGRATION_TASK_SLUG
        ensures forall j :: i < j < n ==> Slug(seeds, i) != Slug(seeds, j)
      {
        assert tasks[i].id != tasks[n].id;
      }
    }
  }

  // Work tasks first, under their scoped slugs, then the integration task, which depends on
  // exactly their ids.
  ghost predicate HasLayout(planId: string, seeds: seq<PlanSeed>, n: nat, tasks: Tasks)
    requires n <= |seeds|
  {
    && |tasks| == n + 1
    && (forall i :: 0 <= i < n ==> tasks[i].id == ScopedTaskId(planId, Slug(seeds, i)))
    && tasks[n].id == ScopedTaskId(planId, INTEGRATION_TASK_SLUG)
    && tasks[n].dependencies == TaskIds(tasks[..n])
  }

  lemma MaterializedLayout(planId: string, seeds: seq<PlanSeed>, planMaxTasks: nat, tasks: Tasks, maxDepth: nat)
    requires IsMaterialized(Draft(planId, seeds, planMaxTasks), tasks, maxDepth)
    ensures HasLayout(planId, seeds, WorkCount(seeds, planMaxTasks), tasks)
  {
    var n := WorkCount(seeds, planMaxTasks);
    assert TaskIds(tasks[..n]) == TaskIds(WorkTasks(planId, seeds, n));
  }

  // ---------- size, freshness, dependencies ----------

  lemma PlanIsSmallAndFresh(planId: string, seeds: seq<PlanSeed>, planMaxTasks: nat, tasks: Tasks, maxDepth: nat)
    requires IsMaterialized(Draft(planId, seeds, planMaxTasks), tasks, maxDepth)
    ensures |tasks| <= if planMaxTasks < 2 then 2 else planMaxTasks
    ensures Fresh(tasks)
  {
    forall t | t in tasks
      ensures (t.state.Pending? || t.state.Ready?) && t.attempts == 0 && t.reviewLoops == 0
    {
      var i :| 0 <= i < |tasks| && tasks[i] == t;
    }
  }

  // The seeds that the cap leaves out of the plan.
  ghost predicate IsDropped(planId: string, seeds: seq<PlanSeed>, n: nat, id: string) {
    exists k :: n <= k < |seeds| && SeedId(planId, seeds, k) == id
  }

  // A task of the plan, or a seed that the cap dropped.
  ghost predicate IsKnown(planId: string, seeds: seq<PlanSeed>, n: nat, tasks: Tasks, id: string) {
    id in IdSet(tasks) || IsDropped(planId, seeds, n, id)
  }

  lemma DependencyResolves(planId: string, seeds: seq<PlanSeed>, planMaxTasks: nat, tasks: Tasks, maxDepth: nat,
                           i: nat, d: string)
    requires IsMaterialized(Draft(planId, seeds, planMaxTasks), tasks, maxDepth)
    requires i < |tasks| && d in tasks[i].dependencies
    ensures IsKnown(planId, seeds, WorkCount(seeds, planMaxTasks), tasks, d)
  {
    var n := WorkCount(seeds, planMaxTasks);
    MaterializedLayout(planId, seeds, planMaxTasks, tasks, maxDepth);
    var k := DependencyIndex(planId, seeds, n, tasks, i, d, tasks[i].dependencies);
    if k < n {
      assert tasks[k].id == SeedId(planId, seeds, k) && tasks[k] in tasks;
    }
  }

  lemma DependencyIndex(planId: string, seeds: seq<PlanSeed>, n: nat, tasks: Tasks, i: nat, d: string,
                        deps: seq<string>)
      returns (k: nat)
    requires n <= |seeds| && HasLayout(planId, seeds, n, tasks) && i < |tasks| && d in deps
    requires deps == if i < n then WorkTask(planId, seeds, i).dependencies else tasks[i].dependencies
    ensures k < |seeds| && SeedId(planId, seeds, k) == d
  {
    if i < n {
      var valid := SeedIds(planId, seeds);
      KeptDependenciesAreValid(planId, SeedId(planId, seeds, i), valid, seeds[i].dependencies, d);
      k :| 0 <= k < |seeds| && SeedId(planId, seeds, k) == d;
    } else {
      k :| 0 <= k < n && tasks[i].dependencies[k] == d;
    }
  }

  // Every dependency names a task of the plan or a seed that the cap dropped.
  lemma DependenciesResolve(planId: string, seeds: seq<PlanSeed>, planMaxTasks: nat, tasks: Tasks, maxDepth: nat)
    requires IsMaterialized(Draft(planId, seeds, planMaxTasks), tasks, maxDepth)
    ensures forall i, d :: 0 <= i < |tasks| && d in tasks[i].dependencies ==>
      IsKnown(planId, seeds, WorkCount(seeds, planMaxTasks), tasks, d)
  {
    forall i, d | 0 <= i < |tasks| && d in tasks[i].dependencies
      ensures IsKnown(planId, seeds, WorkCount(seeds, planMaxTasks), tasks, d)
    {
      DependencyResolves(planId, seeds, planMaxTasks, tasks, maxDepth, i, d);
    }
  }

  // When the cap drops none, every dependency names a task of the plan.
  lemma UncappedPlanIsClosed(planId: string, seeds: seq<PlanSeed>, planMaxTasks: nat, tasks: Tasks, maxDepth: nat)
    requires IsMaterialized(Draft(planId, seeds, planMaxTasks), tasks, maxDepth)
    requires |seeds| <= WorkCap(planMaxTasks)
    ensures forall t, d :: t in tasks && d in t.dependencies ==> d in IdSet(tasks)
  {
    forall t, d | t in tasks && d in t.dependencies
      ensures d in IdSet(tasks)
    {
      var i :| 0 <= i < |tasks| && tasks[i] == t;
      DependencyResolves(planId, seeds, planMaxTasks, tasks, maxDepth, i, d);
    }
  }

  // ---------- the end of a run ----------

  lemma SuffixMeansIntegrationSlug(planId: string, slug: string)
    requires IsSlug(slug)
    ensures EndsWith(ScopedTaskId(planId, slug), INTEGRATION_SUFFIX) <==> slug == INTEGRATION_TASK_SLUG
  {
    var id := ScopedTaskId(planId, slug);
    var n, m := |planId|, |INTEGRATION_SUFFIX|;
    assert id[n] == ':' && id[n + 1..] == slug;
    assert INTEGRATION_SUFFIX == ":" + INTEGRATION_TASK_SLUG;
    if |id| >= m {
      var tail := id[|id| - m..];
      if |slug| + 1 == m {
        assert tail == ":" + slug;
        assert tail[1..] == slug;
      } else if |slug| + 1 > m {
        assert tail[0] == slug[|slug| - m];
        assert tail != INTEGRATION_SUFFIX;
      } else {
        var k := m - 1 - |slug|;
        assert tail[k] == id[n];
        assert INTEGRATION_SUFFIX[k] == INTEGRATION_TASK_SLUG[k - 1];
      }
    }
  }

  lemma OnlyIntegrationEndsInSuffix(planId: string, seeds: seq<PlanSeed>, n: nat, tasks: Tasks, i: nat)
    requires n <= |seeds| && HasLayout(planId, seeds, n, tasks) && i < |tasks|
    requires DistinctSlugs(seeds, n)
    ensures EndsWith(tasks[i].id, INTEGRATION_SUFFIX) <==> i == n
  {
    if i < n {
      SanitizingIsIdempotent(seeds[i].id, i, i);
      SuffixMeansIntegrationSlug(planId, Slug(seeds, i));
    } else {
      SuffixMeansIntegrationSlug(planId, INTEGRATION_TASK_SLUG);
    }
  }

  lemma AcceptedTask(tasks: Tasks, i: nat)
    requires i < |tasks| && AcceptedIn(tasks, tasks[i].id)
    ensures tasks[i].state.Accepted?
  {
  }

  // Whatever an accepted task depends on directly is accepted too.
  lemma AcceptedHasAcceptedDependency(g: Graph, tasks: Tasks, n: nat, i: nat)
    requires RunInvariant(g, tasks) && n < |tasks| && i < |tasks|
    requires tasks[n].state.Accepted? && tasks[i].id in tasks[n].dependencies
    ensures tasks[i].state.Accepted?
  {
    assert TaskInvariant(g, tasks, n);
    assert Needs(g, tasks[n].dependencies, tasks[i].id);
    ReliableIsAccepted(g, tasks, tasks[i].id);
    AcceptedTask(tasks, i);
  }

  lemma IntegrationDependsOn(planId: string, seeds: seq<PlanSeed>, n: nat, tasks: Tasks, i: nat)
    requires n <= |seeds| && HasLayout(planId, seeds, n, tasks) && i < n
    ensures tasks[i].id in tasks[n].dependencies
  {
    assert tasks[n].dependencies[i] == tasks[i].id;
  }

  // The state in which a run of such a plan ends, task by task.
  ghost predicate EndsWell(final: Tasks, n: nat, i: nat)
    requires i < |final| && n < |final|
  {
    && (CompleteTask(final[i]) ==
        if i == n && final[i].state.Accepted? then final[i].(state := Completed) else final[i])
    && !final[i].state.Completed?
    && (final[n].state.Accepted? ==> final[i].state.Accepted?)
  }

  lemma TaskEndsWell(g: Graph, planId: string, seeds: seq<PlanSeed>, n: nat, tasks: Tasks, final: Tasks, i: nat)
    requires n <= |seeds| && HasLayout(planId, seeds, n, tasks) && DistinctSlugs(seeds, n)
    requires SameShape(tasks, final) && RunInvariant(g, final) && i <= n
    ensures EndsWell(final, n, i)
  {
    assert TaskInvariant(g, final, i);
    OnlyIntegrationEndsInSuffix(planId, seeds, n, tasks, i);
    if i < n && final[n].state.Accepted? {
      IntegrationDependsOn(planId, seeds, n, tasks, i);
      AcceptedHasAcceptedDependency(g, final, n, i);
    }
  }

  // No work task is marked Completed, and the integration task exactly when all were accepted.
  ghost predicate IsIntegrated(final: Tasks, out: Tasks) {
    && |out| == |final| > 0
    && var n := |final| - 1;
       && (forall i :: 0 <= i < n ==> out[i] == final[i] && !out[i].state.Completed?)
       && (out[n].state.Completed? <==> forall i :: 0 <= i <= n ==> final[i].state.Accepted?)
  }

  lemma EndsIntegrated(final: Tasks, n: nat)
    requires |final| == n + 1 && forall i :: 0 <= i <= n ==> EndsWell(final, n, i)
    ensures IsIntegrated(final, MarkCompleted(final))
  {
    forall i | 0 <= i <= n
      ensures MarkCompleted(final)[i] == CompleteTask(final[i])
      ensures i < n ==> CompleteTask(final[i]) == final[i] && !final[i].state.Completed?
      ensures final[n].state.Accepted? ==> final[i].state.Accepted?
    {
      assert EndsWell(final, n, i);
    }
    assert EndsWell(final, n, n);
  }

  // How a run of a plan with unique ids ends: no work task is ever marked Completed, and the
  // integration task is exactly when it and every other task were accepted.
  lemma IntegrationCompletes(planId: string, seeds: seq<PlanSeed>, planMaxTasks: nat, tasks: Tasks, maxDepth: nat,
                             script: Script, limits: Limits)
    requires IsMaterialized(Draft(planId, seeds, planMaxTasks), tasks, maxDepth)
    requires DistinctSlugs(seeds, WorkCount(seeds, planMaxTasks))
    requires IsFinalScript(tasks, script, limits)
    ensures var final := StateAfter(tasks, script, limits);
            |final| == |tasks| && IsIntegrated(final, MarkCompleted(final))
  {
    MaterializedLayout(planId, seeds, planMaxTasks, tasks, maxDepth);
    UniqueIffDistinctSlugs(planId, seeds, planMaxTasks, tasks, maxDepth);
    UniqueIdsHaveNoShadows(tasks);
    PlanIsSmallAndFresh(planId, seeds, planMaxTasks, tasks, maxDepth);
    RunKeepsShape(tasks, script, limits);
    RunKeepsInvariant(tasks, script, limits);
    RunEndsIntegrated(LookupGraph(tasks), planId, seeds, WorkCount(seeds, planMaxTasks), tasks,
                      StateAfter(tasks, script, limits));
  }

  lemma RunEndsIntegrated(g: Graph, planId: string, seeds: seq<PlanSeed>, n: nat, tasks: Tasks, final: Tasks)
    requires n <= |seeds| && HasLayout(planId, seeds, n, tasks) && DistinctSlugs(seeds, n)
    requires SameShape(tasks, final) && RunInvariant(g, final)
    ensures IsIntegrated(final, MarkCompleted(final))
  {
    forall i | 0 <= i <= n
      ensures EndsWell(final, n, i)
    {
      TaskEndsWell(g, planId, seeds, n, tasks, final, i);
    }
    EndsIntegrated(final, n);
  }

  // ---------- plans whose slugs collide ----------

  lemma CaseIsLost()
    ensures Cleaned("A") == "a" && Cleaned("a") == "a"
  {
    SlugIsFixed("a");
    assert Trim("A") == "A";
    assert Dashed("A") == "A";
    assert TrimMatches("A", IsDash) == "A";
    assert AsciiLower("A") == "a";
  }

  // A second seed with a slug already in use and no dependency left keeps the loop going for ever.
  lemma RepeatedSlugNeverStops(planId: string, seeds: seq<PlanSeed>, planMaxTasks: nat, tasks: Tasks, maxDepth: nat,
                               limits: Limits, i: nat, j: nat)
    requires IsMaterialized(Draft(planId, seeds, planMaxTasks), tasks, maxDepth)
    requires i < j < WorkCount(seeds, planMaxTasks) && Slug(seeds, i) == Slug(seeds, j)
    requires tasks[j].dependencies == []
    ensures !AlwaysStops(tasks, limits)
  {
    PlanIsSmallAndFresh(planId, seeds, planMaxTasks, tasks, maxDepth);
    MaterializedLayout(planId, seeds, planMaxTasks, tasks, maxDepth);
    LaterHolderIsStartable(tasks, i, j);
    LoopStopsIff(tasks, limits);
  }

  lemma LaterHolderIsStartable(tasks: Tasks, i: nat, j: nat)
    requires i < j < |tasks| && tasks[i].id == tasks[j].id && tasks[j].dependencies == []
    ensures IsShadow(tasks, j) && Startable(tasks, j)
  {
  }

  // The contract filter lets both seeds through.
  lemma ShortSeedIsUsable(id: char, text: char)
    requires id != ':' && !IsWhitespace(text)
    ensures Usable(PlanSeed(Some([id]), [text], []))
  {
    assert TrimEnd([text], IsWhitespace) == [text];
    assert |LastSegment([id])| <= 1;
  }

  lemma UsableAtEnd(front: seq<PlanSeed>, s: PlanSeed)
    requires Usable(s)
    ensures UsableSeeds(front + [s]) == UsableSeeds(front) + [s]
  {
    assert (front + [s])[..|front|] == front;
  }

  lemma CollidingSeedsAreUsable()
    ensures var seeds := [PlanSeed(Some("A"), "x", []), PlanSeed(Some("a"), "y", [])];
            UsableSeeds(seeds) == seeds
  {
    var a, b := PlanSeed(Some("A"), "x", []), PlanSeed(Some("a"), "y", []);
    ShortSeedIsUsable('A', 'x');
    ShortSeedIsUsable('a', 'y');
    UsableAtEnd([], a);
    UsableAtEnd([a], b);
    assert [] + [a] == [a] && [a] + [b] == [a, b];
  }

  // Two raw ids that differ only in case give one slug, and the scheduler never stops.
  lemma CollidingSlugsNeverStop(planId: string, tasks: Tasks, maxDepth: nat, limits: Limits)
    requires var seeds := [PlanSeed(Some("A"), "x", []), PlanSeed(Some("a"), "y", [])];
             IsMaterialized(Draft(planId, seeds, 8), tasks, maxDepth)
    ensures var seeds := [PlanSeed(Some("A"), "x", []), PlanSeed(Some("a"), "y", [])];
            ContractSeeds(seeds, 8) == seeds
    ensures !AlwaysStops(tasks, limits)
  {
    var seeds := [PlanSeed(Some("A"), "x", []), PlanSeed(Some("a"), "y", [])];
    CaseIsLost();
    assert tasks[1].dependencies == WorkTask(planId, seeds, 1).dependencies;
    RepeatedSlugNeverStops(planId, seeds, 8, tasks, maxDepth, limits, 0, 1);
    CollidingSeedsAreUsable();
  }
}
