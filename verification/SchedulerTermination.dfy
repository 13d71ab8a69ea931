/** Termination of the scheduler loop, the exact condition for it, and its bounds. */
module SchedulerTermination {
  import opened Dag
  import opened Graphs
  import opened Plans
  import opened Scheduler
  import opened SchedulerRuns
  import opened Text

  // How often a task can still be dispatched.
  function Budget(t: PlanTask, limits: Limits): nat {
    if !Schedulable(t.state) then 0
    else if t.reviewLoops < limits.maxReviewLoops then 1 + limits.maxReviewLoops - t.reviewLoops
    else 1
  }

  function TotalBudget(tasks: Tasks, limits: Limits): nat {
    if tasks == [] then 0 else Budget(tasks[0], limits) + TotalBudget(tasks[1..], limits)
  }

  lemma OutcomeSpends(t: PlanTask, outcome: RunOutcome, limits: Limits)
    requires Schedulable(t.state)
    ensures Budget(AfterOutcome(t, outcome, limits), limits) < Budget(t, limits)
  {
  }

  lemma PromotionSpendsNothing(snapshot: Tasks, t: PlanTask, limits: Limits)
    ensures Budget(PromoteTask(snapshot, t), limits) == Budget(t, limits)
  {
  }

  // Every dispatch costs its task one unit, nothing ever gains one.
  lemma BatchSpends(tasks: Tasks, joined: seq<Joined>, limits: Limits, i: nat)
    requires OnlyFirstsReady(tasks) && IsCompletion(tasks, joined) && i < |tasks|
    ensures |Batch(tasks, joined, limits)| == |tasks|
    ensures Budget(Batch(tasks, joined, limits)[i], limits) + (if IsReady(tasks, tasks[i]) then 1 else 0)
         <= Budget(tasks[i], limits)
  {
    var outcome := BatchAt(tasks, joined, limits, i);
    if IsReady(tasks, tasks[i]) {
      OutcomeSpends(tasks[i], outcome, limits);
      PromotionSpendsNothing(Folded(tasks, joined, limits), AfterOutcome(tasks[i], outcome, limits), limits);
    } else {
      PromotionSpendsNothing(Folded(tasks, joined, limits), tasks[i], limits);
    }
  }

  ghost predicate PointwiseLeq(a: Tasks, b: Tasks, limits: Limits) {
    |a| == |b| && forall i :: 0 <= i < |a| ==> Budget(a[i], limits) <= Budget(b[i], limits)
  }

  lemma {:induction false} TotalBudgetDrops(a: Tasks, b: Tasks, limits: Limits, k: nat)
    requires PointwiseLeq(a, b, limits)
    ensures TotalBudget(a, limits) <= TotalBudget(b, limits)
    ensures k < |a| && Budget(a[k], limits) < Budget(b[k], limits) ==> TotalBudget(a, limits) < TotalBudget(b, limits)
  {
    if a != [] {
      TotalBudgetDrops(a[1..], b[1..], limits, if k > 0 then k - 1 else |a|);
    }
  }

  lemma BatchLowersTotal(tasks: Tasks, joined: seq<Joined>, limits: Limits)
    requires OnlyFirstsReady(tasks) && IsCompletion(tasks, joined) && ReadyTaskIds(tasks) != []
    ensures TotalBudget(Batch(tasks, joined, limits), limits) < TotalBudget(tasks, limits)
  {
    var after := Batch(tasks, joined, limits);
    var id := ReadyTaskIds(tasks)[0];
    SelectReadyMembers(tasks, |tasks|, id);
    var k :| 0 <= k < |tasks| && tasks[k].id == id && IsReady(tasks, tasks[k]);
    FoldedKeepsShape(tasks, joined, limits);
    forall i | 0 <= i < |tasks|
      ensures Budget(after[i], limits) + (if IsReady(tasks, tasks[i]) then 1 else 0) <= Budget(tasks[i], limits)
    {
      BatchSpends(tasks, joined, limits, i);
    }
    TotalBudgetDrops(after, tasks, limits, k);
  }

  lemma {:induction false} RunIsBounded(tasks: Tasks, script: Script, limits: Limits)
    requires Fresh(tasks) && NoStartableDuplicates(tasks) && IsScript(tasks, script, limits)
    ensures |script| + TotalBudget(StateAfter(tasks, script, limits), limits) <= TotalBudget(tasks, limits)
  {
    if script != [] {
      var n := |script| - 1;
      var init := script[..n];
      RunIsBounded(tasks, init, limits);
      RunKeepsInvariant(tasks, init, limits);
      BatchLowersTotal(StateAfter(tasks, init, limits), script[n], limits);
    }
  }

  lemma {:induction false} FreshBudget(tasks: Tasks, limits: Limits)
    requires Fresh(tasks)
    ensures TotalBudget(tasks, limits) == |tasks| * (limits.maxReviewLoops + 1)
  {
    if tasks != [] {
      FreshBudget(tasks[1..], limits);
      assert tasks[0] in tasks;
    }
  }

  // A run of a fresh plan has at most n * (max_review_loops + 1) batches, whatever happens.
  lemma BatchBound(tasks: Tasks, script: Script, limits: Limits)
    requires Fresh(tasks) && NoStartableDuplicates(tasks) && IsScript(tasks, script, limits)
    ensures |script| <= |tasks| * (limits.maxReviewLoops + 1)
  {
    RunIsBounded(tasks, script, limits);
    FreshBudget(tasks, limits);
  }

  // The number of batches in which the i-th task was dispatched.
  function Dispatches(tasks: Tasks, script: Script, limits: Limits, i: nat): nat {
    if script == [] then 0
    else
      var before := StateAfter(tasks, script[..|script| - 1], limits);
      Dispatches(tasks, script[..|script| - 1], limits, i) +
      (if i < |before| && IsReady(before, before[i]) then 1 else 0)
  }

  predicate WithinLimits(t: PlanTask, limits: Limits) {
    && t.attempts <= limits.maxRetries + 1
    && t.reviewLoops <= limits.maxReviewLoops
    && (Schedulable(t.state) ==> t.attempts <= limits.maxRetries)
  }

  lemma OutcomeStaysWithinLimits(t: PlanTask, outcome: RunOutcome, limits: Limits)
    requires Schedulable(t.state) && WithinLimits(t, limits)
    ensures WithinLimits(AfterOutcome(t, outcome, limits), limits)
  {
  }

  lemma PromotionStaysWithinLimits(snapshot: Tasks, t: PlanTask, limits: Limits)
    requires WithinLimits(t, limits)
    ensures WithinLimits(PromoteTask(snapshot, t), limits)
  {
  }

  lemma BatchStaysWithinLimits(tasks: Tasks, joined: seq<Joined>, limits: Limits, i: nat)
    requires OnlyFirstsReady(tasks) && IsCompletion(tasks, joined) && i < |tasks|
    requires WithinLimits(tasks[i], limits)
    ensures |Batch(tasks, joined, limits)| == |tasks|
    ensures WithinLimits(Batch(tasks, joined, limits)[i], limits)
  {
    var outcome := BatchAt(tasks, joined, limits, i);
    if IsReady(tasks, tasks[i]) {
      OutcomeStaysWithinLimits(tasks[i], outcome, limits);
      PromotionStaysWithinLimits(Folded(tasks, joined, limits), AfterOutcome(tasks[i], outcome, limits), limits);
    } else {
      PromotionStaysWithinLimits(Folded(tasks, joined, limits), tasks[i], limits);
    }
  }

  // No task is dispatched more than max_review_loops + 1 times, and no task uses more than
  // max_retries + 1 attempts, although a run without a subagent uses none.
  lemma {:induction false} DispatchBound(tasks: Tasks, script: Script, limits: Limits, i: nat)
    requires Fresh(tasks) && NoStartableDuplicates(tasks) && IsScript(tasks, script, limits)
    requires i < |tasks|
    ensures var after := StateAfter(tasks, script, limits);
            && |after| == |tasks|
            && Dispatches(tasks, script, limits, i) + Budget(after[i], limits) <= limits.maxReviewLoops + 1
            && WithinLimits(after[i], limits)
  {
    if script != [] {
      var n := |script| - 1;
      var init := script[..n];
      DispatchBound(tasks, init, limits, i);
      RunKeepsInvariant(tasks, init, limits);
      BatchSpends(StateAfter(tasks, init, limits), script[n], limits, i);
      BatchStaysWithinLimits(StateAfter(tasks, init, limits), script[n], limits, i);
    }
  }

  // ---------- plans with a repeated id ----------

  // All these runs end in this way.
  predicate AllEnd(tasks: Tasks, joined: seq<Joined>, outcome: RunOutcome) {
    forall j :: j in joined ==>
      FirstIndex(tasks, j.TaskId()) < |tasks| && j == RunOneTask(tasks[FirstIndex(tasks, j.TaskId())], outcome)
  }

  function EndEvery(tasks: Tasks, ids: seq<string>, outcome: RunOutcome): (joined: seq<Joined>)
    requires forall id :: id in ids ==> FirstIndex(tasks, id) < |tasks|
    ensures |joined| == |ids|
    ensures forall k :: 0 <= k < |ids| ==> joined[k] == RunOneTask(tasks[FirstIndex(tasks, ids[k])], outcome)
  {
    seq(|ids|, k requires 0 <= k < |ids| => RunOneTask(tasks[FirstIndex(tasks, ids[k])], outcome))
  }

  lemma EndEveryIsCompletion(tasks: Tasks, outcome: RunOutcome) returns (joined: seq<Joined>)
    ensures IsCompletion(tasks, joined) && AllEnd(tasks, joined, outcome)
  {
    var ids := ReadyTaskIds(tasks);
    forall id | id in ids
      ensures FirstIndex(tasks, id) < |tasks|
    {
      SelectReadyMembers(tasks, |tasks|, id);
    }
    joined := EndEvery(tasks, ids, outcome);
    assert JoinedIds(joined) == ids;
    forall j | j in joined
      ensures CompletesFirst(tasks, j)
    {
      var k :| 0 <= k < |joined| && joined[k] == j;
      assert IsRunOf(tasks[FirstIndex(tasks, ids[k])], j);
    }
  }

  lemma AcceptEveryIsCompletion(tasks: Tasks) returns (joined: seq<Joined>)
    ensures IsCompletion(tasks, joined)
    ensures forall j :: j in joined ==> j.Finished? && j.result.accepted
  {
    joined := EndEveryIsCompletion(tasks, ReviewAccepted);
  }

  // While every run is accepted, no task is anything but waiting or accepted, and a task
  // behind a first one with the same id only ever waits.
  predicate AllGoesWell(tasks: Tasks) {
    forall i :: 0 <= i < |tasks| ==>
      && (tasks[i].state.Pending? || tasks[i].state.Ready? || tasks[i].state.Accepted?)
      && (IsShadow(tasks, i) ==> !tasks[i].state.Accepted?)
  }

  function AcceptedAt(tasks: Tasks, ids: seq<string>, i: nat): TaskState
    requires i < |tasks|
  {
    if FirstIndex(tasks, tasks[i].id) == i && tasks[i].id in ids then Accepted else tasks[i].state
  }

  lemma AcceptOneAt(tasks: Tasks, j: Joined, limits: Limits, i: nat)
    requires i < |tasks| && j.Finished? && j.result.accepted
    ensures |FoldOne(tasks, j, limits)| == |tasks|
    ensures FoldOne(tasks, j, limits)[i].state ==
      if FirstIndex(tasks, j.TaskId()) == i then Accepted else tasks[i].state
  {
  }

  lemma JoinedIdsLast(joined: seq<Joined>, id: string)
    requires joined != []
    ensures var n := |joined| - 1;
      id in JoinedIds(joined) <==> id in JoinedIds(joined[..n]) || id == joined[n].TaskId()
  {
    var n := |joined| - 1;
    assert JoinedIds(joined) == JoinedIds(joined[..n]) + [joined[n].TaskId()];
  }

  lemma {:induction false} FoldAcceptedAt(tasks: Tasks, joined: seq<Joined>, limits: Limits, i: nat)
    requires i < |tasks|
    requires forall j :: j in joined ==> j.Finished? && j.result.accepted
    ensures |FoldAll(tasks, joined, limits)| == |tasks|
    ensures FoldAll(tasks, joined, limits)[i].state == AcceptedAt(tasks, JoinedIds(joined), i)
  {
    if joined != [] {
      var n := |joined| - 1;
      var before, j := FoldAll(tasks, joined[..n], limits), joined[n];
      FoldKeepsShape(tasks, joined[..n], limits);
      FoldAcceptedAt(tasks, joined[..n], limits, i);
      FirstIndexByShape(tasks, before, j.TaskId());
      AcceptOneAt(before, j, limits, i);
      JoinedIdsLast(joined, tasks[i].id);
    }
  }

  lemma AcceptingAt(tasks: Tasks, joined: seq<Joined>, limits: Limits, k: nat)
    requires IsCompletion(tasks, joined) && k < |tasks|
    requires forall j :: j in joined ==> j.Finished? && j.result.accepted
    ensures |Folded(tasks, joined, limits)| == |tasks|
    ensures Folded(tasks, joined, limits)[k].state == AcceptedAt(tasks, ReadyTaskIds(tasks), k)
  {
    var ids := ReadyTaskIds(tasks);
    var started := StartAll(tasks, ids);
    StartKeepsShape(tasks, ids);
    SameMultisetSameElements(JoinedIds(joined), ids);
    StartAllAt(tasks, ids, k);
    FoldAcceptedAt(started, joined, limits, k);
    FirstIndexByShape(tasks, started, tasks[k].id);
  }

  lemma AcceptingKeepsGoingWell(tasks: Tasks, joined: seq<Joined>, limits: Limits)
    requires AllGoesWell(tasks) && IsCompletion(tasks, joined)
    requires forall j :: j in joined ==> j.Finished? && j.result.accepted
    ensures AllGoesWell(Batch(tasks, joined, limits))
  {
    var after := Batch(tasks, joined, limits);
    FoldedKeepsShape(tasks, joined, limits);
    forall k | 0 <= k < |after|
      ensures after[k].state.Pending? || after[k].state.Ready? || after[k].state.Accepted?
      ensures IsShadow(after, k) ==> !after[k].state.Accepted?
    {
      AcceptingAt(tasks, joined, limits, k);
      FirstIndexByShape(tasks, after, tasks[k].id);
    }
  }

  // As long as all goes well, a startable duplicate keeps something ready.
  lemma DuplicateKeepsLoopBusy(tasks: Tasks, i: nat)
    requires AllGoesWell(tasks) && i < |tasks| && IsShadow(tasks, i) && Startable(tasks, i)
    ensures ReadyTaskIds(tasks) != []
  {
    var g := LookupGraph(tasks);
    if ReadyTaskIds(tasks) == [] {
      WaitingFindsHopeless(g, tasks, i);
    }
  }

  lemma StartableByShape(a: Tasks, b: Tasks, i: nat)
    requires SameShape(a, b) && i < |a| && IsShadow(a, i) && Startable(a, i)
    ensures IsShadow(b, i) && Startable(b, i)
  {
    LookupByShape(a, b);
    FirstIndexByShape(a, b, a[i].id);
    forall r | Needs(LookupGraph(b), b[i].dependencies, r)
      ensures Unique(b, r) && !Reach(LookupGraph(b), r, r)
    {
      assert Needs(LookupGraph(a), a[i].dependencies, r);
      UniqueByShape(a, b, r);
    }
  }

  lemma OneMoreAcceptedBatch(tasks: Tasks, init: Script, limits: Limits, i: nat) returns (script: Script)
    requires i < |tasks| && IsShadow(tasks, i) && Startable(tasks, i)
    requires IsScript(tasks, init, limits) && AllGoesWell(StateAfter(tasks, init, limits))
    ensures |script| == |init| + 1 && IsScript(tasks, script, limits)
    ensures AllGoesWell(StateAfter(tasks, script, limits))
  {
    var before := StateAfter(tasks, init, limits);
    RunKeepsShape(tasks, init, limits);
    StartableByShape(tasks, before, i);
    DuplicateKeepsLoopBusy(before, i);
    var joined := AcceptEveryIsCompletion(before);
    AcceptingKeepsGoingWell(before, joined, limits);
    script := init + [joined];
    assert script[..|init|] == init;
  }

  lemma {:induction false} DuplicateRunsForever(tasks: Tasks, limits: Limits, i: nat, n: nat) returns (script: Script)
    requires Fresh(tasks) && i < |tasks| && IsShadow(tasks, i) && Startable(tasks, i)
    ensures |script| == n && IsScript(tasks, script, limits)
    ensures AllGoesWell(StateAfter(tasks, script, limits))
    decreases n
  {
    script := [];
    if n > 0 {
      var init := DuplicateRunsForever(tasks, limits, i, n - 1);
      script := OneMoreAcceptedBatch(tasks, init, limits, i);
    }
  }

  // The loop stops on every run: there is a number of batches that no run exceeds.
  ghost predicate AlwaysStops(tasks: Tasks, limits: Limits) {
    exists bound: nat :: BoundsRuns(tasks, limits, bound)
  }

  ghost predicate BoundsRuns(tasks: Tasks, limits: Limits, bound: nat) {
    forall script :: IsScript(tasks, script, limits) ==> |script| <= bound
  }

  // The exact condition under which the loop stops on a fresh plan. Repeated ids matter only
  // when a later holder of an id could one day be found ready.
  lemma LoopStopsIff(tasks: Tasks, limits: Limits)
    requires Fresh(tasks)
    ensures AlwaysStops(tasks, limits) <==> NoStartableDuplicates(tasks)
  {
    if NoStartableDuplicates(tasks) {
      forall script | IsScript(tasks, script, limits)
        ensures |script| <= |tasks| * (limits.maxReviewLoops + 1)
      {
        BatchBound(tasks, script, limits);
      }
      assert BoundsRuns(tasks, limits, |tasks| * (limits.maxReviewLoops + 1));
    }
    if AlwaysStops(tasks, limits) {
      var bound: nat :| BoundsRuns(tasks, limits, bound);
      forall i | 0 <= i < |tasks| && IsShadow(tasks, i)
        ensures !Startable(tasks, i)
      {
        if Startable(tasks, i) {
          var script := DuplicateRunsForever(tasks, limits, i, bound + 1);
        }
      }
    }
  }

  // Two tasks without dependencies under one id are enough to keep the loop going for ever.
  lemma RepeatedIdNeverStops(limits: Limits)
    ensures var t := PlanTask("a", [], 1, Ready, 0, 0);
            Fresh([t, t]) && !UniqueIds([t, t]) && !AlwaysStops([t, t], limits)
  {
    var t := PlanTask("a", [], 1, Ready, 0, 0);
    var tasks := [t, t];
    assert FirstIndex(tasks, "a") == 0;
    assert !(tasks[0].id != tasks[1].id);
    assert IsShadow(tasks, 1) && Startable(tasks, 1);
    LoopStopsIff(tasks, limits);
  }
}
