/** execute_plan_parallel itself, working on the plan in place. */
module ParallelExecutor {
  import opened Dag
  import opened Plans
  import opened Scheduler
  import opened SchedulerRuns
  import opened SchedulerTermination

  // The clones handed to the spawned runs, in dispatch order.
  function Clones(tasks: Tasks, ids: seq<string>): seq<PlanTask> {
    if ids == [] then []
    else
      var init, id := ids[..|ids| - 1], ids[|ids| - 1];
      var started := StartAll(tasks, init);
      var i := FirstIndex(started, id);
      Clones(tasks, init) + (if i == |started| then [] else [started[i]])
  }

  predicate IsRunOfOne(clones: seq<PlanTask>, j: Joined) {
    exists c :: c in clones && c.id == j.TaskId() && IsRunOf(c, j)
  }

  class ExecutionPlan {
    var tasks: Tasks

    constructor (tasks: Tasks)
      ensures this.tasks == tasks
    {
      this.tasks := tasks;
    }

    method StartReady(ids: seq<string>) returns (clones: seq<PlanTask>)
      modifies this
      ensures tasks == StartAll(old(tasks), ids)
      ensures clones == Clones(old(tasks), ids)
    {
      clones := [];
      for k := 0 to |ids|
        invariant tasks == StartAll(old(tasks), ids[..k])
        invariant clones == Clones(old(tasks), ids[..k])
      {
        assert ids[..k + 1][..k] == ids[..k];
        var index := FirstIndex(tasks, ids[k]);
        if index == |tasks| {
          continue;
        }
        clones := clones + [tasks[index]];
        tasks := tasks[index := tasks[index].(state := Running)];
      }
      assert ids[..|ids|] == ids;
    }

    method ApplyResult(result: TaskResult, limits: Limits)
      modifies this
      ensures tasks == FoldOne(old(tasks), Finished(result), limits)
    {
      var index := FirstIndex(tasks, result.taskId);
      if index < |tasks| {
        var task := tasks[index].(attempts := result.attempts);
        if result.accepted {
          task := task.(state := Accepted);
        } else if task.attempts <= limits.maxRetries && task.reviewLoops < limits.maxReviewLoops {
          task := task.(state := Retrying, reviewLoops := SaturatingSucc(task.reviewLoops));
        } else {
          task := task.(state := Failed);
        }
        tasks := tasks[index := task];
      }
    }

    // Runs finish in any order and with any outcome.
    method JoinAll(clones: seq<PlanTask>, limits: Limits, before: map<string, TaskResult>)
        returns (results: map<string, TaskResult>, ghost joined: seq<Joined>)
      modifies this
      ensures tasks == FoldAll(old(tasks), joined, limits)
      ensures results == RecordAll(before, joined)
      ensures multiset(JoinedIds(joined)) == multiset(TaskIds(clones))
      ensures forall j :: j in joined ==> IsRunOfOne(clones, j)
    {
      results := before;
      joined := [];
      var running := clones;
      while running != []
        invariant tasks == FoldAll(old(tasks), joined, limits)
        invariant results == RecordAll(before, joined)
        invariant multiset(JoinedIds(joined)) + multiset(TaskIds(running)) == multiset(TaskIds(clones))
        invariant forall c :: c in running ==> c in clones
        invariant forall j :: j in joined ==> IsRunOfOne(clones, j)
        decreases |running|
      {
        var k :| 0 <= k < |running|;
        var outcome: RunOutcome := *;
        var next := RunOneTask(running[k], outcome);
        OutcomeIsRun(running[k], outcome);
        assert running[k] in clones;
        RemoveOne(running, k, joined, next);
        if next.Finished? {
          ApplyResult(next.result, limits);
          results := results[next.result.taskId := next.result];
        } else {
          assert FoldOne(tasks, next, limits) == tasks;
        }
        assert (joined + [next])[..|joined|] == joined;
        joined := joined + [next];
        running := running[..k] + running[k + 1..];
      }
    }

    method PromoteReady()
      modifies this
      ensures tasks == Promote(old(tasks))
    {
      var snapshot := tasks;
      for i := 0 to |tasks|
        invariant |tasks| == |snapshot|
        invariant forall k :: 0 <= k < |tasks| ==>
          tasks[k] == if k < i then PromoteTask(snapshot, snapshot[k]) else snapshot[k]
      {
        var task := tasks[i];
        if (task.state.Pending? || task.state.Retrying?) &&
           forall d :: d in task.dependencies ==> Satisfied(snapshot, d) {
          tasks := tasks[i := task.(state := Ready)];
        }
      }
    }

    method MarkIntegrated()
      modifies this
      ensures tasks == MarkCompleted(old(tasks))
    {
      ghost var was := tasks;
      for i := 0 to |tasks|
        invariant |tasks| == |was|
        invariant forall k :: 0 <= k < |tasks| ==>
          tasks[k] == if k < i then CompleteTask(was[k]) else was[k]
      {
        if EndsWith(tasks[i].id, INTEGRATION_SUFFIX) && tasks[i].state.Accepted? {
          tasks := tasks[i := tasks[i].(state := Completed)];
        }
      }
    }

    // The loop follows some script to its end. Its precondition is the exact condition under
    // which it stops at all (SchedulerTermination.LoopStopsIff).
    method ExecuteParallel(limits: Limits) returns (results: map<string, TaskResult>, ghost script: Script)
      requires Fresh(tasks) && NoStartableDuplicates(tasks)
      modifies this
      ensures IsFinalScript(old(tasks), script, limits)
      ensures tasks == MarkCompleted(StateAfter(old(tasks), script, limits))
      ensures results == ResultsOf(script)
    {
      results := map[];
      script := [];
      while true
        invariant IsScript(old(tasks), script, limits)
        invariant tasks == StateAfter(old(tasks), script, limits)
        invariant results == ResultsOf(script)
        decreases TotalBudget(tasks, limits)
      {
        var readyIds := ReadyTaskIds(tasks);
        if readyIds == [] {
          break;
        }
        var clones := StartReady(readyIds);
        ghost var joined;
        results, joined := JoinAll(clones, limits, results);
        PromoteReady();
        BatchExtendsScript(old(tasks), script, joined, limits);
        script := script + [joined];
      }
      MarkIntegrated();
    }
  }

  // Every run dispatched from this state has been joined.
  predicate AllJoined(before: Tasks, joined: seq<Joined>) {
    var clones := Clones(before, ReadyTaskIds(before));
    && multiset(JoinedIds(joined)) == multiset(TaskIds(clones))
    && forall j :: j in joined ==> IsRunOfOne(clones, j)
  }

  lemma ScriptSnoc(tasks: Tasks, script: Script, joined: seq<Joined>, limits: Limits)
    requires IsScript(tasks, script, limits)
    requires var before := StateAfter(tasks, script, limits);
             ReadyTaskIds(before) != [] && IsCompletion(before, joined)
    ensures IsScript(tasks, script + [joined], limits)
    ensures StateAfter(tasks, script + [joined], limits) == Batch(StateAfter(tasks, script, limits), joined, limits)
    ensures ResultsOf(script + [joined]) == RecordAll(ResultsOf(script), joined)
  {
    assert (script + [joined])[..|script|] == script;
  }

  lemma JoinedBatch(before: Tasks, joined: seq<Joined>, limits: Limits)
    requires OnlyFirstsReady(before) && ReadyTaskIds(before) != [] && AllJoined(before, joined)
    ensures IsCompletion(before, joined)
    ensures TotalBudget(Batch(before, joined, limits), limits) < TotalBudget(before, limits)
  {
    CompletedBatch(before, joined);
    BatchLowersTotal(before, joined, limits);
  }

  // One turn of the loop: the joined runs extend the script, and the budget falls.
  lemma BatchExtendsScript(tasks: Tasks, script: Script, joined: seq<Joined>, limits: Limits)
    requires Fresh(tasks) && NoStartableDuplicates(tasks) && IsScript(tasks, script, limits)
    requires var before := StateAfter(tasks, script, limits);
             ReadyTaskIds(before) != [] && AllJoined(before, joined)
    ensures var before, longer := StateAfter(tasks, script, limits), script + [joined];
            && IsScript(tasks, longer, limits)
            && StateAfter(tasks, longer, limits) == Batch(before, joined, limits)
            && ResultsOf(longer) == RecordAll(ResultsOf(script), joined)
            && TotalBudget(Batch(before, joined, limits), limits) < TotalBudget(before, limits)
  {
    RunKeepsInvariant(tasks, script, limits);
    JoinedBatch(StateAfter(tasks, script, limits), joined, limits);
    ScriptSnoc(tasks, script, joined, limits);
  }

  lemma OutcomeIsRun(t: PlanTask, outcome: RunOutcome)
    ensures IsRunOf(t, RunOneTask(t, outcome)) && RunOneTask(t, outcome).TaskId() == t.id
  {
  }

  lemma RemoveOne(running: seq<PlanTask>, k: nat, joined: seq<Joined>, next: Joined)
    requires k < |running| && next.TaskId() == running[k].id
    ensures multiset(JoinedIds(joined + [next])) + multiset(TaskIds(running[..k] + running[k + 1..]))
         == multiset(JoinedIds(joined)) + multiset(TaskIds(running))
    ensures forall c :: c in running[..k] + running[k + 1..] ==> c in running
  {
    assert JoinedIds(joined + [next]) == JoinedIds(joined) + [next.TaskId()];
    assert TaskIds(running[..k] + running[k + 1..]) == TaskIds(running[..k]) + TaskIds(running[k + 1..]);
    assert TaskIds(running) == TaskIds(running[..k]) + [running[k].id] + TaskIds(running[k + 1..]);
  }

  predicate Resembles(c: PlanTask, tasks: Tasks) {
    var i := FirstIndex(tasks, c.id);
    i < |tasks| && c.attempts == tasks[i].attempts
  }

  lemma CloneResembles(tasks: Tasks, ids: seq<string>, id: string)
    requires FirstIndex(tasks, id) < |tasks|
    ensures var started := StartAll(tasks, ids);
            var i := FirstIndex(started, id);
            i < |started| && started[i].id == id && Resembles(started[i], tasks)
  {
    StartKeepsShape(tasks, ids);
    FirstIndexByShape(tasks, StartAll(tasks, ids), id);
    StartAllAt(tasks, ids, FirstIndex(tasks, id));
  }

  // Every id gets its clone, which carries the attempts of the first task with the id.
  lemma {:induction false} ReadyClones(tasks: Tasks, ids: seq<string>)
    requires forall id :: id in ids ==> FirstIndex(tasks, id) < |tasks|
    ensures TaskIds(Clones(tasks, ids)) == ids
    ensures forall c :: c in Clones(tasks, ids) ==> Resembles(c, tasks)
  {
    if ids != [] {
      var n := |ids| - 1;
      ReadyClones(tasks, ids[..n]);
      CloneResembles(tasks, ids[..n], ids[n]);
      assert TaskIds(Clones(tasks, ids)) == TaskIds(Clones(tasks, ids[..n])) + [ids[n]];
    }
  }

  lemma SameRuns(a: PlanTask, b: PlanTask, j: Joined)
    requires a.id == b.id && a.attempts == b.attempts && IsRunOf(a, j)
    ensures IsRunOf(b, j)
  {
    var outcome :| j == RunOneTask(a, outcome);
    assert j == RunOneTask(b, outcome);
  }

  lemma CompletedBatch(tasks: Tasks, joined: seq<Joined>)
    requires multiset(JoinedIds(joined)) == multiset(TaskIds(Clones(tasks, ReadyTaskIds(tasks))))
    requires forall j :: j in joined ==> IsRunOfOne(Clones(tasks, ReadyTaskIds(tasks)), j)
    ensures IsCompletion(tasks, joined)
  {
    var ids := ReadyTaskIds(tasks);
    forall id | id in ids
      ensures FirstIndex(tasks, id) < |tasks|
    {
      SelectReadyMembers(tasks, |tasks|, id);
    }
    ReadyClones(tasks, ids);
    forall j | j in joined
      ensures CompletesFirst(tasks, j)
    {
      var c :| c in Clones(tasks, ids) && c.id == j.TaskId() && IsRunOf(c, j);
      SameRuns(c, tasks[FirstIndex(tasks, c.id)], j);
    }
  }
}
