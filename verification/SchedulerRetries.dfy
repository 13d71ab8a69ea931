/** What one batch makes of a task, said without the retry rule itself, and how often tasks that
    never succeed are dispatched. */
module SchedulerRetries {
  import opened Dag
  import opened Plans
  import opened Scheduler
  import opened SchedulerRuns
  import opened SchedulerTermination
  import opened Text

  // ---------- one run ----------

  // Only a review acceptance accepts; a run without a subagent reports the attempts it was given,
  // any other finished run one more.
  lemma RunReport(t: PlanTask, outcome: RunOutcome)
    ensures var j := RunOneTask(t, outcome);
      && j.TaskId() == t.id
      && (j.JoinError? <==> outcome == Panicked)
      && (j.Finished? ==> (j.result.accepted <==> outcome == ReviewAccepted))
      && (j.Finished? && outcome == NoSubagent ==> j.result.attempts == t.attempts)
      && (j.Finished? && outcome != NoSubagent && t.attempts < U32_MAX ==> j.result.attempts == t.attempts + 1)
      && (j.Finished? && t.attempts == U32_MAX ==> j.result.attempts == U32_MAX)
  {
  }

  // ---------- one batch ----------

  // What a task looks like after the batch in which run j was its own.
  predicate IsVerdict(t: PlanTask, j: Joined, limits: Limits, after: PlanTask) {
    && after.id == t.id && after.dependencies == t.dependencies && after.depth == t.depth
    && (j.JoinError? ==> after.state == Running && after.attempts == t.attempts && after.reviewLoops == t.reviewLoops)
    && (j.Finished? ==> after.attempts == j.result.attempts)
    && (j.Finished? && j.result.accepted ==> after.state == Accepted && after.reviewLoops == t.reviewLoops)
    && (j.Finished? && !j.result.accepted ==>
          if j.result.attempts <= limits.maxRetries && t.reviewLoops < limits.maxReviewLoops
          then after.state == Ready && after.reviewLoops == t.reviewLoops + 1
          else after.state == Failed && after.reviewLoops == t.reviewLoops)
  }

  lemma OwnRun(tasks: Tasks, joined: seq<Joined>, limits: Limits, i: nat, j: Joined)
    requires OnlyFirstsReady(tasks) && IsCompletion(tasks, joined) && i < |tasks| && IsReady(tasks, tasks[i])
    requires j in joined && j.TaskId() == tasks[i].id
    ensures |Folded(tasks, joined, limits)| == |tasks|
    ensures Folded(tasks, joined, limits)[i] == Settle(tasks[i].(state := Running), j, limits)
  {
    var ids := ReadyTaskIds(tasks);
    var started := StartAll(tasks, ids);
    FoldedKeepsShape(tasks, joined, limits);
    StartKeepsShape(tasks, ids);
    StartAllAt(tasks, ids, i);
    ReadyIdMeansReadyTask(tasks, i);
    CompletionIdsDoNotRepeat(tasks, joined);
    FoldAllAt(started, joined, limits, i);
    FirstIndexByShape(tasks, started, tasks[i].id);
    OnlyRunWithId(joined, j);
  }

  lemma SatisfiedStaysFolded(tasks: Tasks, joined: seq<Joined>, limits: Limits, d: string)
    requires OnlyFirstsReady(tasks) && IsCompletion(tasks, joined) && Satisfied(tasks, d)
    ensures Satisfied(Folded(tasks, joined, limits), d)
  {
    var k := LastIndex(tasks, d);
    FoldedKeepsShape(tasks, joined, limits);
    var _ := FoldedAt(tasks, joined, limits, k);
    ByIdOfLast(Folded(tasks, joined, limits), k);
  }

  lemma SettledVerdict(t: PlanTask, j: Joined, limits: Limits, folded: Tasks)
    requires forall d :: d in t.dependencies ==> Satisfied(folded, d)
    ensures IsVerdict(t, j, limits, PromoteTask(folded, Settle(t.(state := Running), j, limits)))
  {
  }

  // A ready task ends its batch as its own run decides: accepted, left running by a join error, and
  // otherwise ready again with one more review loop if and only if both bounds allow it.
  lemma BatchVerdict(tasks: Tasks, joined: seq<Joined>, limits: Limits, i: nat, j: Joined)
    requires OnlyFirstsReady(tasks) && IsCompletion(tasks, joined) && i < |tasks| && IsReady(tasks, tasks[i])
    requires j in joined && j.TaskId() == tasks[i].id
    ensures |Batch(tasks, joined, limits)| == |tasks|
    ensures IsVerdict(tasks[i], j, limits, Batch(tasks, joined, limits)[i])
  {
    OwnRun(tasks, joined, limits, i, j);
    forall d | d in tasks[i].dependencies
      ensures Satisfied(Folded(tasks, joined, limits), d)
    {
      SatisfiedStaysFolded(tasks, joined, limits, d);
    }
    SettledVerdict(tasks[i], j, limits, Folded(tasks, joined, limits));
  }

  // All of a task's dependencies are satisfied.
  predicate AllSatisfied(tasks: Tasks, deps: seq<string>) {
    forall d :: d in deps ==> Satisfied(tasks, d)
  }

  // A task that was not ready changes in one way only: still waiting for its turn, it becomes Ready
  // exactly when its dependencies are satisfied after the batch.
  lemma BatchPromotes(tasks: Tasks, joined: seq<Joined>, limits: Limits, i: nat)
    requires OnlyFirstsReady(tasks) && IsCompletion(tasks, joined) && i < |tasks| && !IsReady(tasks, tasks[i])
    ensures var after := Batch(tasks, joined, limits);
      && |after| == |tasks|
      && after[i] == if tasks[i].state in {Pending, Retrying} && AllSatisfied(after, tasks[i].dependencies)
                     then tasks[i].(state := Ready) else tasks[i]
  {
    var folded := Folded(tasks, joined, limits);
    var _ := FoldedAt(tasks, joined, limits, i);
    PromotionKeepsDone(folded);
    forall d
      ensures Satisfied(Promote(folded), d) <==> Satisfied(folded, d)
    {
      SatisfiedByShape(folded, Promote(folded), d);
    }
  }

  // ---------- runs that all end alike ----------

  // Every run of the script ends in this way.
  predicate AllRunsEnd(tasks: Tasks, script: Script, limits: Limits, outcome: RunOutcome) {
    script == [] ||
    var init := script[..|script| - 1];
    && AllRunsEnd(tasks, init, limits, outcome)
    && AllEnd(StateAfter(tasks, init, limits), script[|script| - 1], outcome)
  }

  // How many review loops a task gets when its runs all end in this way.
  function LastLoop(limits: Limits, outcome: RunOutcome): nat {
    if outcome == NoSubagent || limits.maxReviewLoops < limits.maxRetries then limits.maxReviewLoops
    else limits.maxRetries
  }

  // A task after d dispatches, none of them successful.
  predicate Unsuccessful(t: PlanTask, d: nat, limits: Limits, outcome: RunOutcome) {
    && t.dependencies == []
    && t.attempts == (if outcome == NoSubagent then 0 else d)
    && (if t.state.Failed? then d == LastLoop(limits, outcome) + 1
        else Schedulable(t.state) && t.reviewLoops == d <= LastLoop(limits, outcome))
  }

  predicate IsFailing(outcome: RunOutcome) {
    outcome.ReviewRejected? || outcome.TaskError? || outcome.NoSubagent?
  }

  lemma UnsuccessfulVerdict(t: PlanTask, d: nat, limits: Limits, outcome: RunOutcome, after: PlanTask)
    requires IsFailing(outcome) && LastLoop(limits, outcome) < U32_MAX
    requires Unsuccessful(t, d, limits, outcome) && Schedulable(t.state)
    requires IsVerdict(t, RunOneTask(t, outcome), limits, after)
    ensures Unsuccessful(after, d + 1, limits, outcome)
  {
    RunReport(t, outcome);
  }

  lemma OwnRunIsThere(tasks: Tasks, joined: seq<Joined>, i: nat, outcome: RunOutcome)
    requires OnlyFirstsReady(tasks) && IsCompletion(tasks, joined) && i < |tasks| && IsReady(tasks, tasks[i])
    requires AllEnd(tasks, joined, outcome)
    ensures RunOneTask(tasks[i], outcome) in joined && RunOneTask(tasks[i], outcome).TaskId() == tasks[i].id
  {
    ReadyIdMeansReadyTask(tasks, i);
    SameMultisetSameElements(JoinedIds(joined), ReadyTaskIds(tasks));
    var k :| 0 <= k < |joined| && JoinedIds(joined)[k] == tasks[i].id;
    assert joined[k] in joined;
    RunReport(tasks[i], outcome);
  }

  lemma UnsuccessfulBatch(tasks: Tasks, joined: seq<Joined>, limits: Limits, i: nat, d: nat, outcome: RunOutcome)
    requires OnlyFirstsReady(tasks) && IsCompletion(tasks, joined) && i < |tasks| && AllEnd(tasks, joined, outcome)
    requires IsFailing(outcome) && LastLoop(limits, outcome) < U32_MAX
    requires Unsuccessful(tasks[i], d, limits, outcome)
    ensures |Batch(tasks, joined, limits)| == |tasks|
    ensures Unsuccessful(Batch(tasks, joined, limits)[i], if IsReady(tasks, tasks[i]) then d + 1 else d, limits,
                         outcome)
  {
    if IsReady(tasks, tasks[i]) {
      OwnRunIsThere(tasks, joined, i, outcome);
      BatchVerdict(tasks, joined, limits, i, RunOneTask(tasks[i], outcome));
      UnsuccessfulVerdict(tasks[i], d, limits, outcome, Batch(tasks, joined, limits)[i]);
    } else {
      BatchPromotes(tasks, joined, limits, i);
    }
  }

  predicate UnsuccessfulSoFar(tasks: Tasks, script: Script, limits: Limits, i: nat, outcome: RunOutcome) {
    && i < |StateAfter(tasks, script, limits)|
    && Unsuccessful(StateAfter(tasks, script, limits)[i], Dispatches(tasks, script, limits, i), limits, outcome)
  }

  lemma UnsuccessfulNext(tasks: Tasks, script: Script, limits: Limits, i: nat, outcome: RunOutcome)
    requires Fresh(tasks) && UniqueIds(tasks) && IsScript(tasks, script, limits) && script != []
    requires AllRunsEnd(tasks, script, limits, outcome)
    requires IsFailing(outcome) && LastLoop(limits, outcome) < U32_MAX
    requires UnsuccessfulSoFar(tasks, script[..|script| - 1], limits, i, outcome)
    ensures UnsuccessfulSoFar(tasks, script, limits, i, outcome)
  {
    var n := |script| - 1;
    UniqueIdsHaveNoShadows(tasks);
    RunKeepsInvariant(tasks, script[..n], limits);
    UnsuccessfulBatch(StateAfter(tasks, script[..n], limits), script[n], limits, i,
                      Dispatches(tasks, script[..n], limits, i), outcome);
  }

  lemma {:induction false} UnsuccessfulRun(tasks: Tasks, script: Script, limits: Limits, i: nat, outcome: RunOutcome)
    requires Fresh(tasks) && UniqueIds(tasks) && IsScript(tasks, script, limits)
    requires AllRunsEnd(tasks, script, limits, outcome)
    requires IsFailing(outcome) && LastLoop(limits, outcome) < U32_MAX
    requires i < |tasks| && tasks[i].dependencies == []
    ensures UnsuccessfulSoFar(tasks, script, limits, i, outcome)
  {
    if script == [] {
      assert tasks[i] in tasks;
    } else {
      UnsuccessfulRun(tasks, script[..|script| - 1], limits, i, outcome);
      UnsuccessfulNext(tasks, script, limits, i, outcome);
    }
  }

  lemma NothingIndependentWaits(tasks: Tasks, i: nat)
    requires ReadyTaskIds(tasks) == [] && i < |tasks| && tasks[i].dependencies == []
    ensures !Schedulable(tasks[i].state)
  {
    SelectReadyMembers(tasks, |tasks|, tasks[i].id);
  }

  // The bounds are attained. A task without dependencies whose runs are all rejected, or all end in
  // an error, is dispatched exactly min(max_retries, max_review_loops) + 1 times and ends failed with
  // that many attempts; one that never gets a subagent is dispatched exactly max_review_loops + 1
  // times and ends failed without an attempt.
  lemma RetriesAreUsedUp(tasks: Tasks, script: Script, limits: Limits, i: nat, outcome: RunOutcome)
    requires Fresh(tasks) && UniqueIds(tasks) && IsFinalScript(tasks, script, limits)
    requires AllRunsEnd(tasks, script, limits, outcome) && i < |tasks| && tasks[i].dependencies == []
    requires IsFailing(outcome) && limits.maxRetries < U32_MAX && limits.maxReviewLoops < U32_MAX
    ensures var final := StateAfter(tasks, script, limits);
      var n := 1 + if outcome == NoSubagent then limits.maxReviewLoops
                   else if limits.maxRetries < limits.maxReviewLoops then limits.maxRetries
                   else limits.maxReviewLoops;
      && |final| == |tasks| && final[i].state == Failed
      && Dispatches(tasks, script, limits, i) == n
      && final[i].attempts == (if outcome == NoSubagent then 0 else n)
  {
    UnsuccessfulRun(tasks, script, limits, i, outcome);
    RunKeepsShape(tasks, script, limits);
    NothingIndependentWaits(StateAfter(tasks, script, limits), i);
  }

  // ---------- there are such runs ----------

  lemma {:induction false} UniformRun(tasks: Tasks, limits: Limits, outcome: RunOutcome, bound: nat)
      returns (script: Script)
    ensures IsScript(tasks, script, limits) && AllRunsEnd(tasks, script, limits, outcome)
    ensures |script| == bound || IsFinalScript(tasks, script, limits)
  {
    script := [];
    if bound > 0 {
      script := UniformRun(tasks, limits, outcome, bound - 1);
      var before := StateAfter(tasks, script, limits);
      if ReadyTaskIds(before) != [] {
        var joined := EndEveryIsCompletion(before, outcome);
        assert (script + [joined])[..|script|] == script;
        script := script + [joined];
      }
    }
  }

  // For every outcome some run ends with all its runs ending in that way.
  lemma UniformRunEnds(tasks: Tasks, limits: Limits, outcome: RunOutcome) returns (script: Script)
    requires Fresh(tasks) && UniqueIds(tasks)
    ensures IsFinalScript(tasks, script, limits) && AllRunsEnd(tasks, script, limits, outcome)
  {
    UniqueIdsHaveNoShadows(tasks);
    var bound := |tasks| * (limits.maxReviewLoops + 1);
    script := UniformRun(tasks, limits, outcome, bound + 1);
    BatchBound(tasks, script, limits);
  }
}
