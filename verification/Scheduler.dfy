/** The parallel plan executor: src/execution/scheduler.rs, with what one dispatched run
    reports back (src/execution/dispatcher.rs). What the model and the tools behind a run
    decide is left open: a run may end in any outcome, and runs may finish in any order. */
module Scheduler {
  import opened Dag
  import opened Options
  import opened Plans
  import opened Text

  datatype Limits = Limits(maxRetries: u32, maxReviewLoops: u32)

  // How one dispatched run ends. A panic surfaces as a join error.
  datatype RunOutcome = ReviewAccepted | ReviewRejected | TaskError | NoSubagent | Panicked

  datatype TaskResult = TaskResult(taskId: string, accepted: bool, attempts: u32)

  datatype Joined = Finished(result: TaskResult) | JoinError(task: string) {
    function TaskId(): string {
      if Finished? then result.taskId else task
    }
  }

  function SaturatingSucc(n: u32): u32 {
    if n == U32_MAX then n else n + 1
  }

  // run_one_task: only a run that obtained a subagent uses up an attempt.
  function RunOneTask(task: PlanTask, outcome: RunOutcome): Joined {
    match outcome
    case NoSubagent => Finished(TaskResult(task.id, false, task.attempts))
    case ReviewAccepted => Finished(TaskResult(task.id, true, SaturatingSucc(task.attempts)))
    case ReviewRejected => Finished(TaskResult(task.id, false, SaturatingSucc(task.attempts)))
    case TaskError => Finished(TaskResult(task.id, false, SaturatingSucc(task.attempts)))
    case Panicked => JoinError(task.id)
  }

  // ---------- one batch as a function ----------

  function Start(tasks: Tasks, id: string): Tasks {
    var i := FirstIndex(tasks, id);
    if i == |tasks| then tasks else tasks[i := tasks[i].(state := Running)]
  }

  function StartAll(tasks: Tasks, ids: seq<string>): Tasks {
    if ids == [] then tasks else Start(StartAll(tasks, ids[..|ids| - 1]), ids[|ids| - 1])
  }

  function Judge(t: PlanTask, r: TaskResult, limits: Limits): PlanTask {
    if r.accepted then
      t.(attempts := r.attempts, state := Accepted)
    else if r.attempts <= limits.maxRetries && t.reviewLoops < limits.maxReviewLoops then
      t.(attempts := r.attempts, state := Retrying, reviewLoops := SaturatingSucc(t.reviewLoops))
    else
      t.(attempts := r.attempts, state := Failed)
  }

  // What a finished run does to its task; a join error leaves the task as it is.
  function Settle(t: PlanTask, j: Joined, limits: Limits): PlanTask {
    if j.Finished? then Judge(t, j.result, limits) else t
  }

  function FoldOne(tasks: Tasks, j: Joined, limits: Limits): Tasks {
    var i := FirstIndex(tasks, j.TaskId());
    if i == |tasks| then tasks else tasks[i := Settle(tasks[i], j, limits)]
  }

  function FoldAll(tasks: Tasks, joined: seq<Joined>, limits: Limits): Tasks {
    if joined == [] then tasks
    else FoldOne(FoldAll(tasks, joined[..|joined| - 1], limits), joined[|joined| - 1], limits)
  }

  function PromoteTask(snapshot: Tasks, t: PlanTask): PlanTask {
    if (t.state.Pending? || t.state.Retrying?) && forall d :: d in t.dependencies ==> Satisfied(snapshot, d) then
      t.(state := Ready)
    else t
  }

  function Promote(tasks: Tasks): Tasks {
    seq(|tasks|, i requires 0 <= i < |tasks| => PromoteTask(tasks, tasks[i]))
  }

  function Batch(tasks: Tasks, joined: seq<Joined>, limits: Limits): Tasks {
    Promote(FoldAll(StartAll(tasks, ReadyTaskIds(tasks)), joined, limits))
  }

  function JoinedIds(joined: seq<Joined>): (ids: seq<string>)
    ensures |ids| == |joined|
    ensures forall i :: 0 <= i < |joined| ==> ids[i] == joined[i].TaskId()
  {
    seq(|joined|, i requires 0 <= i < |joined| => joined[i].TaskId())
  }

  predicate IsRunOf(t: PlanTask, j: Joined) {
    exists outcome :: j == RunOneTask(t, outcome)
  }

  // The runs a batch can end with: one for every ready id, in any order and with any outcome.
  predicate IsCompletion(tasks: Tasks, joined: seq<Joined>) {
    && multiset(JoinedIds(joined)) == multiset(ReadyTaskIds(tasks))
    && forall j :: j in joined ==> CompletesFirst(tasks, j)
  }

  predicate CompletesFirst(tasks: Tasks, j: Joined) {
    var i := FirstIndex(tasks, j.TaskId());
    i < |tasks| && IsRunOf(tasks[i], j)
  }

  // ---------- whole runs ----------

  // A script lists, batch by batch, the runs in the order in which they finished.
  type Script = seq<seq<Joined>>

  function StateAfter(tasks: Tasks, script: Script, limits: Limits): Tasks {
    if script == [] then tasks
    else Batch(StateAfter(tasks, script[..|script| - 1], limits), script[|script| - 1], limits)
  }

  // The scripts the loop can follow: it goes on only while some task is ready.
  predicate IsScript(tasks: Tasks, script: Script, limits: Limits) {
    if script == [] then true
    else
      var init := script[..|script| - 1];
      var before := StateAfter(tasks, init, limits);
      && IsScript(tasks, init, limits)
      && ReadyTaskIds(before) != []
      && IsCompletion(before, script[|script| - 1])
  }

  // The loop has stopped: nothing is ready any more.
  predicate IsFinalScript(tasks: Tasks, script: Script, limits: Limits) {
    IsScript(tasks, script, limits) && ReadyTaskIds(StateAfter(tasks, script, limits)) == []
  }

  function Record(results: map<string, TaskResult>, j: Joined): map<string, TaskResult> {
    if j.Finished? then results[j.result.taskId := j.result] else results
  }

  function RecordAll(results: map<string, TaskResult>, joined: seq<Joined>): map<string, TaskResult> {
    if joined == [] then results
    else Record(RecordAll(results, joined[..|joined| - 1]), joined[|joined| - 1])
  }

  function ResultsOf(script: Script): map<string, TaskResult> {
    if script == [] then map[]
    else RecordAll(ResultsOf(script[..|script| - 1]), script[|script| - 1])
  }

  const INTEGRATION_SUFFIX := ":task-integrate"

  predicate EndsWith(s: string, suffix: string) {
    |s| >= |suffix| && s[|s| - |suffix|..] == suffix
  }

  function CompleteTask(t: PlanTask): PlanTask {
    if EndsWith(t.id, INTEGRATION_SUFFIX) && t.state.Accepted? then t.(state := Completed) else t
  }

  function MarkCompleted(tasks: Tasks): Tasks {
    seq(|tasks|, i requires 0 <= i < |tasks| => CompleteTask(tasks[i]))
  }

  // ---------- the effect of a batch, task by task ----------

  lemma {:induction false} StartKeepsShape(tasks: Tasks, ids: seq<string>)
    ensures SameShape(tasks, StartAll(tasks, ids))
  {
    if ids != [] {
      StartKeepsShape(tasks, ids[..|ids| - 1]);
    }
  }

  lemma {:induction false} FoldKeepsShape(tasks: Tasks, joined: seq<Joined>, limits: Limits)
    ensures SameShape(tasks, FoldAll(tasks, joined, limits))
  {
    if joined != [] {
      FoldKeepsShape(tasks, joined[..|joined| - 1], limits);
    }
  }

  lemma StartAt(tasks: Tasks, id: string, i: nat)
    requires i < |tasks|
    ensures |Start(tasks, id)| == |tasks|
    ensures Start(tasks, id)[i] ==
      if FirstIndex(tasks, id) == i then tasks[i].(state := Running) else tasks[i]
  {
  }

  lemma {:induction false} StartAllAt(tasks: Tasks, ids: seq<string>, i: nat)
    requires i < |tasks|
    ensures |StartAll(tasks, ids)| == |tasks|
    ensures StartAll(tasks, ids)[i] ==
      if FirstIndex(tasks, tasks[i].id) == i && tasks[i].id in ids
      then tasks[i].(state := Running) else tasks[i]
  {
    if ids != [] {
      var n := |ids| - 1;
      var before := StartAll(tasks, ids[..n]);
      StartKeepsShape(tasks, ids[..n]);
      StartAllAt(tasks, ids[..n], i);
      FirstIndexByShape(tasks, before, ids[n]);
      StartAt(before, ids[n], i);
      assert tasks[i].id in ids <==> tasks[i].id in ids[..n] || tasks[i].id == ids[n];
    }
  }

  // The last run in the list that carries the id.
  function RunFor(joined: seq<Joined>, id: string): Option<Joined> {
    if joined == [] then None
    else if joined[|joined| - 1].TaskId() == id then Some(joined[|joined| - 1])
    else RunFor(joined[..|joined| - 1], id)
  }

  lemma {:induction false} RunForFinds(joined: seq<Joined>, id: string)
    ensures RunFor(joined, id).Some? <==> id in JoinedIds(joined)
    ensures RunFor(joined, id).Some? ==> RunFor(joined, id).value in joined && RunFor(joined, id).value.TaskId() == id
  {
    if joined != [] {
      var n := |joined| - 1;
      RunForFinds(joined[..n], id);
      assert JoinedIds(joined) == JoinedIds(joined[..n]) + [joined[n].TaskId()];
    }
  }

  lemma LastRunIsNew(joined: seq<Joined>)
    requires joined != [] && NoRepeats(JoinedIds(joined))
    ensures NoRepeats(JoinedIds(joined[..|joined| - 1]))
    ensures RunFor(joined[..|joined| - 1], joined[|joined| - 1].TaskId()).None?
  {
    var n := |joined| - 1;
    var ids := JoinedIds(joined);
    assert JoinedIds(joined[..n]) == ids[..n];
    assert forall i :: 0 <= i < n ==> ids[..n][i] == ids[i];
    RunForFinds(joined[..n], joined[n].TaskId());
  }

  function SettleAt(tasks: Tasks, joined: seq<Joined>, limits: Limits, i: nat): PlanTask
    requires i < |tasks|
  {
    var run := RunFor(joined, tasks[i].id);
    if FirstIndex(tasks, tasks[i].id) == i && run.Some? then Settle(tasks[i], run.value, limits)
    else tasks[i]
  }

  lemma {:induction false} FoldAllAt(tasks: Tasks, joined: seq<Joined>, limits: Limits, i: nat)
    requires i < |tasks| && NoRepeats(JoinedIds(joined))
    ensures |FoldAll(tasks, joined, limits)| == |tasks|
    ensures FoldAll(tasks, joined, limits)[i] == SettleAt(tasks, joined, limits, i)
  {
    FoldKeepsShape(tasks, joined, limits);
    if joined != [] {
      var n := |joined| - 1;
      var init := joined[..n];
      LastRunIsNew(joined);
      FoldKeepsShape(tasks, init, limits);
      FoldAllAt(tasks, init, limits, i);
      FirstIndexByShape(tasks, FoldAll(tasks, init, limits), joined[n].TaskId());
    }
  }
}
