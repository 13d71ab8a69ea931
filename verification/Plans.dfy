/** Execution plans: tasks, their states, and the lookups the planner and the scheduler make. */
module Plans {
  import opened Graphs

  const U32_MAX: nat := 0xFFFF_FFFF

  type u32 = n: nat | n <= U32_MAX

  datatype TaskState =
    | Pending | Ready | Assigned | Running | Blocked | WaitingReview
    | Accepted | Rejected | Retrying | Completed | Failed | Cancelled

  datatype PlanTask = PlanTask(
    id: string,
    dependencies: seq<string>,
    depth: nat,
    state: TaskState,
    attempts: u32,
    reviewLoops: u32
  )

  type Tasks = seq<PlanTask>

  function IdSet(tasks: Tasks): set<string> {
    set t | t in tasks :: t.id
  }

  function TaskIds(tasks: Tasks): (ids: seq<string>)
    ensures |ids| == |tasks|
    ensures forall i :: 0 <= i < |tasks| ==> ids[i] == tasks[i].id
  {
    seq(|tasks|, i requires 0 <= i < |tasks| => tasks[i].id)
  }

  predicate UniqueIds(tasks: Tasks) {
    forall i, j :: 0 <= i < j < |tasks| ==> tasks[i].id != tasks[j].id
  }

  // A task list collected into a hash map: of several tasks with one id the last stays.
  function ById(tasks: Tasks): (m: map<string, PlanTask>)
    ensures m.Keys == IdSet(tasks)
    ensures forall id :: id in m ==> m[id] in tasks && m[id].id == id
  {
    if tasks == [] then map[]
    else
      var n := |tasks| - 1;
      assert tasks == tasks[..n] + [tasks[n]];
      ById(tasks[..n])[tasks[n].id := tasks[n]]
  }

  // The position `iter().position(|t| t.id == id)` finds: the first task with the id.
  function FirstIndex(tasks: Tasks, id: string): (i: nat)
    ensures i <= |tasks|
    ensures i < |tasks| ==> tasks[i].id == id
    ensures forall j :: 0 <= j < i ==> tasks[j].id != id
  {
    if tasks == [] then 0
    else if tasks[0].id == id then 0
    else 1 + FirstIndex(tasks[1..], id)
  }

  predicate Schedulable(s: TaskState) {
    s.Pending? || s.Ready? || s.Retrying?
  }

  predicate Done(s: TaskState) {
    s.Accepted? || s.Completed?
  }

  predicate Satisfied(tasks: Tasks, id: string) {
    var m := ById(tasks);
    id in m && Done(m[id].state)
  }

  predicate IsReady(tasks: Tasks, t: PlanTask) {
    Schedulable(t.state) && forall d :: d in t.dependencies ==> Satisfied(tasks, d)
  }

  // The dependency lists as `reachable_dependencies` reads them, unknown ids included.
  function LookupGraph(tasks: Tasks): Graph {
    map id | id in ById(tasks) :: ById(tasks)[id].dependencies
  }

  lemma {:induction false} ByIdOfUnique(tasks: Tasks, i: nat)
    requires UniqueIds(tasks) && i < |tasks|
    ensures tasks[i].id in ById(tasks) && ById(tasks)[tasks[i].id] == tasks[i]
    ensures FirstIndex(tasks, tasks[i].id) == i
  {
    var j :| 0 <= j < |tasks| && tasks[j] == ById(tasks)[tasks[i].id];
  }

  // The last task with an id is the one the hash map holds.
  lemma {:induction false} ByIdOfLast(tasks: Tasks, i: nat)
    requires i < |tasks|
    requires forall j :: i < j < |tasks| ==> tasks[j].id != tasks[i].id
    ensures tasks[i].id in ById(tasks) && ById(tasks)[tasks[i].id] == tasks[i]
  {
    var n := |tasks| - 1;
    if i < n {
      ByIdOfLast(tasks[..n], i);
      assert tasks[n].id != tasks[i].id;
    }
  }

  lemma {:induction false} LastIndex(tasks: Tasks, id: string) returns (k: nat)
    requires id in IdSet(tasks)
    ensures k < |tasks| && tasks[k].id == id && ById(tasks)[id] == tasks[k]
    ensures forall j :: k < j < |tasks| ==> tasks[j].id != id
  {
    k := |tasks| - 1;
    if tasks[k].id != id {
      assert tasks == tasks[..k] + [tasks[k]];
      k := LastIndex(tasks[..k], id);
    }
    ByIdOfLast(tasks, k);
  }

  // Exactly one task carries the id.
  ghost predicate Unique(tasks: Tasks, id: string) {
    exists k :: 0 <= k < |tasks| && tasks[k].id == id && forall j :: 0 <= j < |tasks| && j != k ==> tasks[j].id != id
  }

  // Ids and dependencies agree position by position.
  predicate SameShape(a: Tasks, b: Tasks) {
    && |a| == |b|
    && forall i :: 0 <= i < |a| ==> a[i].id == b[i].id && a[i].dependencies == b[i].dependencies
  }

  lemma {:induction false} FirstIndexByShape(a: Tasks, b: Tasks, id: string)
    requires SameShape(a, b)
    ensures FirstIndex(a, id) == FirstIndex(b, id)
  {
    if a != [] && a[0].id != id {
      FirstIndexByShape(a[1..], b[1..], id);
    }
  }

  lemma LookupByShape(a: Tasks, b: Tasks)
    requires SameShape(a, b)
    ensures LookupGraph(a) == LookupGraph(b)
  {
    assert IdSet(a) == IdSet(b) by {
      forall id
        ensures id in IdSet(a) <==> id in IdSet(b)
      {
        FirstIndexByShape(a, b, id);
      }
    }
    forall id | id in IdSet(a)
      ensures LookupGraph(a)[id] == LookupGraph(b)[id]
    {
      var k := LastIndex(a, id);
      ByIdOfLast(b, k);
    }
  }

  lemma UniqueByShape(a: Tasks, b: Tasks, id: string)
    requires SameShape(a, b)
    ensures Unique(a, id) <==> Unique(b, id)
  {
  }
}
