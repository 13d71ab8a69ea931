/** Safety of whole scheduler runs: what every reachable plan state satisfies. */
module SchedulerRuns {
  import opened Dag
  import opened Graphs
  import opened Options
  import opened Plans
  import opened Scheduler
  import opened Text

  // ---------- one batch, task by task ----------

  predicate IsShadow(tasks: Tasks, i: nat)
    requires i < |tasks|
  {
    FirstIndex(tasks, tasks[i].id) != i
  }

  ghost predicate OnlyFirstsReady(tasks: Tasks) {
    forall i :: 0 <= i < |tasks| && IsReady(tasks, tasks[i]) ==> !IsShadow(tasks, i)
  }

  // The plan after a batch's runs have been folded in and before the promotion to Ready.
  function Folded(tasks: Tasks, joined: seq<Joined>, limits: Limits): Tasks {
    FoldAll(StartAll(tasks, ReadyTaskIds(tasks)), joined, limits)
  }

  function AfterOutcome(t: PlanTask, outcome: RunOutcome, limits: Limits): PlanTask {
    Settle(t.(state := Running), RunOneTask(t, outcome), limits)
  }

  lemma FoldedKeepsShape(tasks: Tasks, joined: seq<Joined>, limits: Limits)
    ensures SameShape(tasks, Folded(tasks, joined, limits))
    ensures SameShape(tasks, Batch(tasks, joined, limits))
  {
    StartKeepsShape(tasks, ReadyTaskIds(tasks));
    FoldKeepsShape(StartAll(tasks, ReadyTaskIds(tasks)), joined, limits);
  }

  lemma CompletionIdsDoNotRepeat(tasks: Tasks, joined: seq<Joined>)
    requires OnlyFirstsReady(tasks) && IsCompletion(tasks, joined)
    ensures NoRepeats(JoinedIds(joined))
  {
    ReadyIdsDoNotRepeat(tasks, |tasks|);
    NoRepeatsMultiplicity(ReadyTaskIds(tasks));
    NoRepeatsMultiplicity(JoinedIds(joined));
  }

  lemma ReadyIdMeansReadyTask(tasks: Tasks, i: nat)
    requires OnlyFirstsReady(tasks) && i < |tasks| && !IsShadow(tasks, i)
    ensures tasks[i].id in ReadyTaskIds(tasks) <==> IsReady(tasks, tasks[i])
  {
    SelectReadyMembers(tasks, |tasks|, tasks[i].id);
    if tasks[i].id in ReadyTaskIds(tasks) {
      var k :| 0 <= k < |tasks| && tasks[k].id == tasks[i].id && IsReady(tasks, tasks[k]);
      assert !IsShadow(tasks, k);
    }
  }

  // A ready task ends its batch as its own run decides; every other task is untouched.
  lemma FoldedAt(tasks: Tasks, joined: seq<Joined>, limits: Limits, i: nat) returns (outcome: RunOutcome)
    requires OnlyFirstsReady(tasks) && IsCompletion(tasks, joined) && i < |tasks|
    ensures |Folded(tasks, joined, limits)| == |tasks|
    ensures Folded(tasks, joined, limits)[i] ==
      if IsReady(tasks, tasks[i]) then AfterOutcome(tasks[i], outcome, limits) else tasks[i]
  {
    outcome := Panicked;
    var ids := ReadyTaskIds(tasks);
    var id := tasks[i].id;
    var started := StartAll(tasks, ids);
    FoldedKeepsShape(tasks, joined, limits);
    StartKeepsShape(tasks, ids);
    StartAllAt(tasks, ids, i);
    CompletionIdsDoNotRepeat(tasks, joined);
    FoldAllAt(started, joined, limits, i);
    FirstIndexByShape(tasks, started, id);
    RunForFinds(joined, id);
    SameMultisetSameElements(JoinedIds(joined), ids);
    if !IsShadow(tasks, i) {
      ReadyIdMeansReadyTask(tasks, i);
      if id in ids {
        var run := RunFor(joined, id).value;
        assert CompletesFirst(tasks, run);
        outcome :| run == RunOneTask(tasks[i], outcome);
      }
    }
  }

  // ---------- what a run keeps ----------

  ghost predicate Needs(g: Graph, deps: seq<string>, r: string) {
    exists d :: d in deps && (d == r || Reach(g, d, r))
  }

  predicate Fresh(tasks: Tasks) {
    forall t :: t in tasks ==> (t.state.Pending? || t.state.Ready?) && t.attempts == 0 && t.reviewLoops == 0
  }

  // A dependency, direct or transitive, on which a task can rely: one task carries the id,
  // it is accepted, and it does not depend on itself.
  ghost predicate Reliable(g: Graph, tasks: Tasks, r: string) {
    Unique(tasks, r) && Satisfied(tasks, r) && !Reach(g, r, r)
  }

  ghost predicate Supported(g: Graph, tasks: Tasks, t: PlanTask) {
    forall r :: Needs(g, t.dependencies, r) ==> Reliable(g, tasks, r)
  }

  predicate LiveState(s: TaskState) {
    Schedulable(s) || s.Running? || s.Accepted? || s.Failed?
  }

  ghost predicate TaskInvariant(g: Graph, tasks: Tasks, i: nat)
    requires i < |tasks|
  {
    && LiveState(tasks[i].state)
    && (!Schedulable(tasks[i].state) ==> !IsShadow(tasks, i) && Supported(g, tasks, tasks[i]))
  }

  ghost predicate RunInvariant(g: Graph, tasks: Tasks) {
    && g == LookupGraph(tasks)
    && forall i :: 0 <= i < |tasks| ==> TaskInvariant(g, tasks, i)
  }

  lemma FreshInvariant(tasks: Tasks)
    requires Fresh(tasks)
    ensures RunInvariant(LookupGraph(tasks), tasks)
  {
  }

  lemma FirstAndLastIsUnique(tasks: Tasks, k: nat)
    requires k < |tasks| && !IsShadow(tasks, k)
    requires forall j :: k < j < |tasks| ==> tasks[j].id != tasks[k].id
    ensures Unique(tasks, tasks[k].id)
  {
    assert forall j :: 0 <= j < k ==> tasks[j].id != tasks[k].id;
  }

  // A satisfied dependency belongs to exactly one task.
  lemma SatisfiedIsUnique(g: Graph, tasks: Tasks, d: string) returns (k: nat)
    requires RunInvariant(g, tasks) && Satisfied(tasks, d)
    ensures k < |tasks| && tasks[k].id == d && tasks[k] == ById(tasks)[d]
    ensures Unique(tasks, d) && Supported(g, tasks, tasks[k])
  {
    k := LastIndex(tasks, d);
    assert TaskInvariant(g, tasks, k);
    FirstAndLastIsUnique(tasks, k);
  }

  lemma ReachMeansNeeds(g: Graph, d: string)
    ensures forall r :: Reach(g, d, r) ==> d in g && Needs(g, g[d], r)
  {
    forall r | Reach(g, d, r)
      ensures d in g && Needs(g, g[d], r)
    {
      var c := ReachFirstStep(g, d, r);
    }
  }

  // What a satisfied dependency needs is reliable, and so is the dependency itself.
  lemma SatisfiedIsReliable(g: Graph, tasks: Tasks, d: string, r: string)
    requires RunInvariant(g, tasks) && Satisfied(tasks, d)
    requires d == r || Reach(g, d, r)
    ensures Reliable(g, tasks, r)
  {
    var k := SatisfiedIsUnique(g, tasks, d);
    ReachMeansNeeds(g, d);
    assert forall x :: Reach(g, d, x) ==> Reliable(g, tasks, x);
  }

  lemma ReadyIsSupported(g: Graph, tasks: Tasks, t: PlanTask)
    requires RunInvariant(g, tasks) && IsReady(tasks, t)
    ensures Supported(g, tasks, t)
  {
    forall r | Needs(g, t.dependencies, r)
      ensures Reliable(g, tasks, r)
    {
      var d :| d in t.dependencies && (d == r || Reach(g, d, r));
      SatisfiedIsReliable(g, tasks, d, r);
    }
  }

  // A task with a repeated id that a run may one day find ready: everything it needs is there
  // once and nothing of it lies on a cycle.
  ghost predicate Startable(tasks: Tasks, i: nat)
    requires i < |tasks|
  {
    var g := LookupGraph(tasks);
    forall r :: Needs(g, tasks[i].dependencies, r) ==> Unique(tasks, r) && !Reach(g, r, r)
  }

  ghost predicate NoStartableDuplicates(tasks: Tasks) {
    forall i :: 0 <= i < |tasks| && IsShadow(tasks, i) ==> !Startable(tasks, i)
  }

  lemma UniqueIdsHaveNoShadows(tasks: Tasks)
    requires UniqueIds(tasks)
    ensures NoStartableDuplicates(tasks)
  {
    forall i | 0 <= i < |tasks|
      ensures !IsShadow(tasks, i)
    {
      ByIdOfUnique(tasks, i);
    }
  }

  lemma NoShadowIsReady(g: Graph, tasks: Tasks)
    requires RunInvariant(g, tasks) && NoStartableDuplicates(tasks)
    ensures OnlyFirstsReady(tasks)
  {
    forall i | 0 <= i < |tasks| && IsReady(tasks, tasks[i])
      ensures !IsShadow(tasks, i)
    {
      ReadyIsSupported(g, tasks, tasks[i]);
      if IsShadow(tasks, i) {
        assert Startable(tasks, i);
      }
    }
  }

  lemma NoStartableDuplicatesByShape(a: Tasks, b: Tasks)
    requires SameShape(a, b) && NoStartableDuplicates(a)
    ensures NoStartableDuplicates(b)
  {
    LookupByShape(a, b);
    forall i | 0 <= i < |b| && IsShadow(b, i)
      ensures !Startable(b, i)
    {
      FirstIndexByShape(a, b, b[i].id);
      assert IsShadow(a, i) && !Startable(a, i);
      var g := LookupGraph(a);
      var r :| Needs(g, a[i].dependencies, r) && !(Unique(a, r) && !Reach(g, r, r));
      UniqueByShape(a, b, r);
    }
  }

  lemma UniqueLookup(tasks: Tasks, k: nat)
    requires k < |tasks| && Unique(tasks, tasks[k].id)
    ensures tasks[k].id in ById(tasks) && ById(tasks)[tasks[k].id] == tasks[k]
  {
    var j := LastIndex(tasks, tasks[k].id);
  }

  // A finished task is never touched again.
  lemma BatchAt(tasks: Tasks, joined: seq<Joined>, limits: Limits, i: nat) returns (outcome: RunOutcome)
    requires OnlyFirstsReady(tasks) && IsCompletion(tasks, joined) && i < |tasks|
    ensures |Batch(tasks, joined, limits)| == |tasks|
    ensures
      var folded := if IsReady(tasks, tasks[i]) then AfterOutcome(tasks[i], outcome, limits) else tasks[i];
      Batch(tasks, joined, limits)[i] == PromoteTask(Folded(tasks, joined, limits), folded)
  {
    outcome := FoldedAt(tasks, joined, limits, i);
  }

  lemma BatchKeepsDone(tasks: Tasks, joined: seq<Joined>, limits: Limits, i: nat)
    requires OnlyFirstsReady(tasks) && IsCompletion(tasks, joined) && i < |tasks|
    requires Done(tasks[i].state)
    ensures |Batch(tasks, joined, limits)| == |tasks|
    ensures Batch(tasks, joined, limits)[i] == tasks[i]
  {
    var _ := BatchAt(tasks, joined, limits, i);
  }

  lemma BatchKeepsReliable(g: Graph, tasks: Tasks, joined: seq<Joined>, limits: Limits, r: string)
    requires RunInvariant(g, tasks) && OnlyFirstsReady(tasks) && IsCompletion(tasks, joined)
    requires Reliable(g, tasks, r)
    ensures Reliable(g, Batch(tasks, joined, limits), r)
  {
    var after := Batch(tasks, joined, limits);
    FoldedKeepsShape(tasks, joined, limits);
    UniqueByShape(tasks, after, r);
    var k := SatisfiedIsUnique(g, tasks, r);
    BatchKeepsDone(tasks, joined, limits, k);
    UniqueLookup(after, k);
  }

  lemma BatchKeepsInvariant(g: Graph, tasks: Tasks, joined: seq<Joined>, limits: Limits)
    requires RunInvariant(g, tasks) && NoStartableDuplicates(tasks) && IsCompletion(tasks, joined)
    ensures RunInvariant(g, Batch(tasks, joined, limits))
  {
    var after := Batch(tasks, joined, limits);
    NoShadowIsReady(g, tasks);
    FoldedKeepsShape(tasks, joined, limits);
    LookupByShape(tasks, after);
    forall i | 0 <= i < |after|
      ensures TaskInvariant(g, after, i)
    {
      BatchKeepsTaskInvariant(g, tasks, joined, limits, i);
    }
  }

  lemma BatchKeepsTaskInvariant(g: Graph, tasks: Tasks, joined: seq<Joined>, limits: Limits, i: nat)
    requires RunInvariant(g, tasks) && OnlyFirstsReady(tasks) && IsCompletion(tasks, joined) && i < |tasks|
    ensures |Batch(tasks, joined, limits)| == |tasks|
    ensures TaskInvariant(g, Batch(tasks, joined, limits), i)
  {
    var after := Batch(tasks, joined, limits);
    FoldedKeepsShape(tasks, joined, limits);
    FirstIndexByShape(tasks, after, tasks[i].id);
    var _ := BatchAt(tasks, joined, limits, i);
    assert TaskInvariant(g, tasks, i);
    if !Schedulable(after[i].state) {
      if IsReady(tasks, tasks[i]) {
        ReadyIsSupported(g, tasks, tasks[i]);
      }
      forall r | Needs(g, after[i].dependencies, r)
        ensures Reliable(g, after, r)
      {
        assert Needs(g, tasks[i].dependencies, r);
        BatchKeepsReliable(g, tasks, joined, limits, r);
      }
    }
  }

  lemma {:induction false} RunKeepsShape(tasks: Tasks, script: Script, limits: Limits)
    ensures SameShape(tasks, StateAfter(tasks, script, limits))
  {
    if script != [] {
      var init, last := script[..|script| - 1], script[|script| - 1];
      RunKeepsShape(tasks, init, limits);
      FoldedKeepsShape(StateAfter(tasks, init, limits), last, limits);
    }
  }

  lemma {:induction false} RunKeepsInvariant(tasks: Tasks, script: Script, limits: Limits)
    requires Fresh(tasks) && NoStartableDuplicates(tasks) && IsScript(tasks, script, limits)
    ensures RunInvariant(LookupGraph(tasks), StateAfter(tasks, script, limits))
    ensures NoStartableDuplicates(StateAfter(tasks, script, limits))
    ensures OnlyFirstsReady(StateAfter(tasks, script, limits))
  {
    var g, after := LookupGraph(tasks), StateAfter(tasks, script, limits);
    if script == [] {
      FreshInvariant(tasks);
    } else {
      var init, last := script[..|script| - 1], script[|script| - 1];
      RunKeepsInvariant(tasks, init, limits);
      BatchKeepsInvariant(g, StateAfter(tasks, init, limits), last, limits);
    }
    RunKeepsShape(tasks, script, limits);
    NoStartableDuplicatesByShape(tasks, after);
    NoShadowIsReady(g, after);
  }

  lemma {:induction false} ScriptPrefix(tasks: Tasks, script: Script, limits: Limits, k: nat)
    requires IsScript(tasks, script, limits) && k <= |script|
    ensures IsScript(tasks, script[..k], limits)
    decreases |script| - k
  {
    if k < |script| {
      ScriptPrefix(tasks, script, limits, k + 1);
      assert script[..k + 1][..k] == script[..k];
    } else {
      assert script[..k] == script;
    }
  }

  // The m-th batch of a run, with what holds just before it.
  lemma BatchOfRun(tasks: Tasks, script: Script, limits: Limits, m: nat)
    requires Fresh(tasks) && NoStartableDuplicates(tasks) && IsScript(tasks, script, limits)
    requires 0 < m <= |script|
    ensures var before := StateAfter(tasks, script[..m - 1], limits);
            && RunInvariant(LookupGraph(tasks), before) && OnlyFirstsReady(before)
            && IsCompletion(before, script[m - 1])
            && StateAfter(tasks, script[..m], limits) == Batch(before, script[m - 1], limits)
  {
    ScriptPrefix(tasks, script, limits, m);
    assert script[..m][..m - 1] == script[..m - 1];
    RunKeepsInvariant(tasks, script[..m - 1], limits);
  }

  // ---------- dependency safety ----------

  // The dependency is reliable after the first m batches of the run.
  ghost predicate ReliableAfter(tasks: Tasks, script: Script, limits: Limits, m: nat, r: string)
    requires m <= |script|
  {
    Reliable(LookupGraph(tasks), StateAfter(tasks, script[..m], limits), r)
  }

  lemma ReliableNext(tasks: Tasks, script: Script, limits: Limits, m: nat, r: string)
    requires Fresh(tasks) && NoStartableDuplicates(tasks) && IsScript(tasks, script, limits)
    requires 0 < m <= |script| && ReliableAfter(tasks, script, limits, m - 1, r)
    ensures ReliableAfter(tasks, script, limits, m, r)
  {
    BatchOfRun(tasks, script, limits, m);
    BatchKeepsReliable(LookupGraph(tasks), StateAfter(tasks, script[..m - 1], limits), script[m - 1], limits, r);
  }

  // Reliable dependencies stay reliable for the rest of the run: Accepted is never left.
  lemma {:induction false} ReliableForever(tasks: Tasks, script: Script, limits: Limits, k: nat, m: nat, r: string)
    requires Fresh(tasks) && NoStartableDuplicates(tasks) && IsScript(tasks, script, limits)
    requires k <= m <= |script| && ReliableAfter(tasks, script, limits, k, r)
    ensures ReliableAfter(tasks, script, limits, m, r)
    decreases m
  {
    if k == m {
      assert script[..k] == script[..m];
    } else {
      ReliableForever(tasks, script, limits, k, m - 1, r);
      ReliableNext(tasks, script, limits, m, r);
    }
  }

  // The state a run gives the one task with this id.
  ghost predicate AcceptedIn(tasks: Tasks, id: string) {
    Unique(tasks, id) && exists i :: 0 <= i < |tasks| && tasks[i].id == id && tasks[i].state == Accepted
  }

  lemma ReliableIsAccepted(g: Graph, tasks: Tasks, r: string)
    requires RunInvariant(g, tasks) && Reliable(g, tasks, r)
    ensures AcceptedIn(tasks, r)
  {
    var k := SatisfiedIsUnique(g, tasks, r);
    assert TaskInvariant(g, tasks, k);
  }

  // A task ready in batch k has everything it needs accepted from then on, cycle-free.
  lemma ReadyTaskIsSupported(tasks: Tasks, script: Script, limits: Limits, k: nat, m: nat, i: nat, r: string)
    requires Fresh(tasks) && NoStartableDuplicates(tasks) && IsScript(tasks, script, limits)
    requires k <= m <= |script| && i < |tasks|
    requires |StateAfter(tasks, script[..k], limits)| == |tasks|
    requires IsReady(StateAfter(tasks, script[..k], limits), StateAfter(tasks, script[..k], limits)[i])
    requires Needs(LookupGraph(tasks), tasks[i].dependencies, r)
    ensures AcceptedIn(StateAfter(tasks, script[..m], limits), r) && !Reach(LookupGraph(tasks), r, r)
  {
    var g, before := LookupGraph(tasks), StateAfter(tasks, script[..k], limits);
    ScriptPrefix(tasks, script, limits, k);
    RunKeepsInvariant(tasks, script[..k], limits);
    RunKeepsShape(tasks, script[..k], limits);
    ReadyIsSupported(g, before, before[i]);
    ReliableForever(tasks, script, limits, k, m, r);
    ScriptPrefix(tasks, script, limits, m);
    RunKeepsInvariant(tasks, script[..m], limits);
    ReliableIsAccepted(g, StateAfter(tasks, script[..m], limits), r);
  }

  // Dependency safety in the planner's own terms: once an id has been dispatched, every id in
  // its transitive dependency set, as reachable_dependencies computes it, is accepted, now and
  // in every later state of the run.
  lemma DependencySafety(tasks: Tasks, script: Script, limits: Limits, k: nat, m: nat, id: string, r: string)
    requires Fresh(tasks) && UniqueIds(tasks) && IsScript(tasks, script, limits)
    requires k <= m <= |script|
    requires id in ReadyTaskIds(StateAfter(tasks, script[..k], limits))
    requires Reach(LookupGraph(tasks), id, r)
    ensures AcceptedIn(StateAfter(tasks, script[..m], limits), r)
  {
    var g, before := LookupGraph(tasks), StateAfter(tasks, script[..k], limits);
    UniqueIdsHaveNoShadows(tasks);
    RunKeepsShape(tasks, script[..k], limits);
    SelectReadyMembers(before, |before|, id);
    var i :| 0 <= i < |before| && before[i].id == id && IsReady(before, before[i]);
    ByIdOfUnique(tasks, i);
    ReachMeansNeeds(g, id);
    ReadyTaskIsSupported(tasks, script, limits, k, m, i, r);
  }

  predicate HoldsAccepted(tasks: Tasks, i: nat, t: PlanTask) {
    i < |tasks| && tasks[i] == t && t.state == Accepted
  }

  lemma BatchHoldsAccepted(before: Tasks, joined: seq<Joined>, after: Tasks, limits: Limits, i: nat, t: PlanTask)
    requires OnlyFirstsReady(before) && IsCompletion(before, joined) && after == Batch(before, joined, limits)
    requires HoldsAccepted(before, i, t)
    ensures HoldsAccepted(after, i, t)
  {
    BatchKeepsDone(before, joined, limits, i);
  }

  // Task i is t and accepted after the first m batches of the run.
  predicate AcceptedAfter(tasks: Tasks, script: Script, limits: Limits, m: nat, i: nat, t: PlanTask)
    requires m <= |script|
  {
    HoldsAccepted(StateAfter(tasks, script[..m], limits), i, t)
  }

  lemma AcceptedNext(tasks: Tasks, script: Script, limits: Limits, m: nat, i: nat, t: PlanTask)
    requires Fresh(tasks) && NoStartableDuplicates(tasks) && IsScript(tasks, script, limits)
    requires 0 < m <= |script| && AcceptedAfter(tasks, script, limits, m - 1, i, t)
    ensures AcceptedAfter(tasks, script, limits, m, i, t)
  {
    BatchOfRun(tasks, script, limits, m);
    BatchHoldsAccepted(StateAfter(tasks, script[..m - 1], limits), script[m - 1],
                       StateAfter(tasks, script[..m], limits), limits, i, t);
  }

  // Accepted is never left while the loop runs.
  lemma {:induction false} AcceptedForever(tasks: Tasks, script: Script, limits: Limits, k: nat, m: nat, i: nat,
                                           t: PlanTask)
    requires Fresh(tasks) && NoStartableDuplicates(tasks) && IsScript(tasks, script, limits)
    requires k <= m <= |script| && AcceptedAfter(tasks, script, limits, k, i, t)
    ensures AcceptedAfter(tasks, script, limits, m, i, t)
    decreases m
  {
    if k < m {
      AcceptedForever(tasks, script, limits, k, m - 1, i, t);
      AcceptedNext(tasks, script, limits, m, i, t);
    }
  }

  // ---------- what is left when the loop stops ----------

  // A dependency that will never be satisfied: no or several tasks carry the id, it depends on
  // itself, or its task failed or was lost to a join error.
  ghost predicate Hopeless(g: Graph, tasks: Tasks, r: string) {
    || !Unique(tasks, r)
    || Reach(g, r, r)
    || exists k :: 0 <= k < |tasks| && tasks[k].id == r && (tasks[k].state.Failed? || tasks[k].state.Running?)
  }

  predicate AllLive(g: Graph, tasks: Tasks) {
    g == LookupGraph(tasks) && forall i :: 0 <= i < |tasks| ==> LiveState(tasks[i].state)
  }

  // When nothing is ready any more, the tasks still waiting are exactly those that need
  // something hopeless.
  lemma WaitingMeansHopelessNeed(g: Graph, tasks: Tasks, i: nat)
    requires RunInvariant(g, tasks) && ReadyTaskIds(tasks) == [] && i < |tasks|
    ensures Schedulable(tasks[i].state) <==>
      exists r :: Needs(g, tasks[i].dependencies, r) && Hopeless(g, tasks, r)
  {
    assert TaskInvariant(g, tasks, i);
    if Schedulable(tasks[i].state) {
      forall k | 0 <= k < |tasks|
        ensures LiveState(tasks[k].state)
      {
        assert TaskInvariant(g, tasks, k);
      }
      WaitingFindsHopeless(g, tasks, i);
    } else {
      forall r | Needs(g, tasks[i].dependencies, r)
        ensures !Hopeless(g, tasks, r)
      {
        ReliableIsAccepted(g, tasks, r);
      }
    }
  }

  // Following unsatisfied dependencies must end in something hopeless: it cannot go on for
  // ever inside a finite plan without running into a cycle.
  lemma WaitingFindsHopeless(g: Graph, tasks: Tasks, i: nat)
    requires AllLive(g, tasks) && ReadyTaskIds(tasks) == [] && i < |tasks|
    requires Schedulable(tasks[i].state)
    ensures exists r :: Needs(g, tasks[i].dependencies, r) && Hopeless(g, tasks, r)
  {
    if forall r :: Needs(g, tasks[i].dependencies, r) ==> !Hopeless(g, tasks, r) {
      var waiting := set t | t in tasks && Needs(g, tasks[i].dependencies, t.id) && Schedulable(t.state) :: t.id;
      var d := UnsatisfiedDependency(g, tasks, i);
      assert Needs(g, tasks[i].dependencies, d);
      WaitingOrSatisfied(g, tasks, d);
      forall w | w in waiting
        ensures StepsInto(g, w, waiting)
      {
        WaitingStepsOn(g, tasks, i, w);
      }
      var c := SinklessSetHasCycle(g, waiting, d);
    }
  }

  lemma UnsatisfiedDependency(g: Graph, tasks: Tasks, i: nat) returns (d: string)
    requires ReadyTaskIds(tasks) == [] && i < |tasks| && Schedulable(tasks[i].state)
    ensures d in tasks[i].dependencies && !Satisfied(tasks, d)
  {
    SelectReadyMembers(tasks, |tasks|, tasks[i].id);
    d :| d in tasks[i].dependencies && !Satisfied(tasks, d);
  }

  lemma WaitingOrSatisfied(g: Graph, tasks: Tasks, d: string)
    requires AllLive(g, tasks) && !Hopeless(g, tasks, d)
    ensures Satisfied(tasks, d) || exists t :: t in tasks && t.id == d && Schedulable(t.state)
  {
    var k :| 0 <= k < |tasks| && tasks[k].id == d;
    UniqueLookup(tasks, k);
  }

  lemma WaitingStepsOn(g: Graph, tasks: Tasks, i: nat, w: string)
    requires AllLive(g, tasks) && ReadyTaskIds(tasks) == [] && i < |tasks|
    requires forall r :: Needs(g, tasks[i].dependencies, r) ==> !Hopeless(g, tasks, r)
    requires Needs(g, tasks[i].dependencies, w)
    requires exists t :: t in tasks && t.id == w && Schedulable(t.state)
    ensures exists e :: Edge(g, w, e) && Needs(g, tasks[i].dependencies, e) &&
                        (exists t :: t in tasks && t.id == e && Schedulable(t.state))
  {
    var t :| t in tasks && t.id == w && Schedulable(t.state);
    var k :| 0 <= k < |tasks| && tasks[k] == t;
    UniqueLookup(tasks, k);
    var e := UnsatisfiedDependency(g, tasks, k);
    assert Edge(g, w, e);
    EdgeReach(g, w, e);
    var d :| d in tasks[i].dependencies && (d == w || Reach(g, d, w));
    if d != w {
      ReachTransitive(g, d, w, e);
    }
    assert Needs(g, tasks[i].dependencies, e);
    WaitingOrSatisfied(g, tasks, e);
  }

  // The main result about the end of a run: a task is still waiting exactly when something it
  // needs is missing, ambiguous, cyclic, failed or lost. Nothing else can stall a plan.
  lemma ExitIsComplete(tasks: Tasks, script: Script, limits: Limits, i: nat)
    requires Fresh(tasks) && NoStartableDuplicates(tasks) && IsFinalScript(tasks, script, limits)
    requires i < |tasks|
    ensures |StateAfter(tasks, script, limits)| == |tasks|
    ensures
      var final := StateAfter(tasks, script, limits);
      && LiveState(final[i].state)
      && (Schedulable(final[i].state) <==>
          exists r :: Needs(LookupGraph(tasks), tasks[i].dependencies, r) && Hopeless(LookupGraph(tasks), final, r))
  {
    RunKeepsShape(tasks, script, limits);
    RunKeepsInvariant(tasks, script, limits);
    var final := StateAfter(tasks, script, limits);
    WaitingMeansHopelessNeed(LookupGraph(tasks), final, i);
    assert TaskInvariant(LookupGraph(tasks), final, i);
  }

  // For an acyclic plan without outside dependencies only failed and lost tasks can hold
  // anything up, and without those every task is accepted.
  lemma AcyclicPlanFinishes(tasks: Tasks, script: Script, limits: Limits, i: nat)
    requires Fresh(tasks) && UniqueIds(tasks) && IsFinalScript(tasks, script, limits) && i < |tasks|
    requires !Cyclic(PlanGraph(tasks))
    requires forall t, d :: t in tasks && d in t.dependencies ==> d in IdSet(tasks)
    ensures var final := StateAfter(tasks, script, limits);
            && |final| == |tasks|
            && (final[i].state.Accepted? || final[i].state.Failed? || final[i].state.Running? ||
                exists k :: 0 <= k < |tasks| && (final[k].state.Failed? || final[k].state.Running?) &&
                            Reach(LookupGraph(tasks), tasks[i].id, tasks[k].id))
  {
    var g, final := LookupGraph(tasks), StateAfter(tasks, script, limits);
    UniqueIdsHaveNoShadows(tasks);
    RunKeepsShape(tasks, script, limits);
    ExitIsComplete(tasks, script, limits, i);
    if Schedulable(final[i].state) {
      var r :| Needs(g, tasks[i].dependencies, r) && Hopeless(g, final, r);
      NeedsIsReach(tasks, i, r);
      assert Reach(PlanGraph(tasks), r, r) <==> Reach(g, r, r) by {
        SameCycles(tasks, r);
      }
      ReachedIdsAreKnown(tasks, tasks[i].id, r);
      KnownIsUnique(final, r);
    }
  }

  lemma NeedsIsReach(tasks: Tasks, i: nat, r: string)
    requires UniqueIds(tasks) && i < |tasks|
    ensures Needs(LookupGraph(tasks), tasks[i].dependencies, r) <==> Reach(LookupGraph(tasks), tasks[i].id, r)
  {
    var g := LookupGraph(tasks);
    ByIdOfUnique(tasks, i);
    ReachMeansNeeds(g, tasks[i].id);
    if Needs(g, tasks[i].dependencies, r) {
      var d :| d in tasks[i].dependencies && (d == r || Reach(g, d, r));
      EdgeReach(g, tasks[i].id, d);
      if d != r {
        ReachTransitive(g, tasks[i].id, d, r);
      }
    }
  }

  lemma ReachedIdsAreKnown(tasks: Tasks, a: string, r: string)
    requires forall t, d :: t in tasks && d in t.dependencies ==> d in IdSet(tasks)
    requires Reach(LookupGraph(tasks), a, r)
    ensures r in IdSet(tasks)
  {
    var g := LookupGraph(tasks);
    var p :| IsWalk(g, p, a, r);
    var x := p[|p| - 2];
    assert Edge(g, x, r);
    assert ById(tasks)[x] in tasks;
  }

  lemma KnownIsUnique(tasks: Tasks, r: string)
    requires UniqueIds(tasks) && r in IdSet(tasks)
    ensures Unique(tasks, r)
  {
    var k := LastIndex(tasks, r);
  }

  // A task on a cycle, or behind one, is never dispatched.
  lemma CyclicTaskNeverDispatched(tasks: Tasks, script: Script, limits: Limits, i: nat, r: string)
    requires Fresh(tasks) && NoStartableDuplicates(tasks) && IsScript(tasks, script, limits)
    requires i < |tasks| && Needs(LookupGraph(tasks), tasks[i].dependencies, r) && Reach(LookupGraph(tasks), r, r)
    ensures |StateAfter(tasks, script, limits)| == |tasks|
    ensures !IsReady(StateAfter(tasks, script, limits), StateAfter(tasks, script, limits)[i])
    ensures Schedulable(StateAfter(tasks, script, limits)[i].state)
  {
    var after := StateAfter(tasks, script, limits);
    RunKeepsShape(tasks, script, limits);
    RunKeepsInvariant(tasks, script, limits);
    assert TaskInvariant(LookupGraph(tasks), after, i);
    if IsReady(after, after[i]) {
      ReadyIsSupported(LookupGraph(tasks), after, after[i]);
    }
  }

  // ---------- order of completion ----------

  lemma {:induction false} SameRunFor(a: seq<Joined>, b: seq<Joined>, id: string)
    requires multiset(a) == multiset(b) && NoRepeats(JoinedIds(a)) && NoRepeats(JoinedIds(b))
    ensures RunFor(a, id) == RunFor(b, id)
  {
    RunForFinds(a, id);
    RunForFinds(b, id);
    SameMultisetSameElements(a, b);
    if RunFor(a, id).Some? {
      var j := RunFor(a, id).value;
      assert j in b;
      OnlyRunWithId(b, j);
    } else if RunFor(b, id).Some? {
      var j := RunFor(b, id).value;
      assert j in a;
      OnlyRunWithId(a, j);
    }
  }

  lemma OnlyRunWithId(joined: seq<Joined>, j: Joined)
    requires NoRepeats(JoinedIds(joined)) && j in joined
    ensures RunFor(joined, j.TaskId()) == Some(j)
  {
    var id := j.TaskId();
    RunForFinds(joined, id);
    var k :| 0 <= k < |joined| && joined[k] == j;
    assert JoinedIds(joined)[k] == id;
    var m :| 0 <= m < |joined| && joined[m] == RunFor(joined, id).value;
    assert JoinedIds(joined)[m] == id;
  }

  lemma {:induction false} RecordAllAt(results: map<string, TaskResult>, joined: seq<Joined>, id: string)
    requires NoRepeats(JoinedIds(joined))
    ensures
      var run := RunFor(joined, id);
      var after := RecordAll(results, joined);
      if run.Some? && run.value.Finished? then id in after && after[id] == run.value.result
      else (id in after <==> id in results) && (id in results ==> after[id] == results[id])
  {
    if joined != [] {
      LastRunIsNew(joined);
      RecordAllAt(results, joined[..|joined| - 1], id);
    }
  }

  // The order in which a batch's runs finish changes neither the plan nor the result map.
  lemma CompletionOrderIsIrrelevant(tasks: Tasks, a: seq<Joined>, b: seq<Joined>, limits: Limits,
                                    results: map<string, TaskResult>)
    requires OnlyFirstsReady(tasks) && IsCompletion(tasks, a) && IsCompletion(tasks, b)
    requires multiset(a) == multiset(b)
    ensures Batch(tasks, a, limits) == Batch(tasks, b, limits)
    ensures RecordAll(results, a) == RecordAll(results, b)
  {
    CompletionIdsDoNotRepeat(tasks, a);
    CompletionIdsDoNotRepeat(tasks, b);
    var started := StartAll(tasks, ReadyTaskIds(tasks));
    forall i | 0 <= i < |started|
      ensures |FoldAll(started, a, limits)| == |started| == |FoldAll(started, b, limits)|
      ensures FoldAll(started, a, limits)[i] == FoldAll(started, b, limits)[i]
    {
      FoldAllAt(started, a, limits, i);
      FoldAllAt(started, b, limits, i);
      SameRunFor(a, b, started[i].id);
    }
    FoldKeepsShape(started, a, limits);
    FoldKeepsShape(started, b, limits);
    assert FoldAll(started, a, limits) == FoldAll(started, b, limits);
    SameRecords(results, a, b);
  }

  lemma SameRecords(results: map<string, TaskResult>, a: seq<Joined>, b: seq<Joined>)
    requires multiset(a) == multiset(b) && NoRepeats(JoinedIds(a)) && NoRepeats(JoinedIds(b))
    ensures RecordAll(results, a) == RecordAll(results, b)
  {
    var x, y := RecordAll(results, a), RecordAll(results, b);
    forall id
      ensures id in x <==> id in y
      ensures id in x ==> x[id] == y[id]
    {
      RecordAllAt(results, a, id);
      RecordAllAt(results, b, id);
      SameRunFor(a, b, id);
    }
  }

  // The promotion to Ready never changes which tasks the next batch dispatches.
  lemma {:induction false} PromotionIsInvisible(tasks: Tasks, n: nat)
    requires n <= |tasks|
    ensures |Promote(tasks)| == |tasks|
    ensures SelectReady(Promote(tasks), n) == SelectReady(tasks, n)
  {
    if n > 0 {
      PromotionIsInvisible(tasks, n - 1);
      forall d
        ensures Satisfied(Promote(tasks), d) <==> Satisfied(tasks, d)
      {
        PromotionKeepsDone(tasks);
        SatisfiedByShape(tasks, Promote(tasks), d);
      }
    }
  }

  lemma PromotionKeepsDone(tasks: Tasks)
    ensures SameShape(tasks, Promote(tasks))
    ensures forall k :: 0 <= k < |tasks| ==> (Done(Promote(tasks)[k].state) <==> Done(tasks[k].state))
  {
  }

  lemma SatisfiedByShape(a: Tasks, b: Tasks, d: string)
    requires SameShape(a, b)
    requires forall k :: 0 <= k < |a| ==> (Done(a[k].state) <==> Done(b[k].state))
    ensures Satisfied(a, d) <==> Satisfied(b, d)
  {
    FirstIndexByShape(a, b, d);
    if d in IdSet(a) {
      var k := LastIndex(a, d);
      ByIdOfLast(b, k);
    }
  }
}
