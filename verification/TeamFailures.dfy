/** What becomes of a persistent agent whose run failed: nothing in src/team/manager.rs makes it
    idle again, short of dropping it from the team and creating it anew. */
module TeamFailures {
  import opened Options
  import opened TeamOwnership
  import opened TeamPool

  // ---------- failed for good ----------

  predicate FailedIn(m: map<AgentId, Subagent>, i: nat) {
    Persistent(i) in m && m[Persistent(i)].state.Failed?
  }

  predicate IsFailed(w: World, i: nat) {
    FailedIn(Table(w.pool), i)
  }

  lemma StartKeepsFailed(w: World, s: Step, i: nat)
    requires WorldInvariant(w) && Enabled(w, s) && IsFailed(w, i) && s.StartRun?
    ensures IsFailed(Next(w, s), i)
  {
    var m := Table(w.pool);
    assert Ephemeral(w.next) in m ==> AgentOk(Ephemeral(w.next), m[Ephemeral(w.next)], w.next);
    AcquireEffect(w.pool, w.next, w.settings, s.suggested, s.task, s.role);
  }

  lemma ReconciledFailed(m: map<AgentId, Subagent>, after: map<AgentId, Subagent>, settings: Settings, i: nat)
    requires settings.Valid() && IsReconciled(m, after, settings) && 1 <= i <= settings.teamSize
    requires FailedIn(m, i)
    ensures FailedIn(after, i)
  {
    assert InRange(settings, Persistent(i));
  }

  lemma ReconcileKeepsFailed(pool: Pool, settings: Settings, i: nat)
    requires settings.Valid() && DistinctIds(pool) && FlagsMatchIds(Table(pool))
    requires FailedIn(Table(pool), i) && 1 <= i <= settings.teamSize
    ensures FailedIn(Table(Reconciled(pool, settings)), i)
  {
    ReconcileEffect(pool, settings);
    ReconciledFailed(Table(pool), Table(Reconciled(pool, settings)), settings, i);
  }

  lemma WorkKeepsFailed(w: World, s: Step, i: nat)
    requires WorldInvariant(w) && Enabled(w, s) && IsFailed(w, i) && s.StartWork?
    ensures IsFailed(Next(w, s), i)
  {
    assert Owns(Table(w.pool), w.workers[s.worker]);
    MarkEffect(w.pool, w.workers[s.worker].agent);
  }

  lemma FinishKeepsFailed(w: World, s: Step, i: nat)
    requires WorldInvariant(w) && Enabled(w, s) && IsFailed(w, i) && s.FinishRun?
    ensures IsFailed(Next(w, s), i)
  {
    assert Owns(Table(w.pool), w.workers[s.worker]);
    ReleaseEffect(w.pool, w.workers[s.worker].agent, s.failed);
  }

  lemma StepKeepsFailed(w: World, s: Step, i: nat)
    requires WorldInvariant(w) && Enabled(w, s) && IsFailed(w, i)
    requires 1 <= i <= w.settings.teamSize
    ensures IsFailed(Next(w, s), i)
  {
    match s
    case StartRun(_, _, _, _) => StartKeepsFailed(w, s, i);
    case StartWork(_) => WorkKeepsFailed(w, s, i);
    case FinishRun(_, _) => FinishKeepsFailed(w, s, i);
    case ChangeSettings(_) =>
    case Reconcile =>
      FlagsFromInvariant(w);
      ReconcileKeepsFailed(w.pool, w.settings, i);
  }

  // No settings that take effect shrink the team below agent i.
  predicate KeepsInTeam(steps: seq<Step>, i: nat) {
    forall s :: s in steps && s.ChangeSettings? && s.settings.Valid() ==> i <= s.settings.teamSize
  }

  // A persistent agent whose run failed is lost for good: as long as no settings shrink the
  // team below it, no schedule ever makes it idle again, so no worker ever acquires it.
  lemma {:induction false} FailedAgentIsNeverReused(w: World, steps: seq<Step>, i: nat)
    requires WorldInvariant(w) && IsFailed(w, i) && 1 <= i <= w.settings.teamSize && KeepsInTeam(steps, i)
    ensures IsFailed(WorldAfter(w, steps), i) && i <= WorldAfter(w, steps).settings.teamSize
    ensures !IsHeld(WorldAfter(w, steps).workers, Persistent(i))
  {
    if steps != [] {
      var n := |steps| - 1;
      var before, s := WorldAfter(w, steps[..n]), steps[n];
      assert s in steps;
      FailedAgentIsNeverReused(w, steps[..n], i);
      RunKeepsInvariant(w, steps[..n]);
      if Enabled(before, s) {
        StepKeepsFailed(before, s, i);
      }
    }
    RunKeepsInvariant(w, steps);
    var after := WorldAfter(w, steps);
    forall k | k in after.workers
      ensures after.workers[k].agent != Persistent(i)
    {
      assert Owns(Table(after.pool), after.workers[k]);
    }
  }

  // The first agent can never be dropped, since no valid team is empty: once failed it is lost
  // under every schedule.
  lemma FirstAgentIsLost(w: World, steps: seq<Step>)
    requires WorldInvariant(w) && IsFailed(w, 1)
    ensures IsFailed(WorldAfter(w, steps), 1) && !IsHeld(WorldAfter(w, steps).workers, Persistent(1))
  {
    FailedAgentIsNeverReused(w, steps, 1);
  }

  // ---------- dropped and created anew ----------

  predicate IdleIn(m: map<AgentId, Subagent>, i: nat) {
    Persistent(i) in m && m[Persistent(i)].state.Idle?
  }

  function Detour(settings: Settings, i: nat): seq<Step>
    requires i > 0
  {
    [ChangeSettings(settings.(teamSize := i - 1))] + [Reconcile] + [ChangeSettings(settings)] + [Reconcile]
  }

  lemma WorldSnoc(w: World, steps: seq<Step>, s: Step)
    requires Enabled(WorldAfter(w, steps), s)
    ensures WorldAfter(w, steps + [s]) == Next(WorldAfter(w, steps), s)
  {
    assert (steps + [s])[..|steps|] == steps;
  }

  lemma DetourEnds(w: World, i: nat)
    requires w.settings.Valid() && i >= 2
    ensures var small := w.settings.(teamSize := i - 1);
      WorldAfter(w, Detour(w.settings, i)) == w.(pool := Reconciled(Reconciled(w.pool, small), w.settings))
  {
    var small := w.settings.(teamSize := i - 1);
    assert [] + [ChangeSettings(small)] == [ChangeSettings(small)];
    WorldSnoc(w, [], ChangeSettings(small));
    WorldSnoc(w, [ChangeSettings(small)], Reconcile);
    WorldSnoc(w, [ChangeSettings(small)] + [Reconcile], ChangeSettings(w.settings));
    WorldSnoc(w, [ChangeSettings(small)] + [Reconcile] + [ChangeSettings(w.settings)], Reconcile);
  }

  lemma FailedIsDropped(m: map<AgentId, Subagent>, after: map<AgentId, Subagent>, small: Settings, i: nat)
    requires small.Valid() && IsReconciled(m, after, small) && FailedIn(m, i) && i > small.teamSize
    requires !Kept(small, m[Persistent(i)])
    ensures Persistent(i) !in after
  {
    assert !InRange(small, Persistent(i));
  }

  lemma MissingIsCreated(m: map<AgentId, Subagent>, after: map<AgentId, Subagent>, settings: Settings, i: nat)
    requires settings.Valid() && IsReconciled(m, after, settings) && 1 <= i <= settings.teamSize
    requires Persistent(i) !in m
    ensures IdleIn(after, i)
  {
    assert InRange(settings, Persistent(i));
  }

  lemma TwoReconciliationsRevive(pool: Pool, small: Settings, settings: Settings, i: nat)
    requires small.Valid() && settings.Valid() && small.teamSize < i <= settings.teamSize
    requires DistinctIds(pool) && FlagsMatchIds(Table(pool)) && FailedIn(Table(pool), i)
    requires Table(pool)[Persistent(i)].currentTask.None?
    ensures IdleIn(Table(Reconciled(Reconciled(pool, small), settings)), i)
  {
    var dropped := Reconciled(pool, small);
    ReconcileEffect(pool, small);
    assert !Kept(small, Table(pool)[Persistent(i)]);
    FailedIsDropped(Table(pool), Table(dropped), small, i);
    ReconcileEffect(dropped, settings);
    MissingIsCreated(Table(dropped), Table(Reconciled(dropped, settings)), settings, i);
  }

  // Shrinking the team below a failed agent, reconciling, and restoring the team.
  lemma ShrinkingRevives(w: World, i: nat)
    requires WorldInvariant(w) && IsFailed(w, i) && 2 <= i <= w.settings.teamSize
    ensures IdleIn(Table(WorldAfter(w, Detour(w.settings, i)).pool), i)
  {
    DetourEnds(w, i);
    FlagsFromInvariant(w);
    assert AgentOk(Persistent(i), Table(w.pool)[Persistent(i)], w.next);
    TwoReconciliationsRevive(w.pool, w.settings.(teamSize := i - 1), w.settings, i);
  }

  ghost predicate CanRecover(w: World, i: nat) {
    exists steps :: IdleIn(Table(WorldAfter(w, steps).pool), i)
  }

  // Exactly the agents other than the first can ever be idle again after a failure.
  lemma FailedAgentRecoversIff(w: World, i: nat)
    requires WorldInvariant(w) && IsFailed(w, i) && 1 <= i <= w.settings.teamSize
    ensures CanRecover(w, i) <==> i >= 2
  {
    if i >= 2 {
      ShrinkingRevives(w, i);
    } else {
      forall steps
        ensures !IdleIn(Table(WorldAfter(w, steps).pool), i)
      {
        FirstAgentIsLost(w, steps);
      }
    }
  }

  // ---------- how a team is lost ----------

  function FailedOrFresh(settings: Settings, n: nat, i: nat): Subagent
    requires settings.Valid() && i > 0
  {
    if i <= n then FreshAgent(settings, i).(state := Failed) else FreshAgent(settings, i)
  }

  // The initial pool after its first n agents have failed.
  function FailedPool(settings: Settings, n: nat): (pool: Pool)
    requires settings.Valid()
    ensures |pool| == settings.teamSize
    ensures forall j :: 0 <= j < |pool| ==> pool[j] == FailedOrFresh(settings, n, j + 1)
  {
    seq(settings.teamSize, j requires 0 <= j < settings.teamSize => FailedOrFresh(settings, n, j + 1))
  }

  function FailedWorld(settings: Settings, n: nat): World
    requires settings.Valid()
  {
    World(settings, FailedPool(settings, n), 1, map[])
  }

  function FailingRun(task: string): seq<Step> {
    [StartRun(0, task, None, 0)] + [StartWork(0)] + [FinishRun(0, true)]
  }

  lemma FirstFitAt(pool: Pool, n: nat)
    requires n < |pool| && pool[n].state.Idle? && forall j :: 0 <= j < n ==> !pool[j].state.Idle?
    ensures FirstFit(pool, None) == n
  {
  }

  lemma IndexAt(pool: Pool, n: nat)
    requires n < |pool| && forall j :: 0 <= j < n ==> pool[j].id != pool[n].id
    ensures IndexOf(pool, pool[n].id) == n
  {
  }

  // The n-th agent acquired for the run, and then running.
  function Busy(settings: Settings, n: nat, task: string, running: bool): World
    requires settings.Valid() && n < settings.teamSize
  {
    var pool := FailedPool(settings, n);
    var agent := pool[n].(state := if running then Running else Assigned, currentTask := Some(task));
    World(settings, pool[n := agent], 1, map[0 := Holding(agent.id, task, running, false)])
  }

  lemma FirstIdleIsTaken(settings: Settings, n: nat, task: string)
    requires settings.Valid() && n < settings.teamSize
    ensures Next(FailedWorld(settings, n), StartRun(0, task, None, 0)) == Busy(settings, n, task, false)
  {
    FirstFitAt(FailedPool(settings, n), n);
  }

  lemma TakenAgentRuns(settings: Settings, n: nat, task: string)
    requires settings.Valid() && n < settings.teamSize
    ensures Next(Busy(settings, n, task, false), StartWork(0)) == Busy(settings, n, task, true)
  {
    var w := Busy(settings, n, task, false);
    IndexAt(w.pool, n);
    assert Next(w, StartWork(0)).pool == Busy(settings, n, task, true).pool;
  }

  lemma RunningAgentFails(settings: Settings, n: nat, task: string)
    requires settings.Valid() && n < settings.teamSize
    ensures Next(Busy(settings, n, task, true), FinishRun(0, true)) == FailedWorld(settings, n + 1)
  {
    var w := Busy(settings, n, task, true);
    IndexAt(w.pool, n);
    assert Next(w, FinishRun(0, true)).pool == FailedPool(settings, n + 1);
    assert Next(w, FinishRun(0, true)).workers == map[];
  }

  // One run that acquires the first idle agent and fails.
  lemma OneMoreFails(settings: Settings, n: nat, task: string)
    requires settings.Valid() && n < settings.teamSize
    ensures WorldAfter(FailedWorld(settings, n), FailingRun(task)) == FailedWorld(settings, n + 1)
  {
    var w := FailedWorld(settings, n);
    var start := StartRun(0, task, None, 0);
    assert [] + [start] == [start];
    WorldSnoc(w, [], start);
    FirstIdleIsTaken(settings, n, task);
    WorldSnoc(w, [start], StartWork(0));
    TakenAgentRuns(settings, n, task);
    WorldSnoc(w, [start] + [StartWork(0)], FinishRun(0, true));
    RunningAgentFails(settings, n, task);
  }

  lemma {:induction false} WorldConcat(w: World, first: seq<Step>, second: seq<Step>)
    ensures WorldAfter(w, first + second) == WorldAfter(WorldAfter(w, first), second)
  {
    if second == [] {
      assert first + second == first;
    } else {
      var n := |second| - 1;
      WorldConcat(w, first, second[..n]);
      assert (first + second)[..|first + second| - 1] == first + second[..n];
    }
  }

  // From the start, n failing runs take the first n agents out of the team.
  lemma {:induction false} FailuresAreReachable(settings: Settings, n: nat, task: string) returns (steps: seq<Step>)
    requires settings.Valid() && n <= settings.teamSize
    ensures |steps| == 3 * n && WorldAfter(InitialWorld(settings), steps) == FailedWorld(settings, n)
    ensures forall s :: s in steps ==> !s.ChangeSettings?
  {
    steps := [];
    if n == 0 {
      assert FailedPool(settings, 0) == InitialPool(settings);
    } else {
      var before := FailuresAreReachable(settings, n - 1, task);
      OneMoreFails(settings, n - 1, task);
      WorldConcat(InitialWorld(settings), before, FailingRun(task));
      steps := before + FailingRun(task);
    }
  }

  // Three steps suffice for the first agent, which nothing can bring back.
  lemma OneFailureLosesFirstAgent(settings: Settings, task: string, later: seq<Step>)
    requires settings.Valid()
    ensures var w := WorldAfter(InitialWorld(settings), FailingRun(task));
      IsFailed(w, 1) && IsFailed(WorldAfter(w, later), 1)
  {
    var w := WorldAfter(InitialWorld(settings), FailingRun(task));
    assert FailedPool(settings, 0) == InitialPool(settings);
    OneMoreFails(settings, 0, task);
    InitialWorldIsGood(settings);
    RunKeepsInvariant(InitialWorld(settings), FailingRun(task));
    TableEntries(w.pool);
    assert w.pool[0] in w.pool;
    FirstAgentIsLost(w, later);
  }
}
